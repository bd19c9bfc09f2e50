/** What holds in every run of the gateway: any sequence of transactions, from the empty storage. */
module GatewayRuns {
  import opened ByteStrings
  import opened Keccak
  import opened Preimages
  import opened Decoding
  import opened Signatures
  import opened GatewaySpec
  import GatewayContract

  ghost function After(cfg: Config, verify: Verifier, txs: seq<Tx>, i: nat): GatewayState
    requires i <= |txs|
  {
    if i == 0 then EMPTY else Step(cfg, verify, After(cfg, verify, txs, i - 1), txs[i - 1]).0
  }

  ghost function ResultAt(cfg: Config, verify: Verifier, txs: seq<Tx>, i: nat): Outcome
    requires i < |txs|
  {
    Step(cfg, verify, After(cfg, verify, txs, i), txs[i]).1
  }

  // ---------- the registry ----------

  lemma {:induction false} RotateAllKeepsRegistry(cfg: Config, s: GatewayState, now: u64, sets: seq<WeightedSigners>, n: nat)
    requires n <= |sets| && RegistryOk(s) && RotateAll(cfg, s, now, sets, n).Some?
    ensures RegistryOk(RotateAll(cfg, s, now, sets, n).value)
  {
    if n > 0 {
      hide RegistryOk, RotatedBy;
      RotateAllKeepsRegistry(cfg, s, now, sets, n - 1);
      GatewayContract.RotationKeepsRegistry(cfg, RotateAll(cfg, s, now, sets, n - 1).value, now, sets[n - 1], false);
    }
  }

  lemma StepKeepsRegistry(cfg: Config, verify: Verifier, s: GatewayState, tx: Tx)
    requires RegistryOk(s)
    ensures RegistryOk(Step(cfg, verify, s, tx).0)
  {
    hide RegistryOk, RotateAll, RotatedBy, ProofResult, MessageHash, DataHash, DecodeSigners, DecodeBatch;
    match tx.call
    case Upgrade(newOperator, sets) =>
      var s1 := if newOperator == ZERO_ADDRESS then s else s.(operator := Some(newOperator));
      GatewayContract.SameRegistry(s, s1);
      if RotateAll(cfg, s1, tx.now, sets, |sets|).Some? {
        RotateAllKeepsRegistry(cfg, s1, tx.now, sets, |sets|);
      }
    case Rotate(caller, raw, proof) =>
      var newSigners := DecodeSigners(raw);
      if newSigners.Some? && s.operator.Some?
         && RotatedBy(cfg, s, tx.now, newSigners.value, caller != s.operator.value).Some? {
        GatewayContract.RotationKeepsRegistry(cfg, s, tx.now, newSigners.value, caller != s.operator.value);
      }
    case _ =>
      GatewayContract.SameRegistry(s, Step(cfg, verify, s, tx).0);
  }

  /** Epochs and signer hashes stay mutual inverses in every reachable state. */
  lemma {:induction false} RegistryAlwaysOk(cfg: Config, verify: Verifier, txs: seq<Tx>, i: nat)
    requires i <= |txs|
    ensures RegistryOk(After(cfg, verify, txs, i))
  {
    if i > 0 {
      hide RegistryOk, Step;
      RegistryAlwaysOk(cfg, verify, txs, i - 1);
      StepKeepsRegistry(cfg, verify, After(cfg, verify, txs, i - 1), txs[i - 1]);
    } else {
      assert RegistryOk(EMPTY);
    }
  }

  /** Whoever has an accepted proof proved it with a set that was valid when installed. */
  lemma AcceptedSetIsValid(cfg: Config, verify: Verifier, s: GatewayState, dataHash: Hash, proof: Proof)
    requires RegistryOk(s) && ProofResult(cfg, verify, s, dataHash, proof).Some?
    ensures ValidSigners(proof.signers)
  {
    hide SignersHash, ValidSigners, Quorum;
    var hash := SignersHash(proof.signers);
    assert hash in s.epochByHash;
    var ws :| ValidSigners(ws) && hash == SignersHash(ws);
    SignersHashInjective(ws, proof.signers);
  }

  ghost function Accepted(cfg: Config, s: GatewayState): set<Hash> {
    set h | h in s.epochByHash && InWindow(cfg, s, h)
  }

  function Interval(lo: int, hi: int): (r: set<int>)
    requires lo <= hi
    ensures |r| == hi - lo
    ensures forall x :: x in r <==> lo <= x < hi
    decreases hi - lo
  {
    if lo == hi then {} else Interval(lo, hi - 1) + {hi - 1}
  }

  /** Two finite sets in one-to-one correspondence have the same size. */
  lemma {:induction false} SameSize(hashes: set<Hash>, epochs: set<int>, m: map<Hash, nat>)
    requires forall h :: h in hashes ==> h in m && m[h] in epochs
    requires forall h, g :: h in hashes && g in hashes && m[h] == m[g] ==> h == g
    requires forall e :: e in epochs ==> exists h :: h in hashes && m[h] == e
    ensures |hashes| == |epochs|
  {
    if hashes == {} {
      assert forall e :: e !in epochs;
      assert epochs == {};
    } else {
      var h :| h in hashes;
      forall e | e in epochs - {m[h]} ensures exists g :: g in hashes - {h} && m[g] == e {
        var g :| g in hashes && m[g] == e;
        assert g in hashes - {h};
      }
      SameSize(hashes - {h}, epochs - {m[h]}, m);
    }
  }

  ghost predicate CanSign(verify: Verifier, key: Key, digest: Hash) {
    exists signature: Signature :: verify(key, digest, signature)
  }

  /** Whoever has a key can sign whatever he wants. */
  ghost predicate EveryKeyCanSign(verify: Verifier) {
    forall key, digest :: CanSign(verify, key, digest)
  }

  /** Some proof by the set with this hash is accepted. */
  ghost predicate CanProve(cfg: Config, verify: Verifier, s: GatewayState, hash: Hash) {
    exists dataHash: Hash, proof: Proof :: SignersHash(proof.signers) == hash && ProofResult(cfg, verify, s, dataHash, proof).Some?
  }

  ghost function Provers(cfg: Config, verify: Verifier, s: GatewayState): set<Hash> {
    set h | h in s.epochByHash && CanProve(cfg, verify, s, h)
  }

  ghost function SignatureOf(verify: Verifier, key: Key, digest: Hash): (signature: Signature)
    requires EveryKeyCanSign(verify)
    ensures verify(key, digest, signature)
  {
    assert CanSign(verify, key, digest);
    var signature: Signature :| verify(key, digest, signature);
    signature
  }

  /** All signers of the set signing the digest. */
  ghost function AllSign(verify: Verifier, ws: WeightedSigners, digest: Hash): (signatures: seq<Option<Signature>>)
    requires EveryKeyCanSign(verify)
    ensures |signatures| == |ws.signers|
    ensures forall i :: 0 <= i < |signatures| ==> SignedBy(verify, digest, ws.signers, signatures, i)
  {
    seq(|ws.signers|, i requires 0 <= i < |ws.signers| => Some(SignatureOf(verify, ws.signers[i].signer, digest)))
  }

  /** Registered at most `retention` epochs ago is the same as having an accepted proof, if the keys can sign. */
  lemma ProversAccepted(cfg: Config, verify: Verifier, s: GatewayState)
    requires RegistryOk(s) && EveryKeyCanSign(verify)
    ensures Provers(cfg, verify, s) == Accepted(cfg, s)
  {
    hide SignersHash, ValidSigners, HashToSign, EveryKeyCanSign, Quorum;
    forall h ensures h in Provers(cfg, verify, s) <==> h in Accepted(cfg, s) {
      if h in Accepted(cfg, s) {
        var ws :| ValidSigners(ws) && h == SignersHash(ws);
        var dataHash: Hash := h;
        var digest := HashToSign(cfg.domainSeparator, h, dataHash);
        var proof := Proof(ws, AllSign(verify, ws, digest));
        AllSigningIsQuorum(verify, digest, ws, proof.signatures);
        assert ProofResult(cfg, verify, s, dataHash, proof).Some?;
      }
    }
  }

  /** Exactly min(epoch, retention + 1) sets can sign at any time: that many have some accepted proof, if keys can sign. */
  lemma AcceptedCount(cfg: Config, verify: Verifier, s: GatewayState)
    requires RegistryOk(s)
    ensures |Accepted(cfg, s)| == if s.epoch < cfg.retention + 1 then s.epoch else cfg.retention + 1
    ensures EveryKeyCanSign(verify) ==>
      |Provers(cfg, verify, s)| == if s.epoch < cfg.retention + 1 then s.epoch else cfg.retention + 1
  {
    if EveryKeyCanSign(verify) { ProversAccepted(cfg, verify, s); }
    hide EveryKeyCanSign, CanProve, Provers, SignersHash, ValidSigners;
    var lo := if s.epoch < cfg.retention + 1 then 1 else s.epoch - cfg.retention;
    var epochs := Interval(lo, s.epoch + 1);
    forall e | e in epochs ensures exists h :: h in Accepted(cfg, s) && s.epochByHash[h] == e {
      var h := s.hashByEpoch[e];
      assert h in Accepted(cfg, s) && s.epochByHash[h] == e;
    }
    SameSize(Accepted(cfg, s), epochs, s.epochByHash);
  }

  /** The registry only grows. */
  ghost predicate Extends(s: GatewayState, t: GatewayState) {
    && s.epoch <= t.epoch
    && forall h :: h in s.epochByHash ==> h in t.epochByHash && t.epochByHash[h] == s.epochByHash[h]
  }

  lemma {:induction false} RotateAllExtends(cfg: Config, s: GatewayState, now: u64, sets: seq<WeightedSigners>, n: nat)
    requires n <= |sets| && RotateAll(cfg, s, now, sets, n).Some?
    ensures Extends(s, RotateAll(cfg, s, now, sets, n).value)
  {
    hide SignersHash, ValidSigners;
    if n > 0 { RotateAllExtends(cfg, s, now, sets, n - 1); }
  }

  lemma StepExtends(cfg: Config, verify: Verifier, s: GatewayState, tx: Tx)
    ensures Extends(s, Step(cfg, verify, s, tx).0)
  {
    hide RotateAll, SignersHash, ValidSigners, ProofResult, MessageHash, DataHash, DecodeSigners, DecodeBatch;
    if tx.call.Upgrade? {
      var s1 := if tx.call.newOperator == ZERO_ADDRESS then s else s.(operator := Some(tx.call.newOperator));
      if RotateAll(cfg, s1, tx.now, tx.call.sets, |tx.call.sets|).Some? {
        RotateAllExtends(cfg, s1, tx.now, tx.call.sets, |tx.call.sets|);
      }
    }
  }

  lemma {:induction false} RunExtends(cfg: Config, verify: Verifier, txs: seq<Tx>, i: nat, j: nat)
    requires i <= j <= |txs|
    ensures Extends(After(cfg, verify, txs, i), After(cfg, verify, txs, j))
  {
    hide Step;
    if i < j {
      RunExtends(cfg, verify, txs, i, j - 1);
      StepExtends(cfg, verify, After(cfg, verify, txs, j - 1), txs[j - 1]);
    }
  }

  /** A set that has left the window never signs again. */
  lemma {:induction false} ExpiredForever(cfg: Config, verify: Verifier, txs: seq<Tx>, i: nat, j: nat, hash: Hash)
    requires i <= j <= |txs|
    requires hash in After(cfg, verify, txs, i).epochByHash && !InWindow(cfg, After(cfg, verify, txs, i), hash)
    ensures !InWindow(cfg, After(cfg, verify, txs, j), hash)
  {
    hide After;
    RegistryAlwaysOk(cfg, verify, txs, i);
    RunExtends(cfg, verify, txs, i, j);
  }

  // ---------- who installed what ----------

  /** The transaction is a rotation that installed epoch `e`: a quorum of a set in the window signed the very buffer
      that decodes to the new set, and that set was the latest one unless the operator sent the transaction. */
  ghost predicate RotationInstalled(cfg: Config, verify: Verifier, s: GatewayState, tx: Tx, e: nat, hash: Hash) {
    && tx.call.Rotate? && DecodeSigners(tx.call.raw).Some? && s.operator.Some?
    && e == s.epoch + 1 && hash == SignersHash(DecodeSigners(tx.call.raw).value)
    && ValidSigners(DecodeSigners(tx.call.raw).value)
    && var signedBy := SignersHash(tx.call.proof.signers);
       && InWindow(cfg, s, signedBy)
       && Quorum(verify, HashToSign(cfg.domainSeparator, signedBy, DataHash(RotateSigners, tx.call.raw)),
                 tx.call.proof.signers, tx.call.proof.signatures)
       && (tx.call.caller != s.operator.value ==> EpochOf(s, signedBy) == s.epoch)
  }

  ghost predicate UpgradeInstalled(tx: Tx, hash: Hash) {
    && tx.call.Upgrade?
    && exists k :: 0 <= k < |tx.call.sets| && hash == SignersHash(tx.call.sets[k]) && ValidSigners(tx.call.sets[k])
  }

  ghost predicate Installed(cfg: Config, verify: Verifier, s: GatewayState, tx: Tx, e: nat, hash: Hash) {
    UpgradeInstalled(tx, hash) || RotationInstalled(cfg, verify, s, tx, e, hash)
  }

  lemma {:induction false} RotateAllOrigin(cfg: Config, s: GatewayState, now: u64, sets: seq<WeightedSigners>, n: nat, e: nat)
    requires n <= |sets| && RegistryOk(s) && RotateAll(cfg, s, now, sets, n).Some?
    requires e in RotateAll(cfg, s, now, sets, n).value.hashByEpoch
    ensures var hash := RotateAll(cfg, s, now, sets, n).value.hashByEpoch[e];
            || (e in s.hashByEpoch && hash == s.hashByEpoch[e])
            || exists k :: 0 <= k < n && hash == SignersHash(sets[k]) && ValidSigners(sets[k])
  {
    hide SignersHash, ValidSigners, RegistryOk;
    if n > 0 {
      var before := RotateAll(cfg, s, now, sets, n - 1).value;
      if e in before.hashByEpoch && e != before.epoch + 1 {
        RotateAllOrigin(cfg, s, now, sets, n - 1, e);
      }
    }
  }

  lemma StepOrigin(cfg: Config, verify: Verifier, s: GatewayState, tx: Tx, e: nat)
    requires RegistryOk(s) && e in Step(cfg, verify, s, tx).0.hashByEpoch
    ensures var hash := Step(cfg, verify, s, tx).0.hashByEpoch[e];
            || (e in s.hashByEpoch && hash == s.hashByEpoch[e])
            || Installed(cfg, verify, s, tx, e, hash)
  {
    hide SignersHash, ValidSigners, RegistryOk, RotateAll, MessageHash, DataHash, Quorum, HashToSign, DecodeSigners,
      DecodeBatch;
    if tx.call.Upgrade? {
      var s1 := if tx.call.newOperator == ZERO_ADDRESS then s else s.(operator := Some(tx.call.newOperator));
      GatewayContract.SameRegistry(s, s1);
      if RotateAll(cfg, s1, tx.now, tx.call.sets, |tx.call.sets|).Some? {
        RotateAllOrigin(cfg, s1, tx.now, tx.call.sets, |tx.call.sets|, e);
      }
    }
  }

  lemma EpochsPresent(s: GatewayState, e: nat)
    requires RegistryOk(s)
    ensures 1 <= e <= s.epoch <==> e in s.hashByEpoch
  {
  }

  /** Every set ever registered was installed by deployment, by an upgrade, or by an authorised rotation. */
  lemma {:induction false} EverySetHasOrigin(cfg: Config, verify: Verifier, txs: seq<Tx>, n: nat, e: nat) returns (i: nat)
    requires n <= |txs| && 1 <= e <= After(cfg, verify, txs, n).epoch
    ensures e in After(cfg, verify, txs, n).hashByEpoch
    ensures i < n && Installed(cfg, verify, After(cfg, verify, txs, i), txs[i], e, After(cfg, verify, txs, n).hashByEpoch[e])
    decreases n
  {
    hide Step, Installed, RegistryOk;
    RegistryAlwaysOk(cfg, verify, txs, n);
    EpochsPresent(After(cfg, verify, txs, n), e);
    assert n > 0;
    RegistryAlwaysOk(cfg, verify, txs, n - 1);
    var s := After(cfg, verify, txs, n - 1);
    EpochsPresent(s, e);
    StepOrigin(cfg, verify, s, txs[n - 1], e);
    i := n - 1;
    if !Installed(cfg, verify, s, txs[n - 1], e, After(cfg, verify, txs, n).hashByEpoch[e]) {
      i := EverySetHasOrigin(cfg, verify, txs, n - 1, e);
    }
  }

  /** What the signers of a proof sign. */
  function Signed(cfg: Config, proof: Proof, command: CommandType, raw: Buffer): Hash {
    HashToSign(cfg.domainSeparator, SignersHash(proof.signers), DataHash(command, raw))
  }

  /** What the quorum signed determines what is installed: whoever signs the encoding of a set, for whichever gateway,
      signer set and command, can by that only ever install this very set, at this gateway and as a rotation. */
  lemma {:induction false} SignedSetIsInstalled(cfg: Config, verify: Verifier, s: GatewayState, tx: Tx,
                             domain: Hash, signers: WeightedSigners, command: CommandType, signed: WeightedSigners)
    requires tx.call.Rotate? && Step(cfg, verify, s, tx).1 == Done(true)
    requires Signed(cfg, tx.call.proof, RotateSigners, tx.call.raw)
          == HashToSign(domain, SignersHash(signers), DataHash(command, SignersPreimage(signed)))
    ensures domain == cfg.domainSeparator && signers == tx.call.proof.signers && command == RotateSigners
    ensures var t := Step(cfg, verify, s, tx).0;
      && t.epoch == s.epoch + 1 && t.epoch in t.hashByEpoch && t.hashByEpoch[t.epoch] == SignersHash(signed)
      && RotationInstalled(cfg, verify, s, tx, t.epoch, SignersHash(signed))
  {
    SignedDataInjective(cfg.domainSeparator, tx.call.proof.signers, RotateSigners, tx.call.raw,
                        domain, signers, command, SignersPreimage(signed));
    SignersDecode(signed);
    hide SignersHash, ValidSigners, DataHash, HashToSign, Quorum, DecodeSigners, SignersPreimage, Elapsed;
  }

  // ---------- rotation rate ----------

  predicate TimeMonotone(txs: seq<Tx>) {
    forall i, j :: 0 <= i <= j < |txs| ==> txs[i].now <= txs[j].now
  }

  /** A rotation the delay applies to: sent by someone other than the operator, and successful. */
  ghost predicate DelayedRotation(cfg: Config, verify: Verifier, txs: seq<Tx>, i: nat)
    requires i < |txs|
  {
    && txs[i].call.Rotate? && ResultAt(cfg, verify, txs, i) == Done(true)
    && After(cfg, verify, txs, i).operator != Some(txs[i].call.caller)
  }

  /** How many delayed rotations happen after transaction `i`, up to and including `j`. */
  ghost function DelayedCount(cfg: Config, verify: Verifier, txs: seq<Tx>, i: nat, j: nat): nat
    requires i <= j < |txs|
  {
    if i == j then 0
    else DelayedCount(cfg, verify, txs, i, j - 1) + if DelayedRotation(cfg, verify, txs, j) then 1 else 0
  }

  lemma {:induction false} RotateAllTime(cfg: Config, s: GatewayState, now: u64, sets: seq<WeightedSigners>, n: nat)
    requires n <= |sets| && RotateAll(cfg, s, now, sets, n).Some?
    ensures RotateAll(cfg, s, now, sets, n).value.lastRotation in {s.lastRotation, now}
  {
    hide SignersHash, ValidSigners;
    if n > 0 { RotateAllTime(cfg, s, now, sets, n - 1); }
  }

  lemma StepTime(cfg: Config, verify: Verifier, s: GatewayState, tx: Tx)
    requires s.lastRotation <= tx.now
    ensures s.lastRotation <= Step(cfg, verify, s, tx).0.lastRotation <= tx.now
    ensures tx.call.Rotate? && Step(cfg, verify, s, tx).1 == Done(true) ==>
              && Step(cfg, verify, s, tx).0.lastRotation == tx.now
              && (s.operator != Some(tx.call.caller) ==> tx.now >= s.lastRotation + cfg.minimumRotationDelay)
  {
    hide SignersHash, ValidSigners, RotateAll, MessageHash, DataHash, ProofResult, ApproveAll, DecodeSigners, DecodeBatch;
    if tx.call.Upgrade? {
      var s1 := if tx.call.newOperator == ZERO_ADDRESS then s else s.(operator := Some(tx.call.newOperator));
      if RotateAll(cfg, s1, tx.now, tx.call.sets, |tx.call.sets|).Some? {
        RotateAllTime(cfg, s1, tx.now, tx.call.sets, |tx.call.sets|);
      }
    }
  }

  lemma {:induction false} LastRotationPast(cfg: Config, verify: Verifier, txs: seq<Tx>, i: nat)
    requires TimeMonotone(txs) && i <= |txs|
    ensures i < |txs| ==> After(cfg, verify, txs, i).lastRotation <= txs[i].now
  {
    if 0 < i < |txs| {
      hide Step;
      LastRotationPast(cfg, verify, txs, i - 1);
      StepTime(cfg, verify, After(cfg, verify, txs, i - 1), txs[i - 1]);
    }
  }

  lemma {:induction false} RotationTimeline(cfg: Config, verify: Verifier, txs: seq<Tx>, i: nat, j: nat)
    requires TimeMonotone(txs) && i <= j < |txs| && DelayedRotation(cfg, verify, txs, i)
    ensures After(cfg, verify, txs, j + 1).lastRotation
         >= txs[i].now + DelayedCount(cfg, verify, txs, i, j) * cfg.minimumRotationDelay
  {
    hide Step, TimeMonotone;
    LastRotationPast(cfg, verify, txs, j);
    StepTime(cfg, verify, After(cfg, verify, txs, j), txs[j]);
    if i < j {
      RotationTimeline(cfg, verify, txs, i, j - 1);
      OneMore(DelayedCount(cfg, verify, txs, i, j - 1), cfg.minimumRotationDelay);
    }
  }

  lemma OneMore(c: nat, d: nat)
    ensures (c + 1) * d == c * d + d
  {
  }

  /** n delayed rotations take at least (n - 1) delays, whatever the operator and upgrades do in between. */
  lemma {:induction false} RotationRate(cfg: Config, verify: Verifier, txs: seq<Tx>, first: nat, last: nat)
    requires TimeMonotone(txs) && first <= last < |txs|
    requires DelayedRotation(cfg, verify, txs, first) && DelayedRotation(cfg, verify, txs, last)
    ensures txs[last].now >= txs[first].now + DelayedCount(cfg, verify, txs, first, last) * cfg.minimumRotationDelay
  {
    hide Step, DelayedCount;
    RotationTimeline(cfg, verify, txs, first, last);
    LastRotationPast(cfg, verify, txs, last);
    StepTime(cfg, verify, After(cfg, verify, txs, last), txs[last]);
  }

  // ---------- message life cycle ----------

  function Rank(m: MessageState): nat {
    match m
    case NonExistent => 0
    case Approved(_) => 1
    case Executed => 2
  }

  /** Forward only, and an approval is never replaced by another. */
  predicate MovesForward(a: MessageState, b: MessageState) {
    Rank(a) <= Rank(b) && (a.Approved? && b.Approved? ==> a == b)
  }

  lemma {:induction false} ApproveAllForward(messages: map<CrossChainId, MessageState>, batch: seq<Message>, n: nat, id: CrossChainId)
    requires n <= |batch|
    ensures var after := StateOf(ApproveAll(messages, batch, n), id);
            && MovesForward(StateOf(messages, id), after)
            && (!StateOf(messages, id).NonExistent? ==> after == StateOf(messages, id))
  {
    hide MessageHash;
    if n > 0 { ApproveAllForward(messages, batch, n - 1, id); }
  }

  lemma StepForward(cfg: Config, verify: Verifier, s: GatewayState, tx: Tx, id: CrossChainId)
    ensures MovesForward(StateOf(s.messages, id), StateOf(Step(cfg, verify, s, tx).0.messages, id))
  {
    hide RotateAll, RotatedBy, ProofResult, MessageHash, DataHash, ApproveAll, DecodeSigners, DecodeBatch;
    match tx.call
    case Upgrade(newOperator, sets) => UpgradeKeepsMessages(cfg, verify, s, tx);
    case Rotate(_, _, _) => RotateKeepsMessages(cfg, verify, s, tx);
    case ApproveBatch(raw, proof) =>
      var batch := DecodeBatch(raw);
      if batch.Some? { ApproveAllForward(s.messages, batch.value, |batch.value|, id); }
    case _ =>
  }

  lemma {:induction false} RotateAllKeepsMessages(cfg: Config, s: GatewayState, now: u64, sets: seq<WeightedSigners>, n: nat)
    requires n <= |sets| && RotateAll(cfg, s, now, sets, n).Some?
    ensures RotateAll(cfg, s, now, sets, n).value.messages == s.messages
  {
    hide SignersHash, ValidSigners;
    if n > 0 { RotateAllKeepsMessages(cfg, s, now, sets, n - 1); }
  }

  lemma UpgradeKeepsMessages(cfg: Config, verify: Verifier, s: GatewayState, tx: Tx)
    requires tx.call.Upgrade?
    ensures Step(cfg, verify, s, tx).0.messages == s.messages
  {
    hide RotateAll;
    var s1 := if tx.call.newOperator == ZERO_ADDRESS then s else s.(operator := Some(tx.call.newOperator));
    if RotateAll(cfg, s1, tx.now, tx.call.sets, |tx.call.sets|).Some? {
      RotateAllKeepsMessages(cfg, s1, tx.now, tx.call.sets, |tx.call.sets|);
    }
  }

  lemma RotateKeepsMessages(cfg: Config, verify: Verifier, s: GatewayState, tx: Tx)
    requires tx.call.Rotate?
    ensures Step(cfg, verify, s, tx).0.messages == s.messages
  {
    hide SignersHash, ValidSigners, ProofResult, DataHash, DecodeSigners;
  }

  /** An id only moves NonExistent -> Approved -> Executed, and its approved hash never changes. */
  lemma {:induction false} LifeCycle(cfg: Config, verify: Verifier, txs: seq<Tx>, i: nat, j: nat, id: CrossChainId)
    requires i <= j <= |txs|
    ensures MovesForward(StateOf(After(cfg, verify, txs, i).messages, id), StateOf(After(cfg, verify, txs, j).messages, id))
  {
    hide Step;
    if i < j {
      LifeCycle(cfg, verify, txs, i, j - 1, id);
      StepForward(cfg, verify, After(cfg, verify, txs, j - 1), txs[j - 1], id);
    }
  }

  ghost predicate Validated(cfg: Config, verify: Verifier, txs: seq<Tx>, i: nat, id: CrossChainId)
    requires i < |txs|
  {
    txs[i].call.Validate? && txs[i].call.id == id && ResultAt(cfg, verify, txs, i) == Done(true)
  }

  /** Nothing but a validation takes an approval away. */
  lemma OnlyValidateExecutes(cfg: Config, verify: Verifier, s: GatewayState, tx: Tx, id: CrossChainId)
    requires !tx.call.Validate? && StateOf(s.messages, id).Approved?
    ensures StateOf(Step(cfg, verify, s, tx).0.messages, id) == StateOf(s.messages, id)
  {
    hide MessageHash, SignersHash, DataHash, DecodeBatch, DecodeSigners, ProofResult, RotateAll, RotatedBy, ApproveAll;
    match tx.call
    case Upgrade(_, _) => UpgradeKeepsMessages(cfg, verify, s, tx);
    case Rotate(_, _, _) => RotateKeepsMessages(cfg, verify, s, tx);
    case ApproveBatch(raw, _) =>
      var batch := DecodeBatch(raw);
      if batch.Some? { ApproveAllForward(s.messages, batch.value, |batch.value|, id); }
    case _ =>
  }

  /** `validate_message` returns true at most once per id, whoever asks and with whatever arguments. */
  lemma ValidatedOnce(cfg: Config, verify: Verifier, txs: seq<Tx>, i: nat, j: nat, id: CrossChainId)
    requires i < |txs| && j < |txs| && Validated(cfg, verify, txs, i, id) && Validated(cfg, verify, txs, j, id)
    ensures i == j
  {
    if i < j {
      LifeCycle(cfg, verify, txs, i + 1, j, id);
    } else if j < i {
      LifeCycle(cfg, verify, txs, j + 1, i, id);
    }
  }

  /** The transaction approved a batch holding `m`: a quorum of a set in the window signed the very buffer that decodes
      to the batch. */
  ghost predicate ProvedBatch(cfg: Config, verify: Verifier, s: GatewayState, tx: Tx, m: Message) {
    && tx.call.ApproveBatch? && DecodeBatch(tx.call.raw).Some? && m in DecodeBatch(tx.call.raw).value
    && var hash := SignersHash(tx.call.proof.signers);
       && InWindow(cfg, s, hash)
       && Quorum(verify, HashToSign(cfg.domainSeparator, hash, DataHash(ApproveMessages, tx.call.raw)),
                 tx.call.proof.signers, tx.call.proof.signatures)
  }

  lemma {:induction false} ApproveAllOrigin(messages: map<CrossChainId, MessageState>, batch: seq<Message>, n: nat, id: CrossChainId)
    requires n <= |batch| && StateOf(ApproveAll(messages, batch, n), id).Approved?
    ensures || StateOf(messages, id) == StateOf(ApproveAll(messages, batch, n), id)
            || exists k :: 0 <= k < n && batch[k].id == id
                 && StateOf(ApproveAll(messages, batch, n), id) == Approved(HashOf(batch[k]))
  {
    hide HashOf;
    if n > 0 {
      var before := ApproveAll(messages, batch, n - 1);
      if StateOf(before, id).Approved? {
        ApproveAllOrigin(messages, batch, n - 1, id);
      } else {
        assert batch[n - 1].id == id && StateOf(ApproveAll(messages, batch, n), id) == Approved(HashOf(batch[n - 1]));
      }
    }
  }

  lemma StepApprovalOrigin(cfg: Config, verify: Verifier, s: GatewayState, tx: Tx, id: CrossChainId, hash: Hash)
    requires StateOf(Step(cfg, verify, s, tx).0.messages, id) == Approved(hash)
    ensures || StateOf(s.messages, id) == Approved(hash)
            || exists m :: ProvedBatch(cfg, verify, s, tx, m) && m.id == id && HashOf(m) == hash
  {
    hide RotateAll, RotatedBy, MessageHash, SignersHash, DataHash, ApproveAll, HashOf, Quorum, HashToSign, DecodeSigners,
      DecodeBatch;
    match tx.call
    case Upgrade(newOperator, sets) => UpgradeKeepsMessages(cfg, verify, s, tx);
    case Rotate(_, _, _) => RotateKeepsMessages(cfg, verify, s, tx);
    case ApproveBatch(raw, proof) =>
      var batch := DecodeBatch(raw);
      if Step(cfg, verify, s, tx).1 == Done(true) {
        ApproveAllOrigin(s.messages, batch.value, |batch.value|, id);
        if StateOf(s.messages, id) != Approved(hash) {
          var k :| 0 <= k < |batch.value| && batch.value[k].id == id && Approved(hash) == Approved(HashOf(batch.value[k]));
          assert ProvedBatch(cfg, verify, s, tx, batch.value[k]);
        }
      }
    case _ =>
  }

  lemma {:induction false} ApprovalOrigin(cfg: Config, verify: Verifier, txs: seq<Tx>, n: nat, id: CrossChainId, hash: Hash)
    requires n <= |txs| && StateOf(After(cfg, verify, txs, n).messages, id) == Approved(hash)
    ensures exists i, m :: 0 <= i < n && ProvedBatch(cfg, verify, After(cfg, verify, txs, i), txs[i], m)
                           && m.id == id && HashOf(m) == hash
  {
    hide Step, ProvedBatch, HashOf;
    assert n > 0;
    var s := After(cfg, verify, txs, n - 1);
    StepApprovalOrigin(cfg, verify, s, txs[n - 1], id, hash);
    if StateOf(s.messages, id) == Approved(hash) {
      ApprovalOrigin(cfg, verify, txs, n - 1, id, hash);
    }
  }

  /** What is executed was approved: an earlier quorum-proved batch held exactly this source, contract and payload hash. */
  lemma {:induction false} ExecutedWasProved(cfg: Config, verify: Verifier, txs: seq<Tx>, j: nat)
    requires j < |txs| && txs[j].call.Validate? && ResultAt(cfg, verify, txs, j) == Done(true)
    ensures exists i :: (0 <= i < j
      && ProvedBatch(cfg, verify, After(cfg, verify, txs, i), txs[i],
                     Message(txs[j].call.id, txs[j].call.sourceAddress, txs[j].call.caller, txs[j].call.payloadHash)))
  {
    hide ProvedBatch, MessageHash, After;
    var c := txs[j].call;
    var hash := MessageHash(c.id, c.sourceAddress, c.caller, c.payloadHash);
    ApprovalOrigin(cfg, verify, txs, j, c.id, hash);
    var i, m :| 0 <= i < j && ProvedBatch(cfg, verify, After(cfg, verify, txs, i), txs[i], m)
                && m.id == c.id && HashOf(m) == hash;
    MessageHashInjective(m.id, m.sourceAddress, m.contract, m.payloadHash, c.id, c.sourceAddress, c.caller, c.payloadHash);
    assert m == Message(c.id, c.sourceAddress, c.caller, c.payloadHash);
  }

  /** Whoever signs the encoding of a batch can by that only ever approve the messages of this very batch. */
  lemma {:induction false} SignedBatchIsApproved(cfg: Config, verify: Verifier, s: GatewayState, tx: Tx,
                              domain: Hash, signers: WeightedSigners, command: CommandType, signed: seq<Message>)
    requires tx.call.ApproveBatch? && Step(cfg, verify, s, tx).1 == Done(true)
    requires Signed(cfg, tx.call.proof, ApproveMessages, tx.call.raw)
          == HashToSign(domain, SignersHash(signers), DataHash(command, EncodeBatch(signed)))
    ensures domain == cfg.domainSeparator && signers == tx.call.proof.signers && command == ApproveMessages
    ensures Step(cfg, verify, s, tx).0.messages == ApproveAll(s.messages, signed, |signed|)
    ensures forall m :: m in signed ==> ProvedBatch(cfg, verify, s, tx, m)
  {
    SignedDataInjective(cfg.domainSeparator, tx.call.proof.signers, ApproveMessages, tx.call.raw,
                        domain, signers, command, EncodeBatch(signed));
    BatchDecodes(signed);
    hide SignersHash, DataHash, HashToSign, Quorum, DecodeBatch, EncodeBatch, ApproveAll;
  }

  /** Of several messages with one id in a batch, the first new one counts. */
  lemma {:induction false} FirstInBatchWins(messages: map<CrossChainId, MessageState>, batch: seq<Message>, k: nat, n: nat)
    requires k < n <= |batch| && StateOf(messages, batch[k].id).NonExistent?
    requires forall j :: 0 <= j < k ==> batch[j].id != batch[k].id
    ensures StateOf(ApproveAll(messages, batch, n), batch[k].id) == Approved(HashOf(batch[k]))
  {
    hide HashOf;
    if n == k + 1 {
      NotInBatch(messages, batch, k, batch[k].id);
    } else {
      FirstInBatchWins(messages, batch, k, n - 1);
    }
  }

  lemma {:induction false} NotInBatch(messages: map<CrossChainId, MessageState>, batch: seq<Message>, n: nat, id: CrossChainId)
    requires n <= |batch| && forall j :: 0 <= j < n ==> batch[j].id != id
    ensures StateOf(ApproveAll(messages, batch, n), id) == StateOf(messages, id)
  {
    hide HashOf;
    if n > 0 { NotInBatch(messages, batch, n - 1, id); }
  }

  lemma {:induction false} ApprovedOrExecutedAfter(messages: map<CrossChainId, MessageState>, batch: seq<Message>, k: nat, n: nat)
    requires k < n <= |batch|
    ensures !StateOf(ApproveAll(messages, batch, n), batch[k].id).NonExistent?
  {
    hide HashOf;
    if k + 1 < n { ApprovedOrExecutedAfter(messages, batch, k, n - 1); }
  }

  lemma {:induction false} ReapprovePrefix(messages: map<CrossChainId, MessageState>, batch: seq<Message>, n: nat)
    requires n <= |batch| && forall k :: 0 <= k < n ==> !StateOf(messages, batch[k].id).NonExistent?
    ensures ApproveAll(messages, batch, n) == messages
  {
    if n > 0 { ReapprovePrefix(messages, batch, n - 1); }
  }

  /** Approving a batch again, at any later time, changes nothing. */
  lemma ReapprovingChangesNothing(cfg: Config, verify: Verifier, txs: seq<Tx>, i: nat, j: nat)
    requires i < j < |txs| && txs[i].call.ApproveBatch? && ResultAt(cfg, verify, txs, i) == Done(true)
    requires txs[j].call.ApproveBatch? && DecodeBatch(txs[j].call.raw) == DecodeBatch(txs[i].call.raw)
    ensures After(cfg, verify, txs, j + 1) == After(cfg, verify, txs, j)
  {
    hide DecodeBatch;
    var batch := DecodeBatch(txs[i].call.raw).value;
    var s := After(cfg, verify, txs, j);
    forall k | 0 <= k < |batch| ensures !StateOf(s.messages, batch[k].id).NonExistent? {
      ApprovedOrExecutedAfter(After(cfg, verify, txs, i).messages, batch, k, |batch|);
      LifeCycle(cfg, verify, txs, i + 1, j, batch[k].id);
    }
    ReapprovePrefix(s.messages, batch, |batch|);
  }
}
