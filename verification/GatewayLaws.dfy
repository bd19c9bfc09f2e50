/** When the gateway accepts what it is given, operation by operation, and what it then does. */
module GatewayLaws {
  import opened ByteStrings
  import opened Keccak
  import opened Preimages
  import opened Decoding
  import opened Signatures
  import opened GatewaySpec
  import opened GatewayRuns

  // ---------- proofs ----------

  /** The set was installed as epoch e. */
  ghost predicate InstalledAt(s: GatewayState, ws: WeightedSigners, e: nat) {
    e in s.hashByEpoch && s.hashByEpoch[e] == SignersHash(ws)
  }

  ghost predicate Registered(s: GatewayState, ws: WeightedSigners) {
    exists e: nat :: InstalledAt(s, ws, e)
  }

  /** In the registry a set has one epoch, from which it can be found again. */
  lemma InstalledOnce(s: GatewayState, ws: WeightedSigners, e: nat)
    requires RegistryOk(s) && InstalledAt(s, ws, e)
    ensures 1 <= e <= s.epoch && EpochOf(s, SignersHash(ws)) == e && SignersHash(ws) in s.epochByHash
    ensures forall f: nat :: InstalledAt(s, ws, f) ==> f == e
  {
    hide SignersHash, ValidSigners;
  }

  lemma RegisteredExactly(s: GatewayState, ws: WeightedSigners)
    requires RegistryOk(s)
    ensures Registered(s, ws) <==> SignersHash(ws) in s.epochByHash
  {
    hide SignersHash, ValidSigners;
    if SignersHash(ws) in s.epochByHash {
      assert InstalledAt(s, ws, s.epochByHash[SignersHash(ws)]);
    }
  }

  /** A proof is accepted exactly when its set was installed at most `retention` epochs ago and a quorum of it signed;
      and the set counts as the latest exactly when its epoch is the current one. */
  lemma ProofExactly(cfg: Config, verify: Verifier, s: GatewayState, dataHash: Hash, proof: Proof)
    requires RegistryOk(s)
    ensures ProofResult(cfg, verify, s, dataHash, proof).Some? ==> Registered(s, proof.signers)
    ensures forall e: nat :: InstalledAt(s, proof.signers, e) ==>
      var r := ProofResult(cfg, verify, s, dataHash, proof);
      && (r.Some? <==>
            && s.epoch <= e + cfg.retention
            && Quorum(verify, HashToSign(cfg.domainSeparator, SignersHash(proof.signers), dataHash), proof.signers, proof.signatures))
      && (r.Some? ==> r.value == (e == s.epoch))
  {
    hide SignersHash, ValidSigners, Quorum, HashToSign;
    RegisteredExactly(s, proof.signers);
    forall e: nat | InstalledAt(s, proof.signers, e)
      ensures e <= s.epoch && EpochOf(s, SignersHash(proof.signers)) == e && e > 0 {
      InstalledOnce(s, proof.signers, e);
    }
  }

  lemma InstalledIsValid(s: GatewayState, ws: WeightedSigners, e: nat)
    requires RegistryOk(s) && InstalledAt(s, ws, e)
    ensures ValidSigners(ws)
  {
    hide SignersHash, ValidSigners;
    var hash := SignersHash(ws);
    assert hash in s.epochByHash;
    var installed :| ValidSigners(installed) && hash == SignersHash(installed);
    SignersHashInjective(installed, ws);
  }

  /** Every signer of the set signed this command for this gateway. */
  predicate AllSigned(cfg: Config, verify: Verifier, proof: Proof, command: CommandType, raw: Buffer) {
    && |proof.signatures| == |proof.signers.signers|
    && (forall i :: 0 <= i < |proof.signatures| ==>
          SignedBy(verify, Signed(cfg, proof, command, raw), proof.signers.signers, proof.signatures, i))
  }

  /** So the signers of any retained set, all together, are always heard. */
  lemma AllSignedAccepted(cfg: Config, verify: Verifier, s: GatewayState, proof: Proof, e: nat, command: CommandType, raw: Buffer)
    requires RegistryOk(s) && InstalledAt(s, proof.signers, e) && s.epoch <= e + cfg.retention
    requires AllSigned(cfg, verify, proof, command, raw)
    ensures ProofResult(cfg, verify, s, DataHash(command, raw), proof) == Some(e == s.epoch)
  {
    hide SignersHash, ValidSigners, Quorum, HashToSign, DataHash, RegistryOk;
    InstalledIsValid(s, proof.signers, e);
    AllSigningIsQuorum(verify, Signed(cfg, proof, command, raw), proof.signers, proof.signatures);
    ProofExactly(cfg, verify, s, DataHash(command, raw), proof);
  }

  // ---------- approving ----------

  /** A batch is approved exactly when the buffer holds at least one message and the proof over it is accepted. */
  lemma {:induction false} ApprovesExactly(cfg: Config, verify: Verifier, s: GatewayState, now: u64, raw: Buffer, proof: Proof)
    ensures var batch := DecodeBatch(raw);
      Step(cfg, verify, s, Tx(now, ApproveBatch(raw, proof))).1 == Done(true)
      <==> batch.Some? && |batch.value| > 0 && ProofResult(cfg, verify, s, DataHash(ApproveMessages, raw), proof).Some?
    ensures var r := Step(cfg, verify, s, Tx(now, ApproveBatch(raw, proof)));
      r.1 == Done(true) || (r.1 == Reverted && r.0 == s)
  {
    hide DecodeBatch, DataHash, ProofResult, ApproveAll;
  }

  /** What becomes of each id when a batch is approved: the first message of the batch with a new id sets its approval;
      an id that is not new, or not in the batch, is as before; nothing else changes. */
  lemma {:induction false} ApprovesMeans(cfg: Config, verify: Verifier, s: GatewayState, now: u64, raw: Buffer, proof: Proof)
    requires Step(cfg, verify, s, Tx(now, ApproveBatch(raw, proof))).1 == Done(true)
    ensures DecodeBatch(raw).Some?
    ensures var t := Step(cfg, verify, s, Tx(now, ApproveBatch(raw, proof))).0;
      var batch := DecodeBatch(raw).value;
      && t.(messages := s.messages) == s
      && (forall k :: 0 <= k < |batch| && FirstOfItsId(batch, k) && StateOf(s.messages, batch[k].id).NonExistent? ==>
            StateOf(t.messages, batch[k].id) == Approved(HashOf(batch[k])))
      && (forall id :: !StateOf(s.messages, id).NonExistent? || (forall k :: 0 <= k < |batch| ==> batch[k].id != id) ==>
            StateOf(t.messages, id) == StateOf(s.messages, id))
  {
    hide DecodeBatch, DataHash, ProofResult, ApproveAll, HashOf;
    var batch := DecodeBatch(raw).value;
    forall k | 0 <= k < |batch| && FirstOfItsId(batch, k) && StateOf(s.messages, batch[k].id).NonExistent?
      ensures StateOf(ApproveAll(s.messages, batch, |batch|), batch[k].id) == Approved(HashOf(batch[k])) {
      FirstInBatchWins(s.messages, batch, k, |batch|);
    }
    forall id | !StateOf(s.messages, id).NonExistent? || (forall k :: 0 <= k < |batch| ==> batch[k].id != id)
      ensures StateOf(ApproveAll(s.messages, batch, |batch|), id) == StateOf(s.messages, id) {
      if !StateOf(s.messages, id).NonExistent? {
        ApproveAllForward(s.messages, batch, |batch|, id);
      } else {
        NotInBatch(s.messages, batch, |batch|, id);
      }
    }
  }

  predicate FirstOfItsId(batch: seq<Message>, k: nat)
    requires k < |batch|
  {
    forall j :: 0 <= j < k ==> batch[j].id != batch[k].id
  }

  /** In every reachable state: the signers of any set installed at most `retention` epochs ago, all signing, get any
      batch of messages approved, and every new id of it then has an approval. */
  lemma {:induction false} SignersCanApprove(cfg: Config, verify: Verifier, txs: seq<Tx>, n: nat, now: u64,
                                             batch: seq<Message>, proof: Proof, e: nat)
    requires n <= |txs| && batch != []
    requires var s := After(cfg, verify, txs, n); InstalledAt(s, proof.signers, e) && s.epoch <= e + cfg.retention
    requires AllSigned(cfg, verify, proof, ApproveMessages, EncodeBatch(batch))
    ensures var s := After(cfg, verify, txs, n);
      var r := Step(cfg, verify, s, Tx(now, ApproveBatch(EncodeBatch(batch), proof)));
      && r.1 == Done(true)
      && (forall k :: 0 <= k < |batch| && FirstOfItsId(batch, k) && StateOf(s.messages, batch[k].id).NonExistent? ==>
            StateOf(r.0.messages, batch[k].id) == Approved(HashOf(batch[k])))
  {
    hide After, Step, InstalledAt, RegistryOk, AllSigned, DecodeBatch, EncodeBatch, DataHash, ProofResult, HashOf;
    var s := After(cfg, verify, txs, n);
    RegistryAlwaysOk(cfg, verify, txs, n);
    BatchDecodes(batch);
    AllSignedAccepted(cfg, verify, s, proof, e, ApproveMessages, EncodeBatch(batch));
    ApprovesExactly(cfg, verify, s, now, EncodeBatch(batch), proof);
    ApprovesMeans(cfg, verify, s, now, EncodeBatch(batch), proof);
  }

  // ---------- rotating ----------

  /** The minimum delay has passed since the last rotation, with time differences modulo 2^64. */
  predicate Waited(cfg: Config, s: GatewayState, now: u64) {
    (now as int - s.lastRotation) % 0x1_0000_0000_0000_0000 >= cfg.minimumRotationDelay
  }

  lemma ElapsedMod(now: u64, since: u64)
    ensures Elapsed(now, since) == (now as int - since) % 0x1_0000_0000_0000_0000
  {
  }

  /** A rotation succeeds exactly when there is an operator, the proof is accepted, the new set is valid and never was
      installed, and either the operator sends it or the latest set signed it and the delay has passed. */
  lemma RotatesExactly(cfg: Config, verify: Verifier, s: GatewayState, now: u64, caller: Address, raw: Buffer, proof: Proof)
    requires RegistryOk(s)
    ensures var newSigners := DecodeSigners(raw);
      var accepted := ProofResult(cfg, verify, s, DataHash(RotateSigners, raw), proof);
      Step(cfg, verify, s, Tx(now, Rotate(caller, raw, proof))).1 == Done(true) <==>
        && s.operator.Some? && newSigners.Some? && accepted.Some?
        && ValidSigners(newSigners.value) && !Registered(s, newSigners.value)
        && (s.operator == Some(caller) || (InstalledAt(s, proof.signers, s.epoch) && Waited(cfg, s, now)))
    ensures var r := Step(cfg, verify, s, Tx(now, Rotate(caller, raw, proof)));
      r.1 == Done(true) || (r.1 == Reverted && r.0 == s)
  {
    hide RegistryOk, DecodeSigners, DataHash, ProofResult, SignersHash, ValidSigners, Elapsed, InstalledAt, Registered;
    ElapsedMod(now, s.lastRotation);
    if DecodeSigners(raw).Some? { RegisteredExactly(s, DecodeSigners(raw).value); }
    if ProofResult(cfg, verify, s, DataHash(RotateSigners, raw), proof).Some? {
      LatestExactly(cfg, verify, s, DataHash(RotateSigners, raw), proof);
    }
  }

  lemma LatestExactly(cfg: Config, verify: Verifier, s: GatewayState, dataHash: Hash, proof: Proof)
    requires RegistryOk(s) && ProofResult(cfg, verify, s, dataHash, proof).Some?
    ensures ProofResult(cfg, verify, s, dataHash, proof).value <==> InstalledAt(s, proof.signers, s.epoch)
  {
    hide SignersHash, ValidSigners, Quorum, HashToSign, ProofResult, RegistryOk;
    ProofExactly(cfg, verify, s, dataHash, proof);
    var e: nat :| InstalledAt(s, proof.signers, e);
    InstalledOnce(s, proof.signers, e);
  }

  /** A rotation installs the new set as the next epoch, keeps all earlier ones, and notes the time. */
  lemma RotatesMeans(cfg: Config, verify: Verifier, s: GatewayState, now: u64, caller: Address, raw: Buffer, proof: Proof)
    requires RegistryOk(s) && Step(cfg, verify, s, Tx(now, Rotate(caller, raw, proof))).1 == Done(true)
    ensures DecodeSigners(raw).Some?
    ensures var t := Step(cfg, verify, s, Tx(now, Rotate(caller, raw, proof))).0;
      && t.epoch == s.epoch + 1 && t.lastRotation == now && t.operator == s.operator && t.messages == s.messages
      && (forall ws, e: nat :: InstalledAt(t, ws, e) <==>
            InstalledAt(s, ws, e) || (e == s.epoch + 1 && SignersHash(ws) == SignersHash(DecodeSigners(raw).value)))
  {
    hide DecodeSigners, DataHash, ProofResult, SignersHash, ValidSigners, Elapsed;
  }

  /** In every reachable state with an operator: the latest signers, all signing, install any valid set that never was
      installed, once the delay has passed; and so does any retained set at once, when the operator sends it. */
  lemma {:induction false} SignersCanRotate(cfg: Config, verify: Verifier, txs: seq<Tx>, n: nat, now: u64, caller: Address,
                                            newSigners: WeightedSigners, proof: Proof, e: nat)
    requires n <= |txs| && After(cfg, verify, txs, n).operator.Some?
    requires var s := After(cfg, verify, txs, n);
      && InstalledAt(s, proof.signers, e) && s.epoch <= e + cfg.retention
      && ValidSigners(newSigners) && !Registered(s, newSigners)
      && (s.operator == Some(caller) || (e == s.epoch && Waited(cfg, s, now)))
    requires AllSigned(cfg, verify, proof, RotateSigners, SignersPreimage(newSigners))
    ensures var s := After(cfg, verify, txs, n);
      var r := Step(cfg, verify, s, Tx(now, Rotate(caller, SignersPreimage(newSigners), proof)));
      r.1 == Done(true) && r.0.epoch == s.epoch + 1 && InstalledAt(r.0, newSigners, s.epoch + 1)
  {
    hide After, Step, InstalledAt, Registered, RegistryOk, AllSigned, DecodeSigners, SignersPreimage, DataHash, ProofResult,
      ValidSigners, Waited;
    var s := After(cfg, verify, txs, n);
    RegistryAlwaysOk(cfg, verify, txs, n);
    SignersDecode(newSigners);
    AllSignedAccepted(cfg, verify, s, proof, e, RotateSigners, SignersPreimage(newSigners));
    RotatesExactly(cfg, verify, s, now, caller, SignersPreimage(newSigners), proof);
    RotatesMeans(cfg, verify, s, now, caller, SignersPreimage(newSigners), proof);
  }

  // ---------- validating ----------

  /** A message is validated exactly when it stands approved with all five of its fields, the caller being the contract
      it is for; a validated message is executed, no other changes, and asking never fails. */
  lemma ValidatesExactly(cfg: Config, verify: Verifier, s: GatewayState, now: u64, m: Message, id: CrossChainId)
    ensures var r := Step(cfg, verify, s, Tx(now, Validate(m.contract, m.id, m.sourceAddress, m.payloadHash)));
      && r.1 == Done(StateOf(s.messages, m.id) == Approved(HashOf(m)))
      && r.0.(messages := s.messages) == s
      && StateOf(r.0.messages, id) == if r.1 == Done(true) && id == m.id then Executed else StateOf(s.messages, id)
  {
    hide MessageHash;
  }

  /** What stands approved with the fields of one message does not stand approved with those of another. */
  lemma ApprovedFor(s: GatewayState, m: Message, other: Message)
    requires StateOf(s.messages, m.id) == Approved(HashOf(m)) && StateOf(s.messages, m.id) == Approved(HashOf(other))
    ensures m == other
  {
    hide MessageHash;
    MessageHashInjective(m.id, m.sourceAddress, m.contract, m.payloadHash,
                         other.id, other.sourceAddress, other.contract, other.payloadHash);
  }

  lemma {:induction false} StaysApproved(cfg: Config, verify: Verifier, txs: seq<Tx>, i: nat, j: nat, id: CrossChainId)
    requires i <= j <= |txs| && StateOf(After(cfg, verify, txs, i).messages, id).Approved?
    requires forall k :: i <= k < j ==> !Validated(cfg, verify, txs, k, id)
    ensures StateOf(After(cfg, verify, txs, j).messages, id) == StateOf(After(cfg, verify, txs, i).messages, id)
    decreases j
  {
    hide HashOf;
    if i < j {
      StaysApproved(cfg, verify, txs, i, j - 1, id);
      var s, tx := After(cfg, verify, txs, j - 1), txs[j - 1];
      assert !Validated(cfg, verify, txs, j - 1, id);
      if tx.call.Validate? {
        var m := Message(tx.call.id, tx.call.sourceAddress, tx.call.caller, tx.call.payloadHash);
        ValidatesExactly(cfg, verify, s, tx.now, m, id);
        hide Step;
      } else {
        OnlyValidateExecutes(cfg, verify, s, tx, id);
        hide Step;
      }
    }
  }

  lemma OneTransaction(cfg: Config, verify: Verifier, txs: seq<Tx>, i: nat)
    requires i < |txs|
    ensures Step(cfg, verify, After(cfg, verify, txs, i), txs[i]) == (After(cfg, verify, txs, i + 1), ResultAt(cfg, verify, txs, i))
  {
    hide Step;
  }

  /** Transaction i approved a batch in which `batch[k]` is the first message with its id, and the id was new. */
  ghost predicate ApprovedAt(cfg: Config, verify: Verifier, txs: seq<Tx>, i: nat, batch: seq<Message>, k: nat)
    requires i < |txs| && k < |batch|
  {
    && txs[i].call.ApproveBatch? && DecodeBatch(txs[i].call.raw) == Some(batch) && ResultAt(cfg, verify, txs, i) == Done(true)
    && FirstOfItsId(batch, k) && StateOf(After(cfg, verify, txs, i).messages, batch[k].id).NonExistent?
  }

  lemma {:induction false} ApprovalSet(cfg: Config, verify: Verifier, txs: seq<Tx>, i: nat, batch: seq<Message>, k: nat)
    requires i < |txs| && k < |batch| && ApprovedAt(cfg, verify, txs, i, batch, k)
    ensures StateOf(After(cfg, verify, txs, i + 1).messages, batch[k].id) == Approved(HashOf(batch[k]))
  {
    hide Step, After, ResultAt, HashOf, DecodeBatch;
    var s, tx := After(cfg, verify, txs, i), txs[i];
    OneTransaction(cfg, verify, txs, i);
    assert tx == Tx(tx.now, ApproveBatch(tx.call.raw, tx.call.proof));
    ApprovesMeans(cfg, verify, s, tx.now, tx.call.raw, tx.call.proof);
  }

  lemma {:induction false} ApprovalWaits(cfg: Config, verify: Verifier, txs: seq<Tx>, i: nat, j: nat, batch: seq<Message>, k: nat)
    requires i < j <= |txs| && k < |batch| && ApprovedAt(cfg, verify, txs, i, batch, k)
    requires forall l :: i < l < j ==> !Validated(cfg, verify, txs, l, batch[k].id)
    ensures StateOf(After(cfg, verify, txs, j).messages, batch[k].id) == Approved(HashOf(batch[k]))
  {
    hide After, ApprovedAt, HashOf, Validated;
    ApprovalSet(cfg, verify, txs, i, batch, k);
    StaysApproved(cfg, verify, txs, i + 1, j, batch[k].id);
  }

  /** A message approved under a new id reaches its contract: however the run goes on, the first time the contract asks
      for it with its fields the answer is true. */
  lemma {:induction false} ApprovedIsDelivered(cfg: Config, verify: Verifier, txs: seq<Tx>, i: nat, j: nat, batch: seq<Message>, k: nat)
    requires i < j < |txs| && k < |batch| && ApprovedAt(cfg, verify, txs, i, batch, k)
    requires txs[j].call == Validate(batch[k].contract, batch[k].id, batch[k].sourceAddress, batch[k].payloadHash)
    requires forall l :: i < l < j ==> !Validated(cfg, verify, txs, l, batch[k].id)
    ensures Validated(cfg, verify, txs, j, batch[k].id)
    ensures StateOf(After(cfg, verify, txs, j + 1).messages, batch[k].id) == Executed
  {
    hide Step, After, ResultAt, HashOf, ApprovedAt;
    OneTransaction(cfg, verify, txs, j);
    ApprovalWaits(cfg, verify, txs, i, j, batch, k);
    ValidatesExactly(cfg, verify, After(cfg, verify, txs, j), txs[j].now, batch[k], batch[k].id);
  }

  // ---------- deployment and operator ----------

  /** All sets are valid, none was installed before, and no two are the same. */
  ghost predicate Installable(s: GatewayState, sets: seq<WeightedSigners>, n: nat)
    requires n <= |sets|
  {
    && (forall k :: 0 <= k < n ==> ValidSigners(sets[k]) && SignersHash(sets[k]) !in s.epochByHash)
    && (forall k, l :: 0 <= k < l < n ==> sets[k] != sets[l])
  }

  lemma OneInstall(cfg: Config, s: GatewayState, now: u64, ws: WeightedSigners)
    ensures var r := RotatedBy(cfg, s, now, ws, false);
      && (r.Some? <==> ValidSigners(ws) && SignersHash(ws) !in s.epochByHash)
      && (r.Some? ==>
            && r.value.epoch == s.epoch + 1 && r.value.operator == s.operator && r.value.messages == s.messages
            && r.value.epochByHash.Keys == s.epochByHash.Keys + {SignersHash(ws)}
            && r.value.hashByEpoch == s.hashByEpoch[s.epoch + 1 := SignersHash(ws)])
  {
    hide SignersHash, ValidSigners;
  }

  function Hashes(sets: seq<WeightedSigners>, n: nat): set<Hash>
    requires n <= |sets|
  {
    set k | 0 <= k < n :: SignersHash(sets[k])
  }

  lemma {:induction false} InstallsAll(cfg: Config, s: GatewayState, now: u64, sets: seq<WeightedSigners>, n: nat)
    requires n <= |sets| && RotateAll(cfg, s, now, sets, n).Some?
    ensures var t := RotateAll(cfg, s, now, sets, n).value;
      && t.epoch == s.epoch + n && t.operator == s.operator && t.messages == s.messages
      && t.epochByHash.Keys == s.epochByHash.Keys + Hashes(sets, n)
      && (forall k :: 0 <= k < n ==> InstalledAt(t, sets[k], s.epoch + k + 1))
    decreases n
  {
    hide SignersHash, RotatedBy;
    if n > 0 {
      InstallsAll(cfg, s, now, sets, n - 1);
      OneInstall(cfg, RotateAll(cfg, s, now, sets, n - 1).value, now, sets[n - 1]);
      assert Hashes(sets, n) == Hashes(sets, n - 1) + {SignersHash(sets[n - 1])};
    }
  }

  lemma InstallableNext(s: GatewayState, sets: seq<WeightedSigners>, n: nat)
    requires 0 < n <= |sets|
    ensures Installable(s, sets, n) <==>
      && Installable(s, sets, n - 1) && ValidSigners(sets[n - 1])
      && SignersHash(sets[n - 1]) !in s.epochByHash.Keys + Hashes(sets, n - 1)
  {
    hide SignersHash, ValidSigners;
    forall k | 0 <= k < n - 1 ensures SignersHash(sets[k]) == SignersHash(sets[n - 1]) <==> sets[k] == sets[n - 1] {
      if SignersHash(sets[k]) == SignersHash(sets[n - 1]) { SignersHashInjective(sets[k], sets[n - 1]); }
    }
    assert forall k :: 0 <= k < n - 1 ==> SignersHash(sets[k]) in Hashes(sets, n - 1);
    assert SignersHash(sets[n - 1]) in Hashes(sets, n - 1) <==> exists k :: 0 <= k < n - 1 && sets[k] == sets[n - 1];
  }

  lemma {:induction false} InstallsNext(cfg: Config, s: GatewayState, now: u64, sets: seq<WeightedSigners>, n: nat)
    requires 0 < n <= |sets| && RotateAll(cfg, s, now, sets, n - 1).Some?
    ensures RotateAll(cfg, s, now, sets, n).Some? <==>
      ValidSigners(sets[n - 1]) && SignersHash(sets[n - 1]) !in s.epochByHash.Keys + Hashes(sets, n - 1)
  {
    hide SignersHash, ValidSigners, RotatedBy, Hashes, InstalledAt;
    InstallsAll(cfg, s, now, sets, n - 1);
    OneInstall(cfg, RotateAll(cfg, s, now, sets, n - 1).value, now, sets[n - 1]);
  }

  lemma {:induction false} InstallsExactly(cfg: Config, s: GatewayState, now: u64, sets: seq<WeightedSigners>, n: nat)
    requires n <= |sets|
    ensures RotateAll(cfg, s, now, sets, n).Some? <==> Installable(s, sets, n)
    decreases n
  {
    hide *;
    if n == 0 {
      InstallsNone(cfg, s, now, sets);
    } else {
      InstallsExactly(cfg, s, now, sets, n - 1);
      InstallableNext(s, sets, n);
      if RotateAll(cfg, s, now, sets, n - 1).Some? {
        InstallsNext(cfg, s, now, sets, n);
      } else {
        InstallsBefore(cfg, s, now, sets, n);
      }
    }
  }

  lemma {:induction false} InstallsNone(cfg: Config, s: GatewayState, now: u64, sets: seq<WeightedSigners>)
    ensures RotateAll(cfg, s, now, sets, 0).Some? && Installable(s, sets, 0)
  {
  }

  lemma {:induction false} InstallsBefore(cfg: Config, s: GatewayState, now: u64, sets: seq<WeightedSigners>, n: nat)
    requires 0 < n <= |sets| && RotateAll(cfg, s, now, sets, n - 1).None?
    ensures RotateAll(cfg, s, now, sets, n).None?
  {
  }

  /** An upgrade succeeds exactly when all its sets can be installed together; it then installs them in order, without
      delay, and replaces the operator if one is named. */
  lemma {:induction false} UpgradesExactly(cfg: Config, verify: Verifier, s: GatewayState, now: u64, newOperator: Address,
                                           sets: seq<WeightedSigners>)
    ensures var r := Step(cfg, verify, s, Tx(now, Upgrade(newOperator, sets)));
      && (r.1 == Done(true) <==> Installable(s, sets, |sets|))
      && (r.1 == Done(true) || (r.1 == Reverted && r.0 == s))
      && (r.1 == Done(true) ==>
            && r.0.operator == (if newOperator == ZERO_ADDRESS then s.operator else Some(newOperator))
            && r.0.epoch == s.epoch + |sets| && r.0.messages == s.messages
            && (forall k :: 0 <= k < |sets| ==> InstalledAt(r.0, sets[k], s.epoch + k + 1)))
  {
    hide RotateAll, SignersHash, ValidSigners;
    var s1 := if newOperator == ZERO_ADDRESS then s else s.(operator := Some(newOperator));
    InstallsExactly(cfg, s1, now, sets, |sets|);
    if RotateAll(cfg, s1, now, sets, |sets|).Some? { InstallsAll(cfg, s1, now, sets, |sets|); }
    assert Installable(s1, sets, |sets|) == Installable(s, sets, |sets|);
  }

  /** The operator is replaced exactly by the operator or the owner naming a new one, and by an upgrade that names one. */
  lemma OperatorExactly(cfg: Config, verify: Verifier, s: GatewayState, tx: Tx)
    ensures tx.call.TransferOperatorship? ==>
      var r := Step(cfg, verify, s, tx);
      && (r.1 == Done(true) <==>
            s.operator.Some? && tx.call.newOperator != ZERO_ADDRESS
            && (s.operator == Some(tx.call.caller) || tx.call.caller == cfg.owner))
      && r.0 == if r.1 == Done(true) then s.(operator := Some(tx.call.newOperator)) else s
    ensures !tx.call.TransferOperatorship? && !tx.call.Upgrade? ==> Step(cfg, verify, s, tx).0.operator == s.operator
  {
    hide DecodeBatch, DecodeSigners, DataHash, ProofResult, SignersHash, ValidSigners, ApproveAll, RotateAll, MessageHash;
  }
}
