/** The gateway's storage and what each transaction does to it; a transaction that fails changes nothing. */
module GatewaySpec {
  import opened ByteStrings
  import opened Keccak
  import opened Preimages
  import opened Decoding
  import opened Signatures

  datatype MessageState = NonExistent | Approved(hash: Hash) | Executed

  datatype Config = Config(retention: nat, domainSeparator: Hash, minimumRotationDelay: u64, owner: Address)

  /** An absent map entry or operator is an empty storage slot. */
  datatype GatewayState = GatewayState(
    epoch: nat,
    hashByEpoch: map<nat, Hash>,
    epochByHash: map<Hash, nat>,
    lastRotation: u64,
    operator: Option<Address>,
    messages: map<CrossChainId, MessageState>)

  const EMPTY: GatewayState := GatewayState(0, map[], map[], 0, None, map[])

  /** Deployment is an `Upgrade` of the empty storage. `raw` is the buffer that is hashed, signed and decoded. */
  datatype Call =
    | Upgrade(newOperator: Address, sets: seq<WeightedSigners>)
    | ApproveBatch(raw: Buffer, proof: Proof)
    | Rotate(caller: Address, raw: Buffer, proof: Proof)
    | Validate(caller: Address, id: CrossChainId, sourceAddress: ManagedBuffer, payloadHash: Hash)
    | TransferOperatorship(caller: Address, newOperator: Address)

  datatype Tx = Tx(now: u64, call: Call)

  datatype Outcome = Reverted | Done(result: bool)

  function StateOf(messages: map<CrossChainId, MessageState>, id: CrossChainId): MessageState {
    if id in messages then messages[id] else NonExistent
  }

  function EpochOf(s: GatewayState, hash: Hash): nat {
    if hash in s.epochByHash then s.epochByHash[hash] else 0
  }

  /** u64 subtraction wraps around. */
  function Elapsed(now: u64, since: u64): u64 {
    if now >= since then now - since else now + 0x1_0000_0000_0000_0000 - since
  }

  function RotatedBy(cfg: Config, s: GatewayState, now: u64, ws: WeightedSigners, enforceDelay: bool)
    : Option<GatewayState>
  {
    var hash := SignersHash(ws);
    if !ValidSigners(ws) then None
    else if enforceDelay && Elapsed(now, s.lastRotation) < cfg.minimumRotationDelay then None
    else if hash in s.epochByHash then None
    else Some(s.(
      epoch := s.epoch + 1,
      hashByEpoch := s.hashByEpoch[s.epoch + 1 := hash],
      epochByHash := s.epochByHash[hash := s.epoch + 1],
      lastRotation := now))
  }

  /** Deployment and upgrade install sets without delay. */
  function RotateAll(cfg: Config, s: GatewayState, now: u64, sets: seq<WeightedSigners>, n: nat): Option<GatewayState>
    requires n <= |sets|
  {
    if n == 0 then Some(s)
    else
      match RotateAll(cfg, s, now, sets, n - 1)
      case None => None
      case Some(s1) => RotatedBy(cfg, s1, now, sets[n - 1], false)
  }

  /** A registered set no more than `retention` epochs behind the current one. */
  predicate InWindow(cfg: Config, s: GatewayState, hash: Hash) {
    0 < EpochOf(s, hash) <= s.epoch && s.epoch - EpochOf(s, hash) <= cfg.retention
  }

  /** Whether the proof is accepted, and if so whether its set is the latest. */
  ghost function ProofResult(cfg: Config, verify: Verifier, s: GatewayState, dataHash: Hash, proof: Proof): Option<bool> {
    var hash := SignersHash(proof.signers);
    if InWindow(cfg, s, hash)
       && Quorum(verify, HashToSign(cfg.domainSeparator, hash, dataHash), proof.signers, proof.signatures)
    then Some(EpochOf(s, hash) == s.epoch)
    else None
  }

  function HashOf(m: Message): Hash { MessageHash(m.id, m.sourceAddress, m.contract, m.payloadHash) }

  function ApproveOne(messages: map<CrossChainId, MessageState>, m: Message): map<CrossChainId, MessageState> {
    if StateOf(messages, m.id).NonExistent? then messages[m.id := Approved(HashOf(m))] else messages
  }

  function ApproveAll(messages: map<CrossChainId, MessageState>, batch: seq<Message>, n: nat)
    : map<CrossChainId, MessageState>
    requires n <= |batch|
  {
    if n == 0 then messages else ApproveOne(ApproveAll(messages, batch, n - 1), batch[n - 1])
  }

  ghost function Step(cfg: Config, verify: Verifier, s: GatewayState, tx: Tx): (GatewayState, Outcome) {
    match tx.call
    case Upgrade(newOperator, sets) =>
      var s1 := if newOperator == ZERO_ADDRESS then s else s.(operator := Some(newOperator));
      (match RotateAll(cfg, s1, tx.now, sets, |sets|)
       case None => (s, Reverted)
       case Some(s2) => (s2, Done(true)))
    case ApproveBatch(raw, proof) =>
      var batch := DecodeBatch(raw);
      if batch.None? || batch.value == []
         || ProofResult(cfg, verify, s, DataHash(ApproveMessages, raw), proof).None? then (s, Reverted)
      else (s.(messages := ApproveAll(s.messages, batch.value, |batch.value|)), Done(true))
    case Rotate(caller, raw, proof) =>
      var newSigners := DecodeSigners(raw);
      var accepted := ProofResult(cfg, verify, s, DataHash(RotateSigners, raw), proof);
      if newSigners.None? || s.operator.None? || accepted.None? then (s, Reverted)
      else
        var enforceDelay := caller != s.operator.value;
        if enforceDelay && !accepted.value then (s, Reverted)
        else (
          match RotatedBy(cfg, s, tx.now, newSigners.value, enforceDelay)
          case None => (s, Reverted)
          case Some(s1) => (s1, Done(true)))
    case Validate(caller, id, sourceAddress, payloadHash) =>
      if StateOf(s.messages, id) == Approved(MessageHash(id, sourceAddress, caller, payloadHash))
      then (s.(messages := s.messages[id := Executed]), Done(true))
      else (s, Done(false))
    case TransferOperatorship(caller, newOperator) =>
      if s.operator.None? || (caller != s.operator.value && caller != cfg.owner) || newOperator == ZERO_ADDRESS
      then (s, Reverted)
      else (s.(operator := Some(newOperator)), Done(true))
  }

  /** Epochs 1..epoch and registered hashes are in one-to-one correspondence, and every registered set was valid. */
  ghost predicate RegistryOk(s: GatewayState) {
    && (forall e :: e in s.hashByEpoch <==> 1 <= e <= s.epoch)
    && (forall e :: e in s.hashByEpoch ==> s.hashByEpoch[e] in s.epochByHash && s.epochByHash[s.hashByEpoch[e]] == e)
    && (forall h :: h in s.epochByHash ==> s.epochByHash[h] in s.hashByEpoch && s.hashByEpoch[s.epochByHash[h]] == h)
    && (forall h :: h in s.epochByHash ==> exists ws :: ValidSigners(ws) && h == SignersHash(ws))
  }

  // ---------- storage form of a message state ----------

  const MESSAGE_EXECUTED: bytes := [49]

  function TopEncode(state: MessageState): Buffer {
    match state
    case NonExistent => []
    case Approved(hash) => hash
    case Executed => Raw(MESSAGE_EXECUTED)
  }

  function TopDecode(stored: Buffer): Option<MessageState> {
    if stored == [] then Some(NonExistent)
    else if stored == Raw(MESSAGE_EXECUTED) then Some(Executed)
    else if IsHash(stored) then Some(Approved(stored))
    else None
  }

  /** No hash is mistaken for the executed mark or the empty slot. */
  lemma MessageStateRoundTrip(state: MessageState)
    ensures TopDecode(TopEncode(state)) == Some(state)
  {
    assert Raw(MESSAGE_EXECUTED)[0].Byte?;
  }
}

/** The gateway contract. Internal functions may leave the storage half-updated when they fail;
    the endpoint then restores it. */
module GatewayContract {
  import opened ByteStrings
  import opened Keccak
  import opened Preimages
  import opened Decoding
  import opened Signatures
  import opened GatewaySpec

  class Gateway {
    const cfg: Config
    const verify: Verifier
    var epoch: nat
    var hashByEpoch: map<nat, Hash>
    var epochByHash: map<Hash, nat>
    var lastRotation: u64
    var operator: Option<Address>
    var messages: map<CrossChainId, MessageState>

    function Storage(): GatewayState
      reads this
    {
      GatewayState(epoch, hashByEpoch, epochByHash, lastRotation, operator, messages)
    }

    ghost predicate Valid()
      reads this
    {
      RegistryOk(Storage())
    }

    constructor (cfg: Config, verify: Verifier)
      ensures Storage() == EMPTY && Valid()
      ensures this.cfg == cfg && this.verify == verify
    {
      this.cfg, this.verify := cfg, verify;
      epoch, hashByEpoch, epochByHash, lastRotation, operator, messages := 0, map[], map[], 0, None, map[];
    }

    method Restore(s: GatewayState)
      modifies this
      ensures Storage() == s
    {
      epoch, hashByEpoch, epochByHash := s.epoch, s.hashByEpoch, s.epochByHash;
      lastRotation, operator, messages := s.lastRotation, s.operator, s.messages;
    }

    /** The subtraction of epochs cannot underflow: a registered epoch is never ahead of the current one. */
    method ValidateProof(dataHash: Hash, proof: Proof) returns (r: Option<bool>)
      requires Valid()
      ensures r == ProofResult(cfg, verify, Storage(), dataHash, proof)
    {
      var signersHash := SignersHash(proof.signers);
      var signerEpoch := if signersHash in epochByHash then epochByHash[signersHash] else 0;
      var isLatestSigners := signerEpoch == epoch;
      if signerEpoch == 0 { return None; }
      var behind: nat := epoch - signerEpoch;
      if behind > cfg.retention { return None; }
      var messageHash := HashToSign(cfg.domainSeparator, signersHash, dataHash);
      var ok := ValidateSignatures(verify, messageHash, proof.signers, proof.signatures);
      r := if ok then Some(isLatestSigners) else None;
    }

    method UpdateRotationTimestamp(now: u64, enforceDelay: bool) returns (ok: bool)
      modifies this`lastRotation
      ensures ok <==> !enforceDelay || Elapsed(now, old(lastRotation)) >= cfg.minimumRotationDelay
      ensures lastRotation == if ok then now else old(lastRotation)
    {
      if enforceDelay && Elapsed(now, lastRotation) < cfg.minimumRotationDelay { return false; }
      lastRotation := now;
      return true;
    }

    method RotateSignersRaw(now: u64, ws: WeightedSigners, enforceDelay: bool) returns (ok: bool)
      modifies this
      ensures ok <==> RotatedBy(cfg, old(Storage()), now, ws, enforceDelay).Some?
      ensures ok ==> RotatedBy(cfg, old(Storage()), now, ws, enforceDelay) == Some(Storage())
    {
      ok := ValidateSigners(ws);
      if !ok { return; }
      ok := UpdateRotationTimestamp(now, enforceDelay);
      if !ok { return; }
      var newSignersHash := SignersHash(ws);
      epoch := epoch + 1;
      hashByEpoch := hashByEpoch[epoch := newSignersHash];
      if newSignersHash in epochByHash { return false; }
      epochByHash := epochByHash[newSignersHash := epoch];
    }

    method UpgradeContract(now: u64, newOperator: Address, sets: seq<WeightedSigners>) returns (r: Outcome)
      requires Valid()
      modifies this
      ensures (Storage(), r) == Step(cfg, verify, old(Storage()), Tx(now, Upgrade(newOperator, sets)))
      ensures Valid()
    {
      hide RegistryOk, RotatedBy;
      var pre := Storage();
      if newOperator != ZERO_ADDRESS {
        operator := Some(newOperator);
      }
      ghost var s1 := Storage();
      SameRegistry(pre, s1);
      for i := 0 to |sets|
        invariant RotateAll(cfg, s1, now, sets, i) == Some(Storage())
        invariant Valid()
      {
        ghost var before := Storage();
        var ok := RotateSignersRaw(now, sets[i], false);
        if !ok {
          RotateAllFails(cfg, s1, now, sets, i + 1, |sets|);
          Restore(pre);
          return Reverted;
        }
        RotationKeepsRegistry(cfg, before, now, sets[i], false);
      }
      r := Done(true);
    }

    method ApproveMessages(now: u64, raw: Buffer, proof: Proof) returns (r: Outcome)
      requires Valid()
      modifies this
      ensures (Storage(), r) == Step(cfg, verify, old(Storage()), Tx(now, ApproveBatch(raw, proof)))
      ensures Valid()
    {
      hide RegistryOk, ProofResult, ApproveOne, DataHash, DecodeBatch;
      ghost var pre := Storage();
      var dataHash := DataHash(CommandType.ApproveMessages, raw);
      var batch := DecodeBatch(raw);
      if batch.None? || batch.value == [] { return Reverted; }
      var accepted := ValidateProof(dataHash, proof);
      if accepted.None? { return Reverted; }
      for i := 0 to |batch.value|
        invariant Storage() == old(Storage()).(messages := ApproveAll(old(messages), batch.value, i))
      {
        ApproveMessage(batch.value[i]);
      }
      SameRegistry(pre, Storage());
      r := Done(true);
    }

    method ApproveMessage(m: Message)
      modifies this`messages
      ensures messages == ApproveOne(old(messages), m)
    {
      if !StateOf(messages, m.id).NonExistent? { return; }
      messages := messages[m.id := Approved(HashOf(m))];
    }

    method RotateSigners(now: u64, caller: Address, raw: Buffer, proof: Proof) returns (r: Outcome)
      requires Valid()
      modifies this
      ensures (Storage(), r) == Step(cfg, verify, old(Storage()), Tx(now, Rotate(caller, raw, proof)))
      ensures Valid()
    {
      hide RegistryOk, ProofResult, RotatedBy, DataHash, DecodeSigners;
      var pre := Storage();
      var dataHash := DataHash(CommandType.RotateSigners, raw);
      var newSigners := DecodeSigners(raw);
      if newSigners.None? || operator.None? { return Reverted; }
      var enforceDelay := caller != operator.value;
      var isLatestSigners := ValidateProof(dataHash, proof);
      if isLatestSigners.None? || (enforceDelay && !isLatestSigners.value) { return Reverted; }
      var ok := RotateSignersRaw(now, newSigners.value, enforceDelay);
      if !ok {
        Restore(pre);
        return Reverted;
      }
      RotationKeepsRegistry(cfg, pre, now, newSigners.value, enforceDelay);
      r := Done(true);
    }

    method ValidateMessage(now: u64, caller: Address, id: CrossChainId, sourceAddress: ManagedBuffer, payloadHash: Hash)
      returns (r: Outcome)
      requires Valid()
      modifies this
      ensures (Storage(), r) == Step(cfg, verify, old(Storage()), Tx(now, Validate(caller, id, sourceAddress, payloadHash)))
      ensures Valid()
    {
      hide RegistryOk, MessageHash;
      ghost var pre := Storage();
      var messageHash := MessageHash(id, sourceAddress, caller, payloadHash);
      var valid := StateOf(messages, id) == Approved(messageHash);
      if valid {
        messages := messages[id := Executed];
      }
      SameRegistry(pre, Storage());
      r := Done(valid);
    }

    method TransferOperatorshipTo(now: u64, caller: Address, newOperator: Address) returns (r: Outcome)
      requires Valid()
      modifies this
      ensures (Storage(), r) == Step(cfg, verify, old(Storage()), Tx(now, TransferOperatorship(caller, newOperator)))
      ensures Valid()
    {
      hide RegistryOk;
      ghost var pre := Storage();
      if operator.None? || (caller != operator.value && caller != cfg.owner) || newOperator == ZERO_ADDRESS {
        return Reverted;
      }
      operator := Some(newOperator);
      SameRegistry(pre, Storage());
      r := Done(true);
    }
  }

  lemma RotationKeepsRegistry(cfg: Config, s: GatewayState, now: u64, ws: WeightedSigners, enforceDelay: bool)
    requires RegistryOk(s) && RotatedBy(cfg, s, now, ws, enforceDelay).Some?
    ensures RegistryOk(RotatedBy(cfg, s, now, ws, enforceDelay).value)
  {
    hide SignersHash, ValidSigners, Elapsed;
  }

  /** The registry is the epoch counter and the two maps. */
  lemma SameRegistry(s: GatewayState, t: GatewayState)
    requires RegistryOk(s) && t.epoch == s.epoch && t.hashByEpoch == s.hashByEpoch && t.epochByHash == s.epochByHash
    ensures RegistryOk(t)
  {
  }

  lemma {:induction false} RotateAllFails(cfg: Config, s: GatewayState, now: u64, sets: seq<WeightedSigners>, n: nat, k: nat)
    requires n <= k <= |sets| && RotateAll(cfg, s, now, sets, n).None?
    ensures RotateAll(cfg, s, now, sets, k).None?
  {
    hide RotatedBy;
    if n < k { RotateAllFails(cfg, s, now, sets, n, k - 1); }
  }
}
