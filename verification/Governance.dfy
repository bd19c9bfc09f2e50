/** The governance contract's storage and what its endpoints and promise callbacks do to it. */
module GovernanceSpec {
  import opened ByteStrings
  import opened Keccak
  import opened Preimages
  import opened Decoding
  import opened ChainTypes
  import GW = GatewaySpec

  datatype Asset = Asset(identifier: TokenIdentifier, nonce: u64)

  datatype Command = ScheduleTimeLockProposal | CancelTimeLockProposal | ApproveOperatorProposal | CancelOperatorApproval

  datatype Proposal = Proposal(target: Address, callData: ManagedBuffer, nativeValue: BigUint)
  {
    function Hash(): Hash { ProposalHash(target, callData, nativeValue) }
  }

  datatype ExecutePayload = ExecutePayload(command: Command, proposal: Proposal, eta: u64)

  datatype Config = Config(governanceChain: ManagedBuffer, governanceAddress: ManagedBuffer, minimumDelay: u64, contract: Address)

  /** Sets are the boolean storage maps that hold `true`; an absent eta or refund is zero. */
  datatype GovState = GovState(
    timeLockSubmitted: set<Hash>,
    timeLockExecuting: set<Hash>,
    timeLockEta: map<Hash, u64>,
    operatorApprovals: set<Hash>,
    operatorSubmitted: set<Hash>,
    operatorExecuting: set<Hash>,
    refunds: map<(Address, Asset), nat>,
    operator: Address)

  datatype Path = TimeLock | Operator

  /** A registered promise: what its callback will receive. */
  datatype Promise = Promise(path: Path, hash: Hash, caller: Address, payments: Payments)

  function Submitted(s: GovState, path: Path): set<Hash> {
    if path.TimeLock? then s.timeLockSubmitted else s.operatorSubmitted
  }

  function Executing(s: GovState, path: Path): set<Hash> {
    if path.TimeLock? then s.timeLockExecuting else s.operatorExecuting
  }

  function EtaOf(s: GovState, hash: Hash): u64 {
    if hash in s.timeLockEta then s.timeLockEta[hash] else 0
  }

  function Owed(refunds: map<(Address, Asset), nat>, user: Address, asset: Asset): nat {
    if (user, asset) in refunds then refunds[(user, asset)] else 0
  }

  /** u64 addition wraps around: the release build has overflow checks off. */
  function MinimumEta(now: u64, delay: u64): u64 {
    if now + delay < 0x1_0000_0000_0000_0000 then now + delay else now + delay - 0x1_0000_0000_0000_0000
  }

  function StoredEta(cfg: Config, now: u64, requested: u64): u64 {
    if requested < MinimumEta(now, cfg.minimumDelay) then MinimumEta(now, cfg.minimumDelay) else requested
  }

  function WithoutTimeLock(s: GovState, hash: Hash): GovState {
    s.(timeLockEta := s.timeLockEta - {hash}, timeLockSubmitted := s.timeLockSubmitted - {hash})
  }

  function WithoutOperator(s: GovState, hash: Hash): GovState {
    s.(operatorApprovals := s.operatorApprovals - {hash}, operatorSubmitted := s.operatorSubmitted - {hash})
  }

  /** The effect of a command that the gateway validated; `None` when the endpoint fails. */
  function Commanded(cfg: Config, s: GovState, now: u64, p: ExecutePayload): Option<GovState> {
    var hash := p.proposal.Hash();
    if p.proposal.target == ZERO_ADDRESS then None
    else
      match p.command
      case ScheduleTimeLockProposal =>
        if hash in s.timeLockSubmitted || hash in s.timeLockExecuting then None
        else Some(s.(timeLockEta := s.timeLockEta[hash := StoredEta(cfg, now, p.eta)],
                     timeLockSubmitted := s.timeLockSubmitted + {hash}))
      case CancelTimeLockProposal => Some(WithoutTimeLock(s, hash))
      case ApproveOperatorProposal =>
        if hash in s.operatorSubmitted || hash in s.operatorExecuting then None
        else Some(s.(operatorApprovals := s.operatorApprovals + {hash},
                     operatorSubmitted := s.operatorSubmitted + {hash}))
      case CancelOperatorApproval => Some(WithoutOperator(s, hash))
  }

  // ---------- commands from the gateway ----------

  function CommandCode(command: Command): byte {
    match command
    case ScheduleTimeLockProposal => 0
    case CancelTimeLockProposal => 1
    case ApproveOperatorProposal => 2
    case CancelOperatorApproval => 3
  }

  function CommandOf(code: byte): (r: Option<Command>)
    ensures r.Some? <==> code <= 3
    ensures r.Some? ==> CommandCode(r.value) == code
  {
    if code == 0 then Some(ScheduleTimeLockProposal)
    else if code == 1 then Some(CancelTimeLockProposal)
    else if code == 2 then Some(ApproveOperatorProposal)
    else if code == 3 then Some(CancelOperatorApproval)
    else None
  }

  function EncodePayload(p: ExecutePayload): Buffer {
    Raw([CommandCode(p.command)])
    + (Raw(p.proposal.target) + (NestedBytes(p.proposal.callData) + (NestedBig(p.proposal.nativeValue) + Raw(Be(p.eta, 8)))))
  }

  function DecodePayload(b: Buffer): Option<ExecutePayload> {
    match ReadBytes(b, 1)
    case None => None
    case Some(code) =>
      match ReadBytes(code.rest, 32)
      case None => None
      case Some(target) =>
        match ReadNested(target.rest)
        case None => None
        case Some(callData) =>
          match ReadBig(callData.rest)
          case None => None
          case Some(nativeValue) =>
            match ReadBytes(nativeValue.rest, 8)
            case None => None
            case Some(eta) =>
              U64OfBytes(eta.value);
              if CommandOf(code.value[0]).None? || eta.rest != [] then None
              else Some(ExecutePayload(CommandOf(code.value[0]).value,
                                       Proposal(target.value, callData.value, nativeValue.value), FromBe(eta.value)))
  }

  lemma {:induction false} U64OfBytes(x: bytes)
    requires |x| == 8
    ensures FromBe(x) < U64_RANGE
  {
    BeFromBe(x);
    Pow256Small();
  }

  /** A command sent in the declared form is the command carried out. */
  lemma PayloadDecodes(p: ExecutePayload)
    ensures DecodePayload(EncodePayload(p)) == Some(p)
  {
    hide ReadBytes, ReadNested, ReadBig, NestedBytes, NestedBig, Raw;
    var r1 := Raw(Be(p.eta, 8));
    var r2 := NestedBig(p.proposal.nativeValue) + r1;
    var r3 := NestedBytes(p.proposal.callData) + r2;
    var r4 := Raw(p.proposal.target) + r3;
    ReadBytesBack([CommandCode(p.command)], r4);
    ReadBytesBack(p.proposal.target, r3);
    ReadNestedBack(p.proposal.callData, r2);
    ReadBigBack(p.proposal.nativeValue, r1);
    ReadBytesBack(Be(p.eta, 8), []);
    assert r1 + [] == r1;
    Pow256Small();
    FromBeBe(p.eta, 8);
  }

  /** The gateway's messages and the storage after a message from the governance chain. */
  function ExecutedCommand(cfg: Config, messages: map<CrossChainId, GW.MessageState>, s: GovState, now: u64,
                    sourceChain: ManagedBuffer, messageId: ManagedBuffer, sourceAddress: ManagedBuffer, payload: Buffer)
    : Option<(map<CrossChainId, GW.MessageState>, GovState)>
  {
    var id := CrossChainId(sourceChain, messageId);
    if sourceChain != cfg.governanceChain || sourceAddress != cfg.governanceAddress then None
    else if GW.StateOf(messages, id)
            != GW.Approved(MessageHash(id, sourceAddress, cfg.contract, Keccak256(payload))) then None
    else
      match DecodePayload(payload)
      case None => None
      case Some(p) =>
        match Commanded(cfg, s, now, p)
        case None => None
        case Some(t) => Some((messages[id := GW.MessageState.Executed], t))
  }

  // ---------- launches and callbacks ----------

  /** `resources`: the call data decodes, and gas and balance suffice for the promise. */
  predicate CanLaunch(s: GovState, now: u64, path: Path, caller: Address, hash: Hash, resources: bool) {
    && resources
    && hash in Submitted(s, path)
    && hash !in Executing(s, path)
    && (path.TimeLock? ==> now >= EtaOf(s, hash))
    && (path.Operator? ==> caller == s.operator && hash in s.operatorApprovals)
  }

  function Launched(s: GovState, path: Path, hash: Hash): GovState {
    if path.TimeLock? then s.(timeLockExecuting := s.timeLockExecuting + {hash})
    else s.(operatorExecuting := s.operatorExecuting + {hash})
  }

  function AddRefund(refunds: map<(Address, Asset), nat>, user: Address, asset: Asset, amount: nat)
    : map<(Address, Asset), nat>
  {
    refunds[(user, asset) := Owed(refunds, user, asset) + amount]
  }

  function AssetOf(p: EsdtPayment): Asset { Asset(Esdt(p.identifier), p.nonce) }

  function AddRefunds(refunds: map<(Address, Asset), nat>, user: Address, list: seq<EsdtPayment>, n: nat)
    : map<(Address, Asset), nat>
    requires n <= |list|
  {
    if n == 0 then refunds
    else AddRefund(AddRefunds(refunds, user, list, n - 1), user, AssetOf(list[n - 1]), list[n - 1].amount)
  }

  function Refunded(refunds: map<(Address, Asset), nat>, user: Address, payments: Payments): map<(Address, Asset), nat> {
    match payments
    case EgldPayment(value) => AddRefund(refunds, user, Asset(Egld, 0), value)
    case EsdtPayments(list) => AddRefunds(refunds, user, list, |list|)
  }

  function CalledBack(s: GovState, p: Promise, success: bool): GovState {
    var s1 := if p.path.TimeLock? then s.(timeLockExecuting := s.timeLockExecuting - {p.hash})
              else s.(operatorExecuting := s.operatorExecuting - {p.hash});
    if !success then s1.(refunds := Refunded(s.refunds, p.caller, p.payments))
    else if p.path.TimeLock? then WithoutTimeLock(s1, p.hash)
    else WithoutOperator(s1, p.hash)
  }
}

module GovernanceContract {
  import opened ByteStrings
  import opened Keccak
  import opened Preimages
  import opened ChainTypes
  import opened GatewaySpec
  import opened GatewayContract
  import opened GovernanceSpec

  class Governance {
    const cfg: GovernanceSpec.Config
    const gateway: Gateway
    var timeLockSubmitted: set<Hash>
    var timeLockExecuting: set<Hash>
    var timeLockEta: map<Hash, u64>
    var operatorApprovals: set<Hash>
    var operatorSubmitted: set<Hash>
    var operatorExecuting: set<Hash>
    var refunds: map<(Address, Asset), nat>
    var operator: Address

    function Storage(): GovState
      reads this
    {
      GovState(timeLockSubmitted, timeLockExecuting, timeLockEta, operatorApprovals, operatorSubmitted,
               operatorExecuting, refunds, operator)
    }

    constructor (cfg: GovernanceSpec.Config, gateway: Gateway, operator: Address)
      ensures Storage() == GovState({}, {}, map[], {}, {}, {}, map[], operator)
      ensures this.cfg == cfg && this.gateway == gateway
    {
      this.cfg, this.gateway, this.operator := cfg, gateway, operator;
      timeLockSubmitted, timeLockExecuting, timeLockEta := {}, {}, map[];
      operatorApprovals, operatorSubmitted, operatorExecuting, refunds := {}, {}, {}, map[];
    }

    /** A message from the governance chain. The gateway is asked first; if the command then fails, the message is
        approved again. */
    method Execute(now: u64, sourceChain: ManagedBuffer, messageId: ManagedBuffer, sourceAddress: ManagedBuffer,
                   payload: Buffer) returns (ok: bool)
      requires gateway.Valid()
      modifies this, gateway
      ensures gateway.Valid()
      ensures var before := old(gateway.Storage());
        var r := ExecutedCommand(cfg, before.messages, old(Storage()), now, sourceChain, messageId, sourceAddress, payload);
        && (ok <==> r.Some?)
        && Storage() == (if ok then r.value.1 else old(Storage()))
        && gateway.Storage() == if ok then before.(messages := r.value.0) else before
    {
      hide MessageHash, DecodePayload, ProposalHash, RegistryOk;
      if sourceChain != cfg.governanceChain || sourceAddress != cfg.governanceAddress { return false; }
      var before := gateway.Storage();
      var valid := gateway.ValidateMessage(now, cfg.contract, CrossChainId(sourceChain, messageId), sourceAddress,
                                           Keccak256(payload));
      if valid != Done(true) { return false; }
      var command := DecodePayload(payload);
      ok := command.Some? && command.value.proposal.target != ZERO_ADDRESS;
      if ok { ok := ProcessCommand(now, command.value); }
      if !ok { gateway.Restore(before); }
    }

    method ProcessCommand(now: u64, p: ExecutePayload) returns (ok: bool)
      requires p.proposal.target != ZERO_ADDRESS
      modifies this
      ensures ok <==> Commanded(cfg, old(Storage()), now, p).Some?
      ensures Storage() == if ok then Commanded(cfg, old(Storage()), now, p).value else old(Storage())
    {
      hide ProposalHash;
      var hash := p.proposal.Hash();
      match p.command {
        case ScheduleTimeLockProposal =>
          ok := ScheduleTimeLock(now, hash, p.eta);
        case CancelTimeLockProposal =>
          RemoveProposalTimeLock(hash);
          ok := true;
        case ApproveOperatorProposal =>
          ok := ApproveOperator(hash);
        case CancelOperatorApproval =>
          RemoveProposalOperator(hash);
          ok := true;
      }
    }

    method ScheduleTimeLock(now: u64, hash: Hash, requested: u64) returns (ok: bool)
      modifies this`timeLockEta, this`timeLockSubmitted
      ensures ok <==> hash !in old(timeLockSubmitted) && hash !in timeLockExecuting
      ensures ok ==> timeLockEta == old(timeLockEta)[hash := StoredEta(cfg, now, requested)]
                     && timeLockSubmitted == old(timeLockSubmitted) + {hash}
      ensures !ok ==> Storage() == old(Storage())
    {
      if hash in timeLockSubmitted || hash in timeLockExecuting { return false; }
      var eta := requested;
      var minimumEta := MinimumEta(now, cfg.minimumDelay);
      if eta < minimumEta {
        eta := minimumEta;
      }
      timeLockEta := timeLockEta[hash := eta];
      timeLockSubmitted := timeLockSubmitted + {hash};
      return true;
    }

    method ApproveOperator(hash: Hash) returns (ok: bool)
      modifies this`operatorApprovals, this`operatorSubmitted
      ensures ok <==> hash !in old(operatorSubmitted) && hash !in operatorExecuting
      ensures ok ==> operatorApprovals == old(operatorApprovals) + {hash}
                     && operatorSubmitted == old(operatorSubmitted) + {hash}
      ensures !ok ==> Storage() == old(Storage())
    {
      if hash in operatorSubmitted || hash in operatorExecuting { return false; }
      operatorApprovals := operatorApprovals + {hash};
      operatorSubmitted := operatorSubmitted + {hash};
      return true;
    }

    method RemoveProposalTimeLock(hash: Hash)
      modifies this`timeLockEta, this`timeLockSubmitted
      ensures Storage() == WithoutTimeLock(old(Storage()), hash)
    {
      timeLockEta := timeLockEta - {hash};
      timeLockSubmitted := timeLockSubmitted - {hash};
    }

    method RemoveProposalOperator(hash: Hash)
      modifies this`operatorApprovals, this`operatorSubmitted
      ensures Storage() == WithoutOperator(old(Storage()), hash)
    {
      operatorApprovals := operatorApprovals - {hash};
      operatorSubmitted := operatorSubmitted - {hash};
    }

    method ExecuteProposal(now: u64, caller: Address, p: Proposal, payments: Payments, resources: bool)
      returns (promise: Option<Promise>)
      modifies this
      ensures promise == if CanLaunch(old(Storage()), now, TimeLock, caller, p.Hash(), resources)
                         then Some(Promise(TimeLock, p.Hash(), caller, payments)) else None
      ensures Storage() == if promise.Some? then Launched(old(Storage()), TimeLock, p.Hash()) else old(Storage())
    {
      var hash := p.Hash();
      if hash !in timeLockSubmitted || hash in timeLockExecuting { return None; }
      var eta := if hash in timeLockEta then timeLockEta[hash] else 0;
      if now < eta || !resources { return None; }
      timeLockExecuting := timeLockExecuting + {hash};
      promise := Some(Promise(TimeLock, hash, caller, payments));
    }

    method ExecuteOperatorProposal(now: u64, caller: Address, p: Proposal, payments: Payments, resources: bool)
      returns (promise: Option<Promise>)
      modifies this
      ensures promise == if CanLaunch(old(Storage()), now, Path.Operator, caller, p.Hash(), resources)
                         then Some(Promise(Path.Operator, p.Hash(), caller, payments)) else None
      ensures Storage() == if promise.Some? then Launched(old(Storage()), Path.Operator, p.Hash()) else old(Storage())
    {
      if caller != operator { return None; }
      var hash := p.Hash();
      if hash !in operatorSubmitted || hash in operatorExecuting || hash !in operatorApprovals { return None; }
      if !resources { return None; }
      operatorExecuting := operatorExecuting + {hash};
      promise := Some(Promise(Path.Operator, hash, operator, payments));
    }

    method ExecuteProposalCallback(p: Promise, success: bool)
      requires p.path.TimeLock?
      modifies this
      ensures Storage() == CalledBack(old(Storage()), p, success)
    {
      timeLockExecuting := timeLockExecuting - {p.hash};
      if success {
        RemoveProposalTimeLock(p.hash);
      } else {
        HandleCallbackFailure(p.caller, p.payments);
      }
    }

    method ExecuteOperatorProposalCallback(p: Promise, success: bool)
      requires p.path.Operator?
      modifies this
      ensures Storage() == CalledBack(old(Storage()), p, success)
    {
      operatorExecuting := operatorExecuting - {p.hash};
      if success {
        RemoveProposalOperator(p.hash);
      } else {
        HandleCallbackFailure(p.caller, p.payments);
      }
    }

    method HandleCallbackFailure(caller: Address, payments: Payments)
      modifies this`refunds
      ensures refunds == Refunded(old(refunds), caller, payments)
    {
      match payments {
        case EgldPayment(value) =>
          refunds := AddRefund(refunds, caller, Asset(Egld, 0), value);
        case EsdtPayments(list) =>
          for i := 0 to |list|
            invariant refunds == AddRefunds(old(refunds), caller, list, i)
          {
            refunds := AddRefund(refunds, caller, AssetOf(list[i]), list[i].amount);
          }
      }
    }

    /** `funded`: the contract holds enough to pay; otherwise the transfer fails and the entry stays. */
    method WithdrawRefundToken(caller: Address, asset: Asset, funded: bool) returns (paid: nat)
      modifies this`refunds
      ensures paid == if funded then Owed(old(refunds), caller, asset) else 0
      ensures refunds == if funded then old(refunds) - {(caller, asset)} else old(refunds)
    {
      if !funded { return 0; }
      paid := Owed(refunds, caller, asset);
      refunds := refunds - {(caller, asset)};
    }

    method TransferOperatorship(caller: Address, newOperator: Address) returns (ok: bool)
      modifies this`operator
      ensures ok <==> (caller == old(operator) || caller == cfg.contract) && newOperator != ZERO_ADDRESS
      ensures operator == if ok then newOperator else old(operator)
    {
      if (caller != operator && caller != cfg.contract) || newOperator == ZERO_ADDRESS { return false; }
      operator := newOperator;
      return true;
    }
  }
}
