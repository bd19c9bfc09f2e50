/** Token deployments ordered from another chain: one approved message, executed in two transactions. */
module DeployMessages {
  import opened ByteStrings
  import opened ChainTypes
  import opened Keccak
  import opened Preimages
  import opened Abi
  import opened Payloads
  import opened GatewaySpec
  import opened TokenServiceSpec
  import opened TokenManagerTypes
  import FactorySpec
  import TM = TokenManagerSpec
  import Roles

  /** The service's chain data and the managers it knows. */
  datatype Inbound = Inbound(chain: Chain, factory: FactorySpec.FactoryState)

  function Cfg(c: Chain): FactorySpec.Config { FactorySpec.Config(c.service, c.name) }

  function TokenIdOf(p: Payload): Hash
    requires p.DeployInterchainToken?
  {
    Raw(p.tokenId)
  }

  /** No minter is an empty field; anything but 32 bytes besides that is malformed. */
  function MinterOf(minter: bytes): Option<Option<Address>> {
    if minter == [] then Some(None) else if |minter| == 32 then Some(Some(minter)) else None
  }

  function IncomingDeploy(trusted: set<bytes>, payload: bytes): (r: Option<Payload>)
    ensures r.Some? ==> r.value.DeployInterchainToken?
  {
    match GetExecuteParams(trusted, payload)
    case None => None
    case Some(params) =>
      if params.0 != DEPLOY_INTERCHAIN_TOKEN then None
      else
        match AbiDecode(DeployKind, params.2)
        case None => None
        case Some(p) => if p.DeployInterchainToken? then Some(p) else None
  }

  /** The manager is deployed while the message is only looked at; issuing the token consumes it. */
  function ExecutedDeploy(w: Inbound, messageId: ManagedBuffer, sourceAddress: ManagedBuffer, payload: bytes, egld: nat,
                          address: Address): Option<Inbound>
  {
    var c := w.chain;
    var id := IdOf(messageId);
    if c.paused || sourceAddress != c.hubAddress || IncomingDeploy(c.trusted, payload).None?
       || StateOf(c.messages, id) != Approved(ApprovalHash(c, id, payload)) then None
    else
      var p := IncomingDeploy(c.trusted, payload).value;
      if MinterOf(p.minter).None? then None
      else if TokenIdOf(p) !in w.factory.managers then
        if egld != 0 then None
        else
          (match FactorySpec.DeployTokenManager(Cfg(c), w.factory, TokenIdOf(p), NativeInterchainToken, None,
                                                MinterOf(p.minter).value, address)
           case None => None
           case Some(f) => Some(w.(factory := f)))
      else
        match FactorySpec.WithManager(w.factory, TokenIdOf(p), TM.Apply(w.factory.managers[TokenIdOf(p)].tm, 0, c.service,
                TM.DeployInterchainToken(MinterOf(p.minter).value, p.name != [] && p.symbol != [], egld)))
        case None => None
        case Some(f) => Some(Inbound(c.(messages := c.messages[id := MessageState.Executed]), f))
  }

  function IdOf(messageId: ManagedBuffer): CrossChainId { CrossChainId(ITS_HUB_CHAIN_NAME, messageId) }

  predicate IsApproved(c: Chain, messageId: ManagedBuffer, payload: bytes) {
    var id := IdOf(messageId);
    StateOf(c.messages, id) == Approved(ApprovalHash(c, id, payload))
  }

  /** What the sender's payload must fulfil for the two transactions. */
  predicate ProperDeploy(p: Payload)
    requires p.DeployInterchainToken?
  {
    MinterOf(p.minter).Some? && p.name != [] && p.symbol != []
  }
}

/** A deploy message among everything else that can happen at the gateway, the factory and the managers. */
module DeployMessageRuns {
  import opened ByteStrings
  import opened ChainTypes
  import opened Keccak
  import opened Preimages
  import opened Signatures
  import opened Abi
  import opened Payloads
  import opened GatewaySpec
  import GatewayRuns
  import opened TokenServiceSpec
  import opened TokenManagerTypes
  import opened DeployMessages
  import FactorySpec
  import FactoryRuns
  import TM = TokenManagerSpec
  import FlowLimit
  import Roles

  /** `base` holds the constants and the trusted chains; messages and pause flag are those of the two contracts. */
  datatype World = World(base: Chain, gateway: GatewayState, factory: FactorySpec.FactoryState)

  function View(w: World): Inbound {
    Inbound(w.base.(messages := w.gateway.messages, paused := w.factory.paused), w.factory)
  }

  /** The service validates deploy messages by `Order`, all others by `Other`. */
  datatype Event =
    | CallGateway(tx: GatewaySpec.Tx)
    | CallFactory(call: FactorySpec.Call)
    | Order(messageId: ManagedBuffer, sourceAddress: ManagedBuffer, payload: bytes, egld: nat, address: Address)
    | Other(messageId: ManagedBuffer, payload: bytes)
    | SetTrusted(trusted: set<bytes>)

  /** Transfer and link messages. */
  predicate OtherMessage(c: Chain, messageId: ManagedBuffer, payload: bytes) {
    IsApproved(c, messageId, payload) && GetExecuteParams(c.trusted, payload).Some?
    && GetExecuteParams(c.trusted, payload).value.0 != DEPLOY_INTERCHAIN_TOKEN
  }

  ghost function Next(cfg: Config, verify: Verifier, w: World, e: Event): World {
    match e
    case CallGateway(tx) =>
      if tx.call.Validate? && tx.call.caller == w.base.service then w
      else w.(gateway := Step(cfg, verify, w.gateway, tx).0)
    case CallFactory(call) =>
      if call.DeployMessage? then w else w.(factory := FactorySpec.Step(Cfg(w.base), w.factory, call))
    case Order(messageId, sourceAddress, payload, egld, address) =>
      (match ExecutedDeploy(View(w), messageId, sourceAddress, payload, egld, address)
       case None => w
       case Some(v) => w.(gateway := w.gateway.(messages := v.chain.messages), factory := v.factory))
    case Other(messageId, payload) =>
      if !OtherMessage(View(w).chain, messageId, payload) then w
      else w.(gateway := w.gateway.(messages := w.gateway.messages[IdOf(messageId) := MessageState.Executed]))
    case SetTrusted(trusted) => w.(base := w.base.(trusted := trusted))
  }

  ghost function After(cfg: Config, verify: Verifier, w: World, events: seq<Event>, n: nat): World
    requires n <= |events|
    decreases n
  {
    if n == 0 then w else Next(cfg, verify, After(cfg, verify, w, events, n - 1), events[n - 1])
  }

  // ---------- each message issues at most once ----------

  /** The step carries out the message with this id and asks the manager to issue. */
  predicate Issues(w: World, e: Event, messageId: ManagedBuffer) {
    && e.Order? && e.messageId == messageId
    && ExecutedDeploy(View(w), messageId, e.sourceAddress, e.payload, e.egld, e.address).Some?
    && TokenIdOf(IncomingDeploy(w.base.trusted, e.payload).value) in w.factory.managers
  }

  ghost function IssueCount(cfg: Config, verify: Verifier, w: World, events: seq<Event>, n: nat, messageId: ManagedBuffer): nat
    requires n <= |events|
    decreases n
  {
    if n == 0 then 0
    else IssueCount(cfg, verify, w, events, n - 1, messageId)
         + if Issues(After(cfg, verify, w, events, n - 1), events[n - 1], messageId) then 1 else 0
  }

  function StateNow(w: World, messageId: ManagedBuffer): MessageState { StateOf(w.gateway.messages, IdOf(messageId)) }

  /** What one execution does to the messages. */
  lemma OrderMarks(w: World, e: Event, messageId: ManagedBuffer)
    requires e.Order? && ExecutedDeploy(View(w), e.messageId, e.sourceAddress, e.payload, e.egld, e.address).Some?
    ensures IsApproved(View(w).chain, e.messageId, e.payload) && IncomingDeploy(w.base.trusted, e.payload).Some?
    ensures var v := ExecutedDeploy(View(w), e.messageId, e.sourceAddress, e.payload, e.egld, e.address).value;
      StateOf(v.chain.messages, IdOf(messageId))
      == if Issues(w, e, messageId) then MessageState.Executed else StateNow(w, messageId)
  {
    hide MessageHash, IncomingDeploy, TM.Apply, TM.Init;
  }

  lemma MessageStep(cfg: Config, verify: Verifier, w: World, e: Event, messageId: ManagedBuffer)
    ensures Issues(w, e, messageId) ==>
      StateNow(w, messageId).Approved? && StateNow(Next(cfg, verify, w, e), messageId).Executed?
    ensures StateNow(w, messageId).Executed? ==> StateNow(Next(cfg, verify, w, e), messageId).Executed?
  {
    hide Step, ExecutedDeploy, IncomingDeploy, MessageHash, GetExecuteParams, FactorySpec.Apply;
    if e.CallGateway? {
      GatewayRuns.StepForward(cfg, verify, w.gateway, e.tx, IdOf(messageId));
    } else if e.Order? && ExecutedDeploy(View(w), e.messageId, e.sourceAddress, e.payload, e.egld, e.address).Some? {
      OrderMarks(w, e, messageId);
    }
  }

  /** In every run a deploy message issues at most once. */
  lemma {:induction false} IssuedAtMostOnce(cfg: Config, verify: Verifier, w: World, events: seq<Event>, n: nat, messageId: ManagedBuffer)
    requires n <= |events|
    ensures IssueCount(cfg, verify, w, events, n, messageId)
      <= if StateNow(After(cfg, verify, w, events, n), messageId).Executed? then 1 else 0
    decreases n
  {
    hide Next, Issues, StateNow;
    if n > 0 {
      IssuedAtMostOnce(cfg, verify, w, events, n - 1, messageId);
      MessageStep(cfg, verify, After(cfg, verify, w, events, n - 1), events[n - 1], messageId);
    }
  }

  // ---------- and is consumed exactly when it issues ----------

  /** The bytes are a deploy message, from whatever chain. */
  ghost predicate IsDeploy(payload: bytes) {
    exists trusted :: IncomingDeploy(trusted, payload).Some?
  }

  lemma DeployIsNoOther(trusted: set<bytes>, payload: bytes)
    requires IsDeploy(payload) && GetExecuteParams(trusted, payload).Some?
    ensures GetExecuteParams(trusted, payload).value.0 == DEPLOY_INTERCHAIN_TOKEN
  {
    hide AbiDecode, GetMessageType;
    var t :| IncomingDeploy(t, payload).Some?;
    assert GetExecuteParams(t, payload).Some?;
  }

  /** Two payloads approved under one id are one payload. */
  lemma OnePayload(c: Chain, messageId: ManagedBuffer, p: bytes, q: bytes)
    requires IsApproved(c, messageId, p) && IsApproved(c, messageId, q)
    ensures p == q
  {
    hide MessageHash;
    var id := IdOf(messageId);
    MessageHashInjective(id, c.hubAddress, c.service, Keccak256(Raw(p)), id, c.hubAddress, c.service, Keccak256(Raw(q)));
    SameDigest(Raw(p), Raw(q));
    RawInjective(p, q);
  }

  lemma GatewayCallKeepsApproval(cfg: Config, verify: Verifier, s: GatewayState, tx: GatewaySpec.Tx, c: Chain,
                                 id: CrossChainId, payload: bytes)
    requires StateOf(s.messages, id) == Approved(ApprovalHash(c, id, payload))
    requires !(tx.call.Validate? && tx.call.caller == c.service)
    ensures StateOf(Step(cfg, verify, s, tx).0.messages, id) == StateOf(s.messages, id)
  {
    if tx.call.Validate? {
      if tx.call.id == id && Approved(ApprovalHash(c, id, payload))
           == Approved(MessageHash(id, tx.call.sourceAddress, tx.call.caller, tx.call.payloadHash)) {
        MessageHashInjective(id, c.hubAddress, c.service, Keccak256(Raw(payload)),
                             id, tx.call.sourceAddress, tx.call.caller, tx.call.payloadHash);
      }
    } else {
      GatewayRuns.StepForward(cfg, verify, s, tx, id);
      GatewayRuns.OnlyValidateExecutes(cfg, verify, s, tx, id);
    }
  }

  /** An approved deploy message stays approved until the step that issues for it. */
  lemma ApprovalStep(cfg: Config, verify: Verifier, w: World, e: Event, messageId: ManagedBuffer, payload: bytes)
    requires IsApproved(View(w).chain, messageId, payload) && IsDeploy(payload)
    ensures if Issues(w, e, messageId) then StateNow(Next(cfg, verify, w, e), messageId).Executed?
            else IsApproved(View(Next(cfg, verify, w, e)).chain, messageId, payload)
  {
    hide Step, ExecutedDeploy, IncomingDeploy, MessageHash, GetExecuteParams, FactorySpec.Apply, IsDeploy;
    if e.CallGateway? {
      if !(e.tx.call.Validate? && e.tx.call.caller == w.base.service) {
        GatewayCallKeepsApproval(cfg, verify, w.gateway, e.tx, View(w).chain, IdOf(messageId), payload);
      }
    } else if e.Order? {
      if ExecutedDeploy(View(w), e.messageId, e.sourceAddress, e.payload, e.egld, e.address).Some? {
        OrderMarks(w, e, messageId);
      }
    } else if e.Other? && OtherMessage(View(w).chain, e.messageId, e.payload) && e.messageId == messageId {
      OnePayload(View(w).chain, messageId, payload, e.payload);
      DeployIsNoOther(w.base.trusted, payload);
    }
  }

  /** From the moment it is approved, a deploy message is executed at any later time exactly if it has issued since;
      until then it stays approved, whatever else is called. */
  lemma {:induction false} ConsumedExactlyWhenIssued(cfg: Config, verify: Verifier, w: World, events: seq<Event>, n: nat,
                                                     messageId: ManagedBuffer, payload: bytes)
    requires n <= |events| && IsApproved(View(w).chain, messageId, payload) && IsDeploy(payload)
    ensures if IssueCount(cfg, verify, w, events, n, messageId) == 1
            then StateNow(After(cfg, verify, w, events, n), messageId).Executed?
            else IsApproved(View(After(cfg, verify, w, events, n)).chain, messageId, payload)
    decreases n
  {
    hide Next, Issues, StateNow, IsApproved, View, IsDeploy;
    if n > 0 {
      ConsumedExactlyWhenIssued(cfg, verify, w, events, n - 1, messageId, payload);
      var u := After(cfg, verify, w, events, n - 1);
      IssuedAtMostOnce(cfg, verify, w, events, n - 1, messageId);
      IssuedAtMostOnce(cfg, verify, w, events, n, messageId);
      MessageStep(cfg, verify, u, events[n - 1], messageId);
      if IssueCount(cfg, verify, w, events, n - 1, messageId) == 0 {
        ApprovalStep(cfg, verify, u, events[n - 1], messageId, payload);
      }
    }
  }

  // ---------- the two transactions, with anything in between ----------

  /** Deployed and not asked to issue: nobody is minter, so only the service can ask. */
  ghost predicate Waiting(own: Address, tm: TM.TmState) {
    && tm.kind.NativeInterchainToken? && tm.service == own && tm.identifier.None? && tm.minter.None? && tm.issuing == 0
    && tm.supply == 0
    && (forall who :: !TM.Has(tm, who, Roles.MINTER))
  }

  lemma NewIsWaiting(own: Address, operator: Option<Address>)
    requires own != ZERO_ADDRESS
    ensures TM.Init(own, NativeInterchainToken, operator, None).Some?
    ensures Waiting(own, TM.Init(own, NativeInterchainToken, operator, None).value)
    ensures var tm := TM.Init(own, NativeInterchainToken, operator, None).value;
      var first := if operator.Some? then operator.value else ZERO_ADDRESS;
      forall who :: TM.Has(tm, who, Roles.OPERATOR) <==> who in {first, own}
  {
  }

  /** Nothing anybody but the service calls ends the waiting. */
  lemma StaysWaiting(own: Address, tm: TM.TmState, now: nat, caller: Address, call: TM.Call)
    requires Waiting(own, tm) && !(caller == own && call.DeployInterchainToken?)
    ensures Waiting(own, TM.Step(tm, now, caller, call))
  {
    hide FlowLimit.AddFlowIn, FlowLimit.AddFlowOut, TM.Debit, TM.Credit;
    var t := TM.Step(tm, now, caller, call);
    assert !TM.Has(tm, caller, Roles.MINTER);
    assert call.AcceptMintership? ==> !TM.Has(tm, call.fromMinter, Roles.MINTER);
    assert call.AcceptMintership? ==> Roles.MINTER !in Roles.RolesOf(tm.accounts, call.fromMinter);
    forall who ensures !TM.Has(t, who, Roles.MINTER) {
      assert !TM.Has(tm, who, Roles.MINTER);
    }
  }

  /** When the service asks a waiting manager to issue, that works exactly with a proper name and the issue cost, and
      the minter is the one named. */
  lemma WaitingIssues(own: Address, tm: TM.TmState, minter: Option<Address>, named: bool, egld: nat)
    requires Waiting(own, tm)
    ensures var r := TM.Apply(tm, 0, own, TM.DeployInterchainToken(minter, named, egld));
      var first := if minter.Some? then minter.value else ZERO_ADDRESS;
      && (r.Some? <==> named && egld == TM.ISSUE_COST)
      && (r.Some? ==>
            && r.value.issuing == 1 && r.value.minter == Some(first) && r.value.identifier.None? && r.value.supply == 0
            && (forall who :: TM.Has(r.value, who, Roles.MINTER) <==> who == first)
            && (forall who :: TM.Has(r.value, who, Roles.OPERATOR) <==> TM.Has(tm, who, Roles.OPERATOR)))
  {
    var r := TM.Apply(tm, 0, own, TM.DeployInterchainToken(minter, named, egld));
    var first := if minter.Some? then minter.value else ZERO_ADDRESS;
    if r.Some? {
      forall who ensures TM.Has(r.value, who, Roles.MINTER) <==> who == first {
        assert !TM.Has(tm, who, Roles.MINTER);
      }
      assert forall who :: TM.Has(r.value, who, Roles.OPERATOR) <==> TM.Has(tm, who, Roles.OPERATOR);
    }
  }

  /** No other call asks this token's manager to issue. */
  ghost predicate Quiet(c: Chain, events: seq<Event>, token: Hash) {
    forall e :: e in events ==>
      && (e.CallFactory? && e.call.Deploy? ==> FactorySpec.InterchainTokenId(Cfg(c), e.call.sender, e.call.salt) != token)
      && (e.Order? ==> forall trusted :: IncomingDeploy(trusted, e.payload).Some? ==>
            TokenIdOf(IncomingDeploy(trusted, e.payload).value) != token)
  }

  ghost predicate Ready(w: World, token: Hash, address: Address) {
    token in w.factory.managers && w.factory.managers[token].address == address
    && Waiting(w.base.service, w.factory.managers[token].tm)
  }

  predicate SameBase(c: Chain, d: Chain) { d.service == c.service && d.name == c.name && d.hubAddress == c.hubAddress }

  lemma FactoryCallReady(cfg: FactorySpec.Config, f: FactorySpec.FactoryState, call: FactorySpec.Call, token: Hash)
    requires token in f.managers && Waiting(cfg.own, f.managers[token].tm) && !call.DeployMessage?
    requires call.Deploy? ==> FactorySpec.InterchainTokenId(cfg, call.sender, call.salt) != token
    ensures var g := FactorySpec.Step(cfg, f, call);
      token in g.managers && g.managers[token].address == f.managers[token].address && Waiting(cfg.own, g.managers[token].tm)
  {
    hide FactorySpec.Apply, Waiting, TM.Apply;
    if call.CallManager? && call.id == token {
      ManagerCallIs(cfg, f, call);
      if FactorySpec.CallPossible(cfg, call.caller, call.call) {
        StaysWaiting(cfg.own, f.managers[token].tm, call.now, call.caller, call.call);
      }
    } else {
      FactoryRuns.ManagerElsewhere(cfg, f, call, token);
    }
  }

  lemma ManagerCallIs(cfg: FactorySpec.Config, f: FactorySpec.FactoryState, call: FactorySpec.Call)
    requires call.CallManager? && call.id in f.managers
    ensures FactorySpec.Step(cfg, f, call) ==
      if FactorySpec.CallPossible(cfg, call.caller, call.call)
      then f.(managers := f.managers[call.id := f.managers[call.id].(tm := TM.Step(f.managers[call.id].tm, call.now, call.caller, call.call))])
      else f
  {
    hide TM.Apply;
    assert f.managers[call.id := f.managers[call.id]] == f.managers;
  }

  lemma OrderElsewhere(w: World, e: Event, token: Hash)
    requires e.Order? && ExecutedDeploy(View(w), e.messageId, e.sourceAddress, e.payload, e.egld, e.address).Some?
    requires token in w.factory.managers && TokenIdOf(IncomingDeploy(w.base.trusted, e.payload).value) != token
    ensures var f := ExecutedDeploy(View(w), e.messageId, e.sourceAddress, e.payload, e.egld, e.address).value.factory;
      token in f.managers && f.managers[token] == w.factory.managers[token]
  {
    hide MessageHash, IncomingDeploy, TM.Apply, TM.Init, StateOf;
  }

  lemma ReadyStep(cfg: Config, verify: Verifier, w: World, e: Event, token: Hash, address: Address)
    requires Ready(w, token, address) && Quiet(w.base, [e], token)
    ensures Ready(Next(cfg, verify, w, e), token, address) && SameBase(w.base, Next(cfg, verify, w, e).base)
  {
    hide Step, ExecutedDeploy, IncomingDeploy, MessageHash, GetExecuteParams, FactorySpec.Step, Waiting, OtherMessage,
      FactorySpec.InterchainTokenId;
    assert e in [e];
    if e.CallFactory? && !e.call.DeployMessage? {
      FactoryCallReady(Cfg(w.base), w.factory, e.call, token);
    } else if e.Order? && ExecutedDeploy(View(w), e.messageId, e.sourceAddress, e.payload, e.egld, e.address).Some? {
      OrderMarks(w, e, e.messageId);
      OrderElsewhere(w, e, token);
    }
  }

  lemma {:induction false} StaysReady(cfg: Config, verify: Verifier, w: World, events: seq<Event>, n: nat, token: Hash, address: Address)
    requires n <= |events| && Ready(w, token, address) && Quiet(w.base, events, token)
    ensures var v := After(cfg, verify, w, events, n); Ready(v, token, address) && SameBase(w.base, v.base)
    decreases n
  {
    hide Next, Ready, IncomingDeploy, FactorySpec.InterchainTokenId;
    if n > 0 {
      StaysReady(cfg, verify, w, events, n - 1, token, address);
      assert events[n - 1] in events;
      ReadyStep(cfg, verify, After(cfg, verify, w, events, n - 1), events[n - 1], token, address);
    }
  }

  /** What a payload orders does not depend on which chains are trusted. */
  lemma SameOrder(t: set<bytes>, u: set<bytes>, payload: bytes)
    requires IncomingDeploy(t, payload).Some? && IncomingDeploy(u, payload).Some?
    ensures IncomingDeploy(t, payload) == IncomingDeploy(u, payload)
  {
    hide AbiDecode, GetMessageType;
  }

  /** The first execution deploys the manager, with the ordered minter and the service as operators, and leaves the
      message as it is. */
  lemma FirstOrder(w: World, messageId: ManagedBuffer, payload: bytes, address: Address)
    requires w.base.service != ZERO_ADDRESS && address != ZERO_ADDRESS && !w.factory.paused
    requires IsApproved(View(w).chain, messageId, payload) && IncomingDeploy(w.base.trusted, payload).Some?
    requires var p := IncomingDeploy(w.base.trusted, payload).value;
      MinterOf(p.minter).Some? && TokenIdOf(p) !in w.factory.managers
    ensures var r := ExecutedDeploy(View(w), messageId, w.base.hubAddress, payload, 0, address);
      var p := IncomingDeploy(w.base.trusted, payload).value;
      var token := TokenIdOf(p);
      && r.Some? && r.value.chain == View(w).chain && token in r.value.factory.managers
      && r.value.factory.managers[token].address == address
      && Waiting(w.base.service, r.value.factory.managers[token].tm)
      && r.value.factory.paused == w.factory.paused
      && var minter := if p.minter == [] then ZERO_ADDRESS else MinterOf(p.minter).value.value;
         (forall who :: TM.Has(r.value.factory.managers[token].tm, who, Roles.OPERATOR) <==> who in {minter, w.base.service})
  {
    hide MessageHash, IncomingDeploy, TM.Init, Waiting, StateOf;
    NewIsWaiting(w.base.service, MinterOf(IncomingDeploy(w.base.trusted, payload).value.minter).value);
  }

  /** The second execution succeeds exactly with a proper name and the issue cost. */
  lemma SecondOrder(w: World, messageId: ManagedBuffer, payload: bytes, egld: nat, address: Address, any: Address)
    requires !w.factory.paused && IsApproved(View(w).chain, messageId, payload) && IncomingDeploy(w.base.trusted, payload).Some?
    requires MinterOf(IncomingDeploy(w.base.trusted, payload).value.minter).Some?
    requires Ready(w, TokenIdOf(IncomingDeploy(w.base.trusted, payload).value), address)
    ensures var p := IncomingDeploy(w.base.trusted, payload).value;
      var r := ExecutedDeploy(View(w), messageId, w.base.hubAddress, payload, egld, any);
      var minter := if p.minter == [] then ZERO_ADDRESS else MinterOf(p.minter).value.value;
      && (r.Some? <==> p.name != [] && p.symbol != [] && egld == TM.ISSUE_COST)
      && (r.Some? ==>
            && TokenIdOf(p) in r.value.factory.managers && r.value.factory.managers[TokenIdOf(p)].address == address
            && var tm := r.value.factory.managers[TokenIdOf(p)].tm;
               tm.issuing == 1 && tm.minter == Some(minter) && tm.identifier.None? && tm.supply == 0
               && (forall who :: TM.Has(tm, who, Roles.MINTER) <==> who == minter))
  {
    hide MessageHash, IncomingDeploy, TM.Apply, Waiting, StateOf, TM.Has;
    var p := IncomingDeploy(w.base.trusted, payload).value;
    WaitingIssues(w.base.service, w.factory.managers[TokenIdOf(p)].tm, MinterOf(p.minter).value, p.name != [] && p.symbol != [], egld);
  }

  /** One approved message executed twice deploys the manager and then issues, with anything else in between that does
      not order the same token: the second execution works exactly with a proper name and the issue cost attached, and
      makes exactly the ordered minter the minter. */
  lemma {:induction false} OrderCompletes(cfg: Config, verify: Verifier, w: World, messageId: ManagedBuffer, payload: bytes,
                                          address: Address, events: seq<Event>, n: nat, egld: nat, any: Address)
    requires w.base.service != ZERO_ADDRESS && address != ZERO_ADDRESS && !w.factory.paused && n <= |events|
    requires IsApproved(View(w).chain, messageId, payload) && IncomingDeploy(w.base.trusted, payload).Some?
    requires var p := IncomingDeploy(w.base.trusted, payload).value;
      MinterOf(p.minter).Some? && TokenIdOf(p) !in w.factory.managers && Quiet(w.base, events, TokenIdOf(p))
    requires var between := After(cfg, verify, Next(cfg, verify, w, Order(messageId, w.base.hubAddress, payload, 0, address)), events, n);
      !between.factory.paused && IncomingDeploy(between.base.trusted, payload).Some?
    ensures var p := IncomingDeploy(w.base.trusted, payload).value;
      var between := After(cfg, verify, Next(cfg, verify, w, Order(messageId, w.base.hubAddress, payload, 0, address)), events, n);
      var r := ExecutedDeploy(View(between), messageId, w.base.hubAddress, payload, egld, any);
      var minter := if p.minter == [] then ZERO_ADDRESS else MinterOf(p.minter).value.value;
      && (r.Some? <==> p.name != [] && p.symbol != [] && egld == TM.ISSUE_COST)
      && (r.Some? ==>
            && StateOf(r.value.chain.messages, IdOf(messageId)).Executed?
            && TokenIdOf(p) in r.value.factory.managers && r.value.factory.managers[TokenIdOf(p)].address == address
            && var tm := r.value.factory.managers[TokenIdOf(p)].tm;
               tm.issuing == 1 && tm.minter == Some(minter) && tm.identifier.None? && tm.supply == 0
               && (forall who :: TM.Has(tm, who, Roles.MINTER) <==> who == minter))
  {
    hide After, MessageHash, IncomingDeploy, ExecutedDeploy, Waiting, StateOf, TM.Has, Step, FactorySpec.Apply, Issues, IssueCount,
      FactorySpec.InterchainTokenId, IsApproved;
    var p := IncomingDeploy(w.base.trusted, payload).value;
    var token := TokenIdOf(p);
    FirstOrder(w, messageId, payload, address);
    var one := Next(cfg, verify, w, Order(messageId, w.base.hubAddress, payload, 0, address));
    assert View(one).chain == View(w).chain;
    StaysReady(cfg, verify, one, events, n, token, address);
    var between := After(cfg, verify, one, events, n);
    SameOrder(w.base.trusted, between.base.trusted, payload);
    NotIssuedMeanwhile(cfg, verify, one, events, n, messageId, payload, token);
    ConsumedExactlyWhenIssued(cfg, verify, one, events, n, messageId, payload);
    SecondOrder(between, messageId, payload, egld, address, any);
    var e := Order(messageId, w.base.hubAddress, payload, egld, any);
    if ExecutedDeploy(View(between), messageId, w.base.hubAddress, payload, egld, any).Some? {
      OrderMarks(between, e, messageId);
      IssuesNow(between, e, token);
    }
  }

  lemma IssuesNow(w: World, e: Event, token: Hash)
    requires e.Order? && ExecutedDeploy(View(w), e.messageId, e.sourceAddress, e.payload, e.egld, e.address).Some?
    requires IncomingDeploy(w.base.trusted, e.payload).Some? && TokenIdOf(IncomingDeploy(w.base.trusted, e.payload).value) == token
    requires token in w.factory.managers
    ensures Issues(w, e, e.messageId)
  {
  }

  /** As long as nobody orders the token, its message issues nothing: no other payload goes with it. */
  lemma {:induction false} NotIssuedMeanwhile(cfg: Config, verify: Verifier, w: World, events: seq<Event>, n: nat,
                                              messageId: ManagedBuffer, payload: bytes, token: Hash)
    requires n <= |events| && IsApproved(View(w).chain, messageId, payload) && Quiet(w.base, events, token)
    requires exists trusted :: IncomingDeploy(trusted, payload).Some? && TokenIdOf(IncomingDeploy(trusted, payload).value) == token
    ensures IssueCount(cfg, verify, w, events, n, messageId) == 0
    decreases n
  {
    hide Next, After, View, IncomingDeploy, ExecutedDeploy, IsApproved, FactorySpec.InterchainTokenId;
    if n > 0 {
      NotIssuedMeanwhile(cfg, verify, w, events, n - 1, messageId, payload, token);
      var t :| IncomingDeploy(t, payload).Some? && TokenIdOf(IncomingDeploy(t, payload).value) == token;
      assert IsDeploy(payload);
      ConsumedExactlyWhenIssued(cfg, verify, w, events, n - 1, messageId, payload);
      var u, e := After(cfg, verify, w, events, n - 1), events[n - 1];
      assert e in events;
      if Issues(u, e, messageId) {
        OrderMarks(u, e, messageId);
        OnePayload(View(u).chain, messageId, payload, e.payload);
        assert false;
      }
    }
  }
}
