/** No token is lost or made on the way between chains. */
module BridgeRuns {
  import opened ByteStrings
  import opened ChainTypes
  import opened Keccak
  import opened Preimages
  import opened Abi
  import opened Payloads
  import opened GatewaySpec
  import opened TokenManagerTypes
  import opened TokenServiceSpec
  import opened BridgeSpec
  import TM = TokenManagerSpec
  import TMR = TokenManagerRuns
  import Roles
  import FlowLimit
  import Sums

  // ---------- one chain ----------

  /** A remote mints and burns, its minter is the zero address, from which nobody calls, and what it put into circulation
      is what others hold. */
  ghost predicate RemoteManager(s: TM.TmState) {
    && s.kind.NativeInterchainToken? && s.identifier.Some? && s.identifier.value.Esdt?
    && s.locked == 0 && s.supply == TMR.Held(s)
    && (forall who :: TM.Has(s, who, Roles.MINTER) ==> who == ZERO_ADDRESS)
    && (forall to :: (ZERO_ADDRESS, to) !in s.accounts.proposed)
  }

  ghost predicate ManagerOk(s: TM.TmState) {
    (s.kind.LockUnlock? && s.identifier.Some?) || RemoteManager(s)
  }

  ghost predicate ChainOk(tokenId: Word, c: Chain) {
    c.tokenId == tokenId && c.tm.service == c.service && ManagerOk(c.tm)
  }

  /** A freshly set up remote token, deployed without a minter, is of this kind. */
  lemma RemoteSetUp(service: Address, operator: Option<Address>, name: bytes, now: nat, caller: Address)
    requires service != ZERO_ADDRESS
    ensures var s := TM.Init(service, NativeInterchainToken, operator, None).value;
      var deployed := TM.Step(s, now, service, TM.DeployInterchainToken(None, true, TM.ISSUE_COST));
      var issued := TM.Step(deployed, now, caller, TM.IssueCallback(Some(name)));
      RemoteManager(issued) && issued.supply == 0 && issued.service == service
  {
  }

  lemma TakeValue(s: TM.TmState, now: nat, service: Address, caller: Address, split: TransferAndGas)
    requires ManagerOk(s) && Taken(s, now, service, caller, split).Some?
    ensures var t := Taken(s, now, service, caller, split).value;
      && ManagerOk(t) && t.service == s.service && t.kind == s.kind
      && (if s.kind.LockUnlock? then t.locked == s.locked + split.amount else t.supply == s.supply - split.amount)
  {
    hide FlowLimit.AddFlowOut, TMR.Held, TM.Debit, TM.Credit;
    var sent := TM.Sent(s, caller, service, split.amount).value;
    var t := Taken(s, now, service, caller, split).value;
    TMR.SentHeld(s, caller, service, split.amount);
    TMR.StepTokens(sent, now, service, TM.TakeToken(split.token, split.amount));
    assert t.accounts == s.accounts && t.identifier == s.identifier;
    assert forall who :: TM.Has(t, who, Roles.MINTER) == TM.Has(s, who, Roles.MINTER);
  }

  lemma GiveValue(s: TM.TmState, now: nat, service: Address, destination: Address, amount: nat, withData: bool)
    requires ManagerOk(s) && Given(s, now, service, destination, amount, withData).Some?
    ensures var t := Given(s, now, service, destination, amount, withData).value;
      && ManagerOk(t) && t.service == s.service && t.kind == s.kind
      && (if s.kind.LockUnlock? then t.locked == s.locked - amount else t.supply == s.supply + amount)
  {
    hide FlowLimit.AddFlowIn, TMR.Held, TM.Debit, TM.Credit;
    var first := if withData then service else destination;
    var given := TM.Give(s, now, service, first, amount).value;
    var t := Given(s, now, service, destination, amount, withData).value;
    TMR.StepTokens(s, now, service, TM.GiveToken(first, amount));
    if withData { TMR.SentHeld(given, service, destination, amount); }
    assert t.accounts == s.accounts && t.identifier == s.identifier;
    assert forall who :: TM.Has(t, who, Roles.MINTER) == TM.Has(s, who, Roles.MINTER);
  }

  /** Nothing anybody can call on a manager changes what is in circulation, except donations to a home. */
  lemma CallKeepsValue(s: TM.TmState, now: nat, caller: Address, call: TM.Call)
    requires ManagerOk(s) && caller != ZERO_ADDRESS && (caller == s.service ==> !call.GiveToken? && !call.TakeToken?)
    requires TM.Apply(s, now, caller, call).Some?
    ensures var t := TM.Apply(s, now, caller, call).value;
      && ManagerOk(t) && t.service == s.service && t.kind == s.kind && t.supply == s.supply
      && (call.DonateTokens? ==> s.kind.LockUnlock?)
      && t.locked == s.locked + (if call.DonateTokens? then call.amount else 0)
  {
    hide FlowLimit.AddFlowIn, FlowLimit.AddFlowOut, TMR.Held, TM.Debit, TM.Credit;
    var t := TM.Apply(s, now, caller, call).value;
    TMR.StepTokens(s, now, caller, call);
    if RemoteManager(s) {
      assert !TM.Has(s, caller, Roles.MINTER);
      assert call.AcceptMintership? ==> Roles.MINTER in Roles.RolesOf(s.accounts, call.fromMinter);
      assert call.AcceptMintership? ==> TM.Has(s, call.fromMinter, Roles.MINTER);
      assert !call.AcceptMintership?;
      forall who | TM.Has(t, who, Roles.MINTER) ensures who == ZERO_ADDRESS {
        assert TM.Has(s, who, Roles.MINTER);
      }
    }
  }

  // ---------- one message ----------

  lemma TypeOfCommand(p: Payload)
    requires WellTyped(p)
    ensures p.messageType < U64_RANGE && (p.InterchainTransfer? <==> p.messageType == INTERCHAIN_TRANSFER)
    ensures p.InterchainTransfer? ==> KindOf(p) == TransferKind
  {
  }

  lemma RoutedFits(c: Chain, destinationChain: bytes, command: Payload)
    requires RouteMessage(c, destinationChain, command).Some?
    ensures var outer := SendToHub(SEND_TO_HUB, destinationChain, AbiEncode(command).value);
      && AbiEncode(command).Some? && Sendable(outer) && Sendable(command)
      && RouteMessage(c, destinationChain, command) == AbiEncode(outer)
  {
    hide Encodable, Fits, Encode, TokensOf;
    InnerFits(SendToHub(SEND_TO_HUB, destinationChain, AbiEncode(command).value), command);
  }

  lemma {:induction false} AmountOfCommand(tokenId: Word, i: nat, c: Chain, destinationChain: bytes, command: Payload)
    requires RouteMessage(c, destinationChain, command).Some? && WellTyped(command)
    ensures SentAmount(tokenId, Outgoing(i, true, RouteMessage(c, destinationChain, command).value))
         == if command.InterchainTransfer? && command.tokenId == tokenId then command.amount else 0
  {
    hide TokensOf, Encodable, Fits, Encode, AbiDecode, GetMessageType, KindOf, WellTyped;
    TypeOfCommand(command);
    var outer := SendToHub(SEND_TO_HUB, destinationChain, AbiEncode(command).value);
    RoutedFits(c, destinationChain, command);
    hide Sendable, AbiEncode;
    OutboundWrapping(destinationChain, command);
    MessageTypeOfEncoding(outer);
    MessageTypeOfEncoding(command);
  }

  lemma AmountOfMetadata(tokenId: Word, i: nat, tokenIdentifier: bytes, decimals: byte)
    requires Sendable(RegisterTokenMetadata(REGISTER_TOKEN_METADATA, tokenIdentifier, decimals))
    ensures var p := RegisterTokenMetadata(REGISTER_TOKEN_METADATA, tokenIdentifier, decimals);
      SentAmount(tokenId, Outgoing(i, true, AbiEncode(p).value)) == 0
  {
    MessageTypeOfEncoding(RegisterTokenMetadata(REGISTER_TOKEN_METADATA, tokenIdentifier, decimals));
    hide Sendable, TokensOf, AbiEncode, AbiDecode, GetMessageType;
  }

  /** The hub rewraps the command; the amount on the way is the amount sent. */
  lemma AmountForwarded(w: World, o: Outgoing, dest: nat, id: CrossChainId)
    requires o.source < |w.chains| && dest < |w.chains| && Forwarded(w, o, dest).Some?
    ensures TransitAmount(w.tokenId, InTransit(dest, id, Forwarded(w, o, dest).value)) == SentAmount(w.tokenId, o)
  {
    hide Sendable, TokensOf, AbiEncode, AbiDecode, GetMessageType, TransferAmount;
    PayloadRoundTrip(ReceiveFromHub(RECEIVE_FROM_HUB, w.chains[o.source].name, HubForwards(o.payload).value.payload));
  }

  lemma AmountExecuted(tokenId: Word, trusted: set<bytes>, m: InTransit)
    requires GetExecuteParams(trusted, m.payload).Some?
    ensures TransitAmount(tokenId, m) ==
      match IncomingTransfer(trusted, m.payload)
      case None => 0
      case Some(p) => if p.tokenId == tokenId then p.amount else 0
  {
    hide AbiDecode, GetMessageType;
  }

  // ---------- messages in transit ----------

  /** Approved for this chain's service as a message from the hub. */
  predicate Pending(chains: seq<Chain>, m: InTransit) {
    && m.dest < |chains| && m.id.sourceChain == ITS_HUB_CHAIN_NAME
    && StateOf(chains[m.dest].messages, m.id) == Approved(ApprovalHash(chains[m.dest], m.id, m.payload))
  }

  /** The hub's messages in transit are the approved and not executed messages at the gateways, each once. */
  ghost predicate Matching(w: World) {
    && (forall m :: m in w.transit <==> Pending(w.chains, m))
    && (forall k, l :: 0 <= k < l < |w.transit| ==> w.transit[k] != w.transit[l])
  }

  lemma ApprovalOfMessage(c: Chain, id: CrossChainId, payload: bytes, m: Message)
    requires HashOf(m) == ApprovalHash(c, id, payload)
    ensures m.id == id && m.sourceAddress == c.hubAddress && m.contract == c.service && m.payloadHash == Keccak256(Raw(payload))
  {
    hide MessageHash;
    MessageHashInjective(m.id, m.sourceAddress, m.contract, m.payloadHash, id, c.hubAddress, c.service, Keccak256(Raw(payload)));
  }

  lemma PayloadOfHash(p: bytes, q: bytes)
    requires Keccak256(Raw(p)) == Keccak256(Raw(q))
    ensures p == q
  {
    SameDigest(Raw(p), Raw(q));
    RawInjective(p, q);
  }

  predicate SameConstants(c: Chain, d: Chain) {
    c.service == d.service && c.hubAddress == d.hubAddress
  }

  lemma MatchingKept(w: World, v: World)
    requires Matching(w) && v.transit == w.transit && |v.chains| == |w.chains|
    requires forall m :: Pending(v.chains, m) <==> Pending(w.chains, m)
    ensures Matching(v)
  {
    hide Pending;
  }

  lemma MessagesUntouched(w: World, v: World, i: nat, c: Chain)
    requires Matching(w) && i < |w.chains| && v.transit == w.transit && v.chains == w.chains[i := c]
    requires SameConstants(c, w.chains[i]) && c.messages == w.chains[i].messages
    ensures Matching(v)
  {
    hide MessageHash, StateOf;
    forall m ensures Pending(v.chains, m) <==> Pending(w.chains, m) {
    }
    MatchingKept(w, v);
  }

  /** Approving a message that is not from the hub to the service leaves the pending messages as they are. */
  lemma OtherApproval(w: World, i: nat, m: Message)
    requires Matching(w) && i < |w.chains| && !FromHub(w.chains[i], m)
    ensures Matching(w.(chains := w.chains[i := w.chains[i].(messages := ApproveOne(w.chains[i].messages, m))]))
  {
    hide MessageHash;
    var v := w.(chains := w.chains[i := w.chains[i].(messages := ApproveOne(w.chains[i].messages, m))]);
    forall x ensures Pending(v.chains, x) <==> Pending(w.chains, x) {
      if x.dest == i && HashOf(m) == ApprovalHash(w.chains[i], x.id, x.payload) {
        ApprovalOfMessage(w.chains[i], x.id, x.payload, m);
      }
    }
    MatchingKept(w, v);
  }

  lemma OtherValidation(w: World, i: nat, caller: Address, id: CrossChainId, sourceAddress: ManagedBuffer, payloadHash: Hash)
    requires Matching(w) && i < |w.chains| && caller != w.chains[i].service
    requires StateOf(w.chains[i].messages, id) == Approved(MessageHash(id, sourceAddress, caller, payloadHash))
    ensures Matching(w.(chains := w.chains[i := w.chains[i].(messages := w.chains[i].messages[id := MessageState.Executed])]))
  {
    hide MessageHash;
    var v := w.(chains := w.chains[i := w.chains[i].(messages := w.chains[i].messages[id := MessageState.Executed])]);
    forall x ensures Pending(v.chains, x) <==> Pending(w.chains, x) {
      if Pending(w.chains, x) && x.dest == i && x.id == id {
        ApprovalOfMessage(w.chains[i], x.id, x.payload, Message(id, sourceAddress, caller, payloadHash));
        assert false;
      }
    }
    MatchingKept(w, v);
  }

  lemma HubApproval(w: World, v: World, dest: nat, id: CrossChainId, payload: bytes)
    requires Matching(w) && dest < |w.chains| && id.sourceChain == ITS_HUB_CHAIN_NAME
    requires StateOf(w.chains[dest].messages, id).NonExistent?
    requires var c := w.chains[dest];
      v.chains == w.chains[dest := c.(messages :=
        ApproveOne(c.messages, Message(id, c.hubAddress, c.service, Keccak256(Raw(payload)))))]
    requires v.transit == w.transit + [InTransit(dest, id, payload)]
    ensures Matching(v)
  {
    hide MessageHash;
    var added := InTransit(dest, id, payload);
    forall x ensures x in v.transit <==> Pending(v.chains, x) {
      assert x in w.transit <==> Pending(w.chains, x);
      if Pending(v.chains, x) && x.dest == dest && x.id == id {
        var c := w.chains[dest];
        ApprovalOfMessage(c, x.id, x.payload, Message(id, c.hubAddress, c.service, Keccak256(Raw(payload))));
        PayloadOfHash(x.payload, payload);
      }
    }
    assert !Pending(w.chains, added);
    assert forall k, l :: 0 <= k < l < |v.transit| ==> v.transit[k] != v.transit[l];
  }

  lemma WithoutOne(s: seq<InTransit>, k: nat)
    requires k < |s| && forall i, j :: 0 <= i < j < |s| ==> s[i] != s[j]
    ensures var t := Sums.Without(s, k);
      && (forall x :: x in t <==> x in s && x != s[k])
      && (forall i, j :: 0 <= i < j < |t| ==> t[i] != t[j])
  {
    var t := Sums.Without(s, k);
    forall x | x in s && x != s[k] ensures x in t {
      var j :| 0 <= j < |s| && s[j] == x;
      assert x == if j < k then t[j] else t[j - 1];
    }
  }

  /** Executing a pending message takes exactly it out of transit. */
  lemma ConsumedMatches(w: World, i: nat, c: Chain, id: CrossChainId, payload: bytes)
    requires Matching(w) && i < |w.chains| && Pending(w.chains, InTransit(i, id, payload))
    requires SameConstants(c, w.chains[i]) && c.messages == w.chains[i].messages[id := MessageState.Executed]
    ensures Matching(Consumed(w, i, c, id, payload))
    ensures InTransit(i, id, payload) in w.transit
  {
    hide MessageHash;
    var m := InTransit(i, id, payload);
    var v := Consumed(w, i, c, id, payload);
    assert m in w.transit;
    WithoutOne(w.transit, IndexOf(w.transit, m));
    forall x ensures x in v.transit <==> Pending(v.chains, x) {
      assert x in w.transit <==> Pending(w.chains, x);
      if Pending(w.chains, x) && x.dest == i && x.id == id {
        var c0 := w.chains[i];
        ApprovalOfMessage(c0, x.id, x.payload, Message(id, c0.hubAddress, c0.service, Keccak256(Raw(payload))));
        PayloadOfHash(x.payload, payload);
      }
    }
  }

  // ---------- one step ----------

  ghost predicate ChainsOk(w: World) {
    forall i :: 0 <= i < |w.chains| ==> ChainOk(w.tokenId, w.chains[i])
  }

  ghost predicate Inv(w: World) {
    ChainsOk(w) && Matching(w) && Conserved(w)
  }

  /** What never changes: the token, the number of chains, and the kind of manager on each. */
  ghost predicate SameShape(w: World, v: World) {
    && v.tokenId == w.tokenId && |v.chains| == |w.chains|
    && (forall i :: 0 <= i < |w.chains| ==> v.chains[i].tm.kind == w.chains[i].tm.kind)
  }

  /** One chain changes by `delta` in circulation, and what is sent and in transit makes up for it. */
  lemma Balanced(w: World, v: World, i: nat, c: Chain)
    requires Inv(w) && i < |w.chains| && v.chains == w.chains[i := c] && v.tokenId == w.tokenId
    requires ChainOk(w.tokenId, c) && c.tm.kind == w.chains[i].tm.kind
    requires Circulating(c) - Circulating(w.chains[i]) + SentTotal(v) - SentTotal(w) + TransitTotal(v) - TransitTotal(w)
             + v.donated - w.donated == 0
    ensures ChainsOk(v) && Conserved(v) && SameShape(w, v)
  {
    hide ChainOk, Circulating, SentTotal, TransitTotal;
    assert forall x :: CirculatingIn()(x) == Circulating(x);
    Sums.Update(CirculatingIn(), w.chains, i, c);
  }

  lemma SentMore(w: World, v: World, o: Outgoing)
    requires v.outbox == w.outbox + [o] && v.tokenId == w.tokenId
    ensures SentTotal(v) == SentTotal(w) + SentAmount(w.tokenId, o)
  {
    hide SentAmount;
    Sums.Append(SentOf(w.tokenId), w.outbox, o);
  }

  lemma OnlySent(w: World, v: World, i: nat, o: Outgoing)
    requires Inv(w) && i < |w.chains| && v == w.(outbox := w.outbox + [o]) && SentAmount(w.tokenId, o) == 0
    ensures Inv(v) && SameShape(w, v)
  {
    hide Pending, ChainOk, SentAmount;
    SentMore(w, v, o);
  }

  lemma TransferStep(w: World, e: Event)
    requires Inv(w) && e.Transfer? && e.i < |w.chains|
    ensures Inv(Next(w, e)) && SameShape(w, Next(w, e))
  {
    var c := w.chains[e.i];
    var v := Next(w, e);
    hide Matching, RouteMessage, SentAmount, SentTotal, TransitTotal, ManagerOk, Taken;
    var r := InterchainTransferred(c, e.now, e.caller, e.destinationChain, e.destinationAddress, e.data, e.gas, e.payments);
    if r.Some? {
      var split := GetTransferAndGasTokens(e.payments, e.gas).value;
      TakeValue(c.tm, e.now, c.service, e.caller, split);
      AmountOfCommand(w.tokenId, e.i, c, e.destinationChain,
        InterchainTransfer(INTERCHAIN_TRANSFER, c.tokenId, e.caller, e.destinationAddress, split.amount, e.data));
      SentMore(w, v, Outgoing(e.i, true, r.value.1));
      assert v.transit == w.transit;
      SameTransit(w, v);
      Balanced(w, v, e.i, r.value.0);
      MessagesUntouched(w, v, e.i, r.value.0);
    }
  }

  lemma SameTransit(w: World, v: World)
    requires v.transit == w.transit && v.tokenId == w.tokenId
    ensures TransitTotal(v) == TransitTotal(w)
  {
  }

  lemma SameSent(w: World, v: World)
    requires v.outbox == w.outbox && v.tokenId == w.tokenId
    ensures SentTotal(v) == SentTotal(w)
  {
  }

  /** The amount leaves the outbox and enters transit. */
  lemma RelayStep(w: World, e: Event)
    requires Inv(w) && e.Relay? && e.dest < |w.chains|
    ensures Inv(Next(w, e)) && SameShape(w, Next(w, e))
  {
    var c := w.chains[e.dest];
    var v := Next(w, e);
    hide Matching, Forwarded, SentAmount, TransitAmount, ManagerOk, MessageHash, ApproveOne, Sums.Sum, StateOf;
    if v != w {
      var o := w.outbox[e.k];
      var id := CrossChainId(ITS_HUB_CHAIN_NAME, e.messageId);
      var payload := Forwarded(w, o, e.dest).value;
      AmountForwarded(w, o, e.dest, id);
      Sums.Remove(SentOf(w.tokenId), w.outbox, e.k);
      Sums.Append(TransitOf(w.tokenId), w.transit, InTransit(e.dest, id, payload));
      Balanced(w, v, e.dest, v.chains[e.dest]);
      HubApproval(w, v, e.dest, id, payload);
    }
  }

  lemma ConsumedStep(w: World, i: nat, c: Chain, id: CrossChainId, payload: bytes)
    requires Inv(w) && i < |w.chains| && Pending(w.chains, InTransit(i, id, payload))
    requires SameConstants(c, w.chains[i]) && c.messages == w.chains[i].messages[id := MessageState.Executed]
    requires ChainOk(w.tokenId, c) && c.tm.kind == w.chains[i].tm.kind
    requires Circulating(c) == Circulating(w.chains[i]) + TransitAmount(w.tokenId, InTransit(i, id, payload))
    ensures Inv(Consumed(w, i, c, id, payload)) && SameShape(w, Consumed(w, i, c, id, payload))
  {
    hide Matching, Pending, TransitAmount, ChainOk, Circulating, Sums.Sum;
    var m := InTransit(i, id, payload);
    var v := Consumed(w, i, c, id, payload);
    ConsumedMatches(w, i, c, id, payload);
    Sums.Remove(TransitOf(w.tokenId), w.transit, IndexOf(w.transit, m));
    SameSent(w, v);
    Balanced(w, v, i, c);
  }

  lemma ExecuteTransferStep(w: World, e: Event)
    requires Inv(w) && e.ExecuteTransfer? && e.i < |w.chains|
    ensures Inv(Next(w, e)) && SameShape(w, Next(w, e))
  {
    hide Matching, Conserved, TransitAmount, IncomingTransfer, GetExecuteParams, ManagerOk, Given, MessageHash, Consumed;
    var c := w.chains[e.i];
    var id := CrossChainId(ITS_HUB_CHAIN_NAME, e.messageId);
    var r := ExecutedTransfer(c, e.now, ITS_HUB_CHAIN_NAME, e.messageId, e.sourceAddress, e.payload, e.egld, e.delivered);
    if r.Some? {
      var p := IncomingTransfer(c.trusted, e.payload).value;
      TransferHasParams(c.trusted, e.payload);
      AmountExecuted(w.tokenId, c.trusted, InTransit(e.i, id, e.payload));
      if p.tokenId == c.tokenId {
        GiveValue(c.tm, e.now, c.service, p.destinationAddress, p.amount, p.data != []);
      }
      ConsumedStep(w, e.i, r.value, id, e.payload);
    }
  }

  lemma ExecuteCommandStep(w: World, e: Event)
    requires Inv(w) && e.ExecuteCommand? && e.i < |w.chains|
    ensures Inv(Next(w, e)) && SameShape(w, Next(w, e))
  {
    hide Matching, Conserved, TransitAmount, IncomingTransfer, GetExecuteParams, ManagerOk, MessageHash, Consumed;
    var c := w.chains[e.i];
    var id := CrossChainId(ITS_HUB_CHAIN_NAME, e.messageId);
    if CommandApproved(c, id, e.payload) {
      AmountExecuted(w.tokenId, c.trusted, InTransit(e.i, id, e.payload));
      CommandIsNoTransfer(c.trusted, e.payload);
      ConsumedStep(w, e.i, c.(messages := c.messages[id := MessageState.Executed]), id, e.payload);
    }
  }

  lemma TransferHasParams(trusted: set<bytes>, payload: bytes)
    requires IncomingTransfer(trusted, payload).Some?
    ensures GetExecuteParams(trusted, payload).Some?
  {
  }

  lemma CommandIsNoTransfer(trusted: set<bytes>, payload: bytes)
    requires GetExecuteParams(trusted, payload).Some?
    requires GetExecuteParams(trusted, payload).value.0 != INTERCHAIN_TRANSFER
    ensures IncomingTransfer(trusted, payload).None?
  {
  }

  lemma CallStep(w: World, e: Event)
    requires Inv(w) && e.CallManager? && e.i < |w.chains|
    ensures Inv(Next(w, e)) && SameShape(w, Next(w, e))
  {
    var c := w.chains[e.i];
    var v := Next(w, e);
    hide Matching, Conserved, ManagerOk, TM.Apply, SentTotal, TransitTotal;
    if v != w {
      CallKeepsValue(c.tm, e.now, e.caller, e.call);
      SameSent(w, v);
      SameTransit(w, v);
      Balanced(w, v, e.i, v.chains[e.i]);
      MessagesUntouched(w, v, e.i, v.chains[e.i]);
    }
  }

  lemma SendStep(w: World, e: Event)
    requires Inv(w) && (e.SendCommand? || e.SendMetadata? || e.CallGateway?) && e.i < |w.chains|
    ensures Inv(Next(w, e)) && SameShape(w, Next(w, e))
  {
    var c := w.chains[e.i];
    var v := Next(w, e);
    hide Inv, RouteMessage, HubForwards, TransferAmount, Sendable;
    if v != w {
      var o := v.outbox[|w.outbox|];
      if e.SendCommand? {
        AmountOfCommand(w.tokenId, e.i, c, e.destinationChain, e.command);
      } else if e.SendMetadata? {
        AmountOfMetadata(w.tokenId, e.i, e.tokenIdentifier, e.decimals);
      }
      OnlySent(w, v, e.i, o);
    } else {
      Unchanged(w);
    }
  }

  lemma Unchanged(w: World)
    ensures SameShape(w, w)
  {
  }

  lemma LocalStep(w: World, e: Event)
    requires Inv(w) && (e.ApproveOther? || e.ValidateOther? || e.SetPaused? || e.SetTrusted?) && e.i < |w.chains|
    ensures Inv(Next(w, e)) && SameShape(w, Next(w, e))
  {
    var v := Next(w, e);
    hide Matching, Conserved, ManagerOk, ApproveOne, MessageHash, SentTotal, TransitTotal;
    if v != w {
      SameSent(w, v);
      SameTransit(w, v);
      Balanced(w, v, e.i, v.chains[e.i]);
      if e.ApproveOther? {
        OtherApproval(w, e.i, e.m);
      } else if e.ValidateOther? {
        OtherValidation(w, e.i, e.caller, e.id, e.sourceAddress, e.payloadHash);
      } else {
        MessagesUntouched(w, v, e.i, v.chains[e.i]);
      }
    }
  }

  lemma StepKeepsInv(w: World, e: Event)
    requires Inv(w)
    ensures Inv(Next(w, e)) && SameShape(w, Next(w, e))
  {
    if Origin(e) >= |w.chains| {
      Unchanged(w);
    } else {
      hide Inv, Next, SameShape;
      if e.Transfer? {
        TransferStep(w, e);
      } else if e.Relay? {
        RelayStep(w, e);
      } else if e.ExecuteTransfer? {
        ExecuteTransferStep(w, e);
      } else if e.ExecuteCommand? {
        ExecuteCommandStep(w, e);
      } else if e.CallManager? {
        CallStep(w, e);
      } else if e.SendCommand? || e.SendMetadata? || e.CallGateway? {
        SendStep(w, e);
      } else {
        LocalStep(w, e);
      }
    }
  }

  // ---------- every reachable state ----------

  ghost predicate HomeAndRemotes(w: World) {
    w.chains != [] && (forall i :: 0 <= i < |w.chains| ==> (w.chains[i].tm.kind.LockUnlock? <==> i == 0))
  }

  /** One lock/unlock home, any number of remotes, nothing sent and nothing minted. */
  ghost predicate Start(w: World) {
    && HomeAndRemotes(w) && ChainsOk(w)
    && (forall i :: 0 <= i < |w.chains| ==>
          w.chains[i].messages == map[] && w.chains[i].tm.locked == 0 && w.chains[i].tm.supply == 0)
    && w.outbox == [] && w.transit == [] && w.donated == 0
  }

  lemma StartInv(w: World)
    requires Start(w)
    ensures Inv(w)
  {
    hide ChainOk, MessageHash;
    forall c | c in w.chains ensures CirculatingIn()(c) == 0 {
    }
    Sums.AtMost(CirculatingIn(), (c: Chain) => 0, w.chains);
    Sums.AtMost((c: Chain) => 0, CirculatingIn(), w.chains);
    AllZero(w.chains);
  }

  lemma {:induction false} AllZero(s: seq<Chain>)
    ensures Sums.Sum((c: Chain) => 0, s) == 0
  {
    if s != [] { AllZero(s[..|s| - 1]); }
  }

  lemma {:induction false} InvAlways(w: World, events: seq<Event>, n: nat)
    requires Start(w) && n <= |events|
    ensures Inv(After(w, events, n)) && SameShape(w, After(w, events, n))
  {
    hide Inv, Next, Start;
    if n == 0 {
      StartInv(w);
      Unchanged(w);
    } else {
      InvAlways(w, events, n - 1);
      StepKeepsInv(After(w, events, n - 1), events[n - 1]);
    }
  }

  lemma HomeBalance(w: World)
    requires ChainsOk(w) && HomeAndRemotes(w)
    ensures CirculatingTotal(w) == RemoteSupply(w) - w.chains[0].tm.locked
  {
    hide ManagerOk;
    var rest := w.chains[1..];
    assert w.chains == [w.chains[0]] + rest;
    Sums.Concat(CirculatingIn(), [w.chains[0]], rest);
    Sums.Append(CirculatingIn(), [], w.chains[0]);
    assert [] + [w.chains[0]] == [w.chains[0]];
    forall c | c in rest ensures CirculatingIn()(c) == SupplyIn()(c) {
      var i :| 0 <= i < |rest| && rest[i] == c;
      assert c == w.chains[i + 1];
    }
    Sums.AtMost(CirculatingIn(), SupplyIn(), rest);
    Sums.AtMost(SupplyIn(), CirculatingIn(), rest);
  }

  /** What circulates on all chains, what the home locks counted against it, is what was sent, relayed and donated. */
  lemma {:induction false} AlwaysConserved(w: World, events: seq<Event>, n: nat)
    requires Start(w) && n <= |events|
    ensures Conserved(After(w, events, n))
  {
    hide After;
    InvAlways(w, events, n);
  }

  /** In every reachable state the home has locked exactly the donations, what the remotes have in circulation, what
      was sent and not yet relayed, and what was relayed and not yet executed; and the messages in transit are exactly
      the approved ones, each once. */
  lemma {:induction false} Conservation(w: World, events: seq<Event>, n: nat)
    requires Start(w) && n <= |events|
    ensures var v := After(w, events, n);
      && v.chains != []
      && v.chains[0].tm.locked == v.donated + RemoteSupply(v) + SentTotal(v) + TransitTotal(v)
      && Matching(v)
  {
    InvAlways(w, events, n);
    hide Matching, ChainOk, SentTotal, TransitTotal, After;
    HomeBalance(After(w, events, n));
  }

  lemma TotalsNonNegative(w: World)
    requires ChainsOk(w) && HomeAndRemotes(w)
    ensures RemoteSupply(w) >= 0 && SentTotal(w) >= 0 && ToHomeTotal(w) <= TransitTotal(w)
    ensures forall m :: m in w.transit && m.dest == 0 ==> TransitAmount(w.tokenId, m) <= ToHomeTotal(w)
  {
    hide SentAmount, TransitAmount;
    forall c | c in w.chains[1..] ensures SupplyIn()(c) >= 0 {
      var i :| 0 <= i < |w.chains[1..]| && w.chains[1..][i] == c;
      assert c == w.chains[i + 1] && ChainOk(w.tokenId, w.chains[i + 1]);
      TMR.HeldNonNegative(c.tm);
    }
    Sums.NonNegative(SupplyIn(), w.chains[1..]);
    Sums.NonNegative(SentOf(w.tokenId), w.outbox);
    Sums.NonNegative(ToHomeOf(w.tokenId), w.transit);
    Sums.AtMost(ToHomeOf(w.tokenId), TransitOf(w.tokenId), w.transit);
    forall m | m in w.transit && m.dest == 0 ensures TransitAmount(w.tokenId, m) <= ToHomeTotal(w) {
      assert ToHomeOf(w.tokenId)(m) == TransitAmount(w.tokenId, m);
    }
  }

  /** In every reachable state the home can pay all transfers on their way to it, together with everything else owed. */
  lemma {:induction false} HomeIsSolvent(w: World, events: seq<Event>, n: nat)
    requires Start(w) && n <= |events|
    ensures CanPayAll(After(w, events, n))
  {
    Conservation(w, events, n);
    InvAlways(w, events, n);
    hide Matching, ManagerOk, After, RemoteSupply, SentTotal, TransitTotal, ToHomeTotal, TransitAmount;
    TotalsNonNegative(After(w, events, n));
  }

  /** So it can pay each of them. */
  lemma EachCanBePaid(w: World, m: InTransit)
    requires CanPayAll(w) && ChainsOk(w) && HomeAndRemotes(w) && m in w.transit && m.dest == 0
    ensures TransitAmount(w.tokenId, m) <= w.chains[0].tm.locked
  {
    hide ManagerOk, RemoteSupply, ToHomeTotal, TransitAmount;
    TotalsNonNegative(w);
  }

  /** What can still stop a transfer that is on its way: never the balance. */
  predicate MayArrive(c: Chain, now: nat, p: Payload, egld: nat, delivered: bool)
    requires p.InterchainTransfer?
  {
    && !c.paused && egld == 0 && |p.destinationAddress| == 32
    && (if p.tokenId == c.tokenId
        then FlowLimit.Allows(c.tm.flow, now, FlowLimit.In, p.amount) && (p.data == [] || delivered)
        else delivered)
  }

  /** With the money there, only the flow limit can stop the manager from paying. */
  lemma FundedGiven(s: TM.TmState, now: nat, destination: Address, amount: nat, withData: bool)
    requires ManagerOk(s) && (s.kind.LockUnlock? ==> amount <= s.locked)
    ensures Given(s, now, s.service, destination, amount, withData).Some? <==> FlowLimit.Allows(s.flow, now, FlowLimit.In, amount)
  {
    FlowLimit.MovedExactly(s.flow, now, FlowLimit.In, amount);
    hide FlowLimit.AddFlowIn, FlowLimit.Allows;
    var first := if withData then s.service else destination;
    if TM.Give(s, now, s.service, first, amount).Some? { GivenIsHeld(s, now, s.service, first, amount); }
  }

  lemma FundedArrives(tokenId: Word, c: Chain, m: InTransit, now: nat, egld: nat, delivered: bool)
    requires ChainOk(tokenId, c) && IncomingTransfer(c.trusted, m.payload).Some?
    requires m.id.sourceChain == ITS_HUB_CHAIN_NAME
    requires StateOf(c.messages, m.id) == Approved(ApprovalHash(c, m.id, m.payload))
    requires var p := IncomingTransfer(c.trusted, m.payload).value;
      c.tm.kind.LockUnlock? && p.tokenId == tokenId ==> p.amount <= c.tm.locked
    ensures ExecutedTransfer(c, now, ITS_HUB_CHAIN_NAME, m.id.messageId, c.hubAddress, m.payload, egld, delivered).Some?
      <==> MayArrive(c, now, IncomingTransfer(c.trusted, m.payload).value, egld, delivered)
  {
    hide MessageHash, IncomingTransfer, StateOf, TM.Give, Given;
    assert CrossChainId(ITS_HUB_CHAIN_NAME, m.id.messageId) == m.id;
    var p := IncomingTransfer(c.trusted, m.payload).value;
    if |p.destinationAddress| == 32 && p.tokenId == tokenId { FundedGiven(c.tm, now, p.destinationAddress, p.amount, p.data != []); }
  }

  lemma OnlyTransfersExecute(c: Chain, m: InTransit, now: nat, egld: nat, delivered: bool)
    requires IncomingTransfer(c.trusted, m.payload).None?
    ensures ExecutedTransfer(c, now, ITS_HUB_CHAIN_NAME, m.id.messageId, c.hubAddress, m.payload, egld, delivered).None?
  {
    hide IncomingTransfer;
  }

  /** In every reachable state, a message in transit is executed as a transfer exactly when it is one from a trusted
      chain and nothing but money could be missing. */
  lemma {:induction false} PendingTransferArrives(w: World, events: seq<Event>, n: nat, m: InTransit, now: nat, egld: nat, delivered: bool)
    requires Start(w) && n <= |events| && m in After(w, events, n).transit
    ensures m.dest < |After(w, events, n).chains|
    ensures var c := After(w, events, n).chains[m.dest];
      ExecutedTransfer(c, now, ITS_HUB_CHAIN_NAME, m.id.messageId, c.hubAddress, m.payload, egld, delivered).Some?
      <==> IncomingTransfer(c.trusted, m.payload).Some?
           && MayArrive(c, now, IncomingTransfer(c.trusted, m.payload).value, egld, delivered)
  {
    hide After, Conserved, MessageHash, IncomingTransfer, TransitAmount, GetExecuteParams, ExecutedTransfer, MayArrive,
      ManagerOk, ToHomeTotal, RemoteSupply;
    InvAlways(w, events, n);
    HomeIsSolvent(w, events, n);
    var v := After(w, events, n);
    assert Pending(v.chains, m);
    var c := v.chains[m.dest];
    assert ChainOk(v.tokenId, c);
    if m.dest == 0 { EachCanBePaid(v, m); }
    if IncomingTransfer(c.trusted, m.payload).Some? {
      TransferHasParams(c.trusted, m.payload);
      AmountExecuted(w.tokenId, c.trusted, m);
      FundedArrives(w.tokenId, c, m, now, egld, delivered);
    } else {
      OnlyTransfersExecute(c, m, now, egld, delivered);
    }
  }

  /** End to end: what the destination decodes is the transfer the sender made, field by field, and it decodes it
      exactly when it trusts the source chain. */
  lemma TransferArrivesIntact(w: World, source: nat, dest: nat, now: nat, caller: Address, destinationAddress: bytes,
                              data: bytes, gas: nat, payments: Payments)
    requires source < |w.chains| && dest < |w.chains|
    requires var d := w.chains[dest].name;
      InterchainTransferred(w.chains[source], now, caller, d, destinationAddress, data, gas, payments).Some?
      && Forwarded(w, Outgoing(source, true,
           InterchainTransferred(w.chains[source], now, caller, d, destinationAddress, data, gas, payments).value.1), dest).Some?
    ensures Splittable(payments, gas) && AmountSent(payments, gas) > 0
    ensures var d := w.chains[dest].name;
      var sent := InterchainTransferred(w.chains[source], now, caller, d, destinationAddress, data, gas, payments).value.1;
      var received := Forwarded(w, Outgoing(source, true, sent), dest).value;
      IncomingTransfer(w.chains[dest].trusted, received)
      == if w.chains[source].name !in w.chains[dest].trusted then None
         else Some(InterchainTransfer(INTERCHAIN_TRANSFER, w.chains[source].tokenId, caller, destinationAddress,
                                      AmountSent(payments, gas), data))
  {
    SplitExactly(payments, gas);
    hide Taken, GetTransferAndGasTokens, Splittable, AmountSent, Sendable, TokensOf, AbiEncode, AbiDecode, GetMessageType, RouteMessage,
      GetExecuteParams;
    var c := w.chains[source];
    var command := InterchainTransfer(INTERCHAIN_TRANSFER, c.tokenId, caller, destinationAddress,
                                      AmountSent(payments, gas), data);
    RoutedFits(c, w.chains[dest].name, command);
    OutboundWrapping(w.chains[dest].name, command);
    ExecuteParamsOfWrapped(w.chains[dest].trusted, c.name, command);
    PayloadRoundTrip(command);
  }
}
