/** One transfer from its sender to its receiver, with anything else happening in between. */
module BridgeLaws {
  import opened ByteStrings
  import opened ChainTypes
  import opened Keccak
  import opened Preimages
  import opened Abi
  import opened Payloads
  import opened GatewaySpec
  import opened TokenServiceSpec
  import opened BridgeSpec
  import opened BridgeRuns
  import TM = TokenManagerSpec
  import FlowLimit
  import Sums

  /** The hub passes on what a service sent exactly to the chain it names, if it has room for the wrapping; and that chain
      reads the very command, if it trusts the chain that sent it. */
  lemma SentIsForwarded(w: World, source: nat, dest: nat, c: Chain, destinationChain: bytes, command: Payload, trusted: set<bytes>)
    requires source < |w.chains| && dest < |w.chains|
    requires RouteMessage(c, destinationChain, command).Some? && command.InterchainTransfer? && command.messageType == 0
    ensures AbiEncode(command).Some?
    ensures var r := Forwarded(w, Outgoing(source, true, RouteMessage(c, destinationChain, command).value), dest);
      && (r.Some? <==>
            && destinationChain == w.chains[dest].name
            && Sendable(ReceiveFromHub(4, w.chains[source].name, AbiEncode(command).value)))
      && (r.Some? ==> IncomingTransfer(trusted, r.value) == if w.chains[source].name in trusted then Some(command) else None)
  {
    hide Sendable, AbiEncode, HubForwards, RouteMessage, IncomingTransfer;
    HubReadsRouted(c, destinationChain, command);
    if Sendable(ReceiveFromHub(4, w.chains[source].name, AbiEncode(command).value)) {
      WrappedIsRead(trusted, w.chains[source].name, command);
    }
  }

  lemma HubReadsRouted(c: Chain, destinationChain: bytes, command: Payload)
    requires RouteMessage(c, destinationChain, command).Some?
    ensures AbiEncode(command).Some?
    ensures HubForwards(RouteMessage(c, destinationChain, command).value)
         == Some(SendToHub(SEND_TO_HUB, destinationChain, AbiEncode(command).value))
  {
    hide Sendable, TokensOf, AbiEncode, AbiDecode, GetMessageType, RouteMessage;
    RoutedFits(c, destinationChain, command);
    OutboundWrapping(destinationChain, command);
    MessageTypeOfEncoding(SendToHub(SEND_TO_HUB, destinationChain, AbiEncode(command).value));
  }

  lemma WrappedIsRead(trusted: set<bytes>, chain: bytes, command: Payload)
    requires command.InterchainTransfer? && command.messageType == 0 && AbiEncode(command).Some?
    requires Sendable(ReceiveFromHub(4, chain, AbiEncode(command).value))
    ensures AbiEncode(ReceiveFromHub(4, chain, AbiEncode(command).value)).Some?
    ensures IncomingTransfer(trusted, AbiEncode(ReceiveFromHub(4, chain, AbiEncode(command).value)).value)
         == if chain in trusted then Some(command) else None
  {
    hide Sendable, TokensOf, AbiEncode, AbiDecode, GetExecuteParams;
    PayloadRoundTrip(ReceiveFromHub(4, chain, AbiEncode(command).value));
    ExecuteParamsOfWrapped(trusted, chain, command);
    PayloadRoundTrip(command);
  }

  /** The hub passes on nothing that others than the service send. */
  lemma OnlyServiceForwarded(w: World, o: Outgoing, dest: nat)
    requires o.source < |w.chains| && dest < |w.chains| && !o.fromService
    ensures Forwarded(w, o, dest).None?
  {
    hide HubForwards, Sendable, AbiEncode;
  }

  /** A transfer leaves its message in the outbox, for the named chain, with what is attached less the gas. */
  lemma TransferIsSent(w: World, e: Event)
    requires e.Transfer? && e.i < |w.chains|
    requires InterchainTransferred(w.chains[e.i], e.now, e.caller, e.destinationChain, e.destinationAddress, e.data, e.gas, e.payments).Some?
    ensures AmountSent(e.payments, e.gas) > 0
    ensures var command := TransferOf(w.chains[e.i].tokenId, e);
      && RouteMessage(w.chains[e.i], e.destinationChain, command).Some?
      && Next(w, e).outbox == w.outbox + [Outgoing(e.i, true, RouteMessage(w.chains[e.i], e.destinationChain, command).value)]
  {
    SplitExactly(e.payments, e.gas);
    hide Taken, RouteMessage, GetTransferAndGasTokens, Splittable, AmountSent;
  }

  /** The transfer that the event makes. */
  function TransferOf(tokenId: Word, e: Event): Payload
    requires e.Transfer? && AmountSent(e.payments, e.gas) >= 0
  {
    InterchainTransfer(0, tokenId, e.caller, e.destinationAddress, AmountSent(e.payments, e.gas), e.data)
  }

  /** The step executes this message. */
  predicate Executes(e: Event, m: InTransit) {
    || (e.ExecuteTransfer? && e.i == m.dest && CrossChainId(ITS_HUB_CHAIN_NAME, e.messageId) == m.id && e.payload == m.payload)
    || (e.ExecuteCommand? && e.i == m.dest && CrossChainId(ITS_HUB_CHAIN_NAME, e.messageId) == m.id && e.payload == m.payload)
  }

  lemma TransitStep(w: World, e: Event, m: InTransit)
    requires m in w.transit && !Executes(e, m)
    ensures m in Next(w, e).transit
  {
    hide InterchainTransferred, ExecutedTransfer, CommandApproved, RouteMessage, Forwarded, TM.Apply, MessageHash, Sendable,
      AbiEncode, StateOf, ApproveOne, OtherCommand;
    if e.ExecuteTransfer? || e.ExecuteCommand? {
      var done := InTransit(e.i, CrossChainId(ITS_HUB_CHAIN_NAME, e.messageId), e.payload);
      if done in w.transit { StaysWithout(w.transit, IndexOf(w.transit, done), m); }
    }
  }

  lemma StaysWithout(s: seq<InTransit>, k: nat, m: InTransit)
    requires k < |s| && m in s && s[k] != m
    ensures m in Sums.Without(s, k)
  {
    var j :| 0 <= j < |s| && s[j] == m;
    assert m == Sums.Without(s, k)[if j < k then j else j - 1];
  }

  /** A message on its way stays on its way until it is executed. */
  lemma {:induction false} StaysInTransit(w: World, events: seq<Event>, i: nat, j: nat, m: InTransit)
    requires i <= j <= |events| && m in After(w, events, i).transit
    requires forall k :: i <= k < j ==> !Executes(events[k], m)
    ensures m in After(w, events, j).transit
    decreases j
  {
    hide Next;
    if i < j {
      StaysInTransit(w, events, i, j - 1, m);
      TransitStep(After(w, events, j - 1), events[j - 1], m);
    }
  }

  /** Relaying puts the forwarded bytes on their way under the given message id. */
  lemma RelayIsForwarding(w: World, e: Event)
    requires e.Relay? && e.dest < |w.chains| && e.k < |w.outbox| && w.outbox[e.k].source < |w.chains|
    requires Forwarded(w, w.outbox[e.k], e.dest).Some?
    requires StateOf(w.chains[e.dest].messages, CrossChainId(ITS_HUB_CHAIN_NAME, e.messageId)).NonExistent?
    ensures InTransit(e.dest, CrossChainId(ITS_HUB_CHAIN_NAME, e.messageId), Forwarded(w, w.outbox[e.k], e.dest).value)
            in Next(w, e).transit
  {
    hide Forwarded, MessageHash, StateOf;
    var m := InTransit(e.dest, CrossChainId(ITS_HUB_CHAIN_NAME, e.messageId), Forwarded(w, w.outbox[e.k], e.dest).value);
    assert (w.transit + [m])[|w.transit|] == m;
  }

  /** What the receiving chain must allow at that moment: it trusts the sending chain, is not paused, and its flow limit
      admits the amount; the address is one; and the receiver takes the data, if there is any. */
  predicate Open(c: Chain, now: nat, sourceName: bytes, p: Payload, delivered: bool)
    requires p.InterchainTransfer?
  {
    && sourceName in c.trusted && !c.paused && |p.destinationAddress| == 32
    && FlowLimit.Allows(c.tm.flow, now, FlowLimit.In, p.amount) && (p.data == [] || delivered)
  }

  /** From end to end, in every run: a transfer at a, its message relayed at b, and anything else before, between and after
      that does not execute it; then executing it at n succeeds exactly if the receiving chain is open to it, and pays
      the receiver exactly what the sender attached less the gas, and nobody else anything. */
  lemma {:induction false} TransferIsDelivered(w: World, events: seq<Event>, a: nat, b: nat, n: nat, now: nat, delivered: bool,
                                               who: Address)
    requires Start(w) && a < b < n <= |events|
    requires var e := events[a];
      && e.Transfer? && e.i < |After(w, events, a).chains|
      && InterchainTransferred(After(w, events, a).chains[e.i], e.now, e.caller, e.destinationChain, e.destinationAddress,
                               e.data, e.gas, e.payments).Some?
    requires var u, r := After(w, events, b), events[b];
      && r.Relay? && r.dest < |u.chains| && r.k < |u.outbox|
      && u.outbox[r.k] == After(w, events, a + 1).outbox[|After(w, events, a + 1).outbox| - 1]
      && u.outbox[r.k].source < |u.chains| && Forwarded(u, u.outbox[r.k], r.dest).Some?
      && StateOf(u.chains[r.dest].messages, CrossChainId(ITS_HUB_CHAIN_NAME, r.messageId)).NonExistent?
    requires var r := events[b];
      var m := InTransit(r.dest, CrossChainId(ITS_HUB_CHAIN_NAME, r.messageId),
                         Forwarded(After(w, events, b), After(w, events, b).outbox[r.k], r.dest).value);
      forall k :: b < k < n ==> !Executes(events[k], m)
    ensures events[b].dest < |After(w, events, n).chains| && AmountSent(events[a].payments, events[a].gas) > 0
    ensures var e, r, u := events[a], events[b], After(w, events, b);
      var c := After(w, events, n).chains[r.dest];
      var done := ExecutedTransfer(c, now, ITS_HUB_CHAIN_NAME, r.messageId, c.hubAddress, Forwarded(u, u.outbox[r.k], r.dest).value,
                                   0, delivered);
      && (done.Some? <==> Open(c, now, u.chains[u.outbox[r.k].source].name, TransferOf(w.tokenId, e), delivered))
      && (done.Some? ==>
            TM.Balance(done.value.tm.holders, who)
            == TM.Balance(c.tm.holders, who) + if who == e.destinationAddress then AmountSent(e.payments, e.gas) else 0)
  {
    hide After, Next, ExecutedTransfer, InterchainTransferred, Forwarded, StateOf, Start, MayArrive, Inv, AmountSent,
      IncomingTransfer, RouteMessage, Executes, SameShape;
    var e, r, u, v := events[a], events[b], After(w, events, b), After(w, events, n);
    InvAlways(w, events, a);
    InvAlways(w, events, n);
    OneStep(w, events, a);
    OneStep(w, events, b);
    TokenIs(w, After(w, events, a), e.i);
    TransferIsSent(After(w, events, a), e);
    RelayIsForwarding(u, r);
    var id := CrossChainId(ITS_HUB_CHAIN_NAME, r.messageId);
    var m := InTransit(r.dest, id, Forwarded(u, u.outbox[r.k], r.dest).value);
    StaysInTransit(w, events, b + 1, n, m);
    PendingTransferArrives(w, events, n, m, now, 0, delivered);
    var c := v.chains[r.dest];
    TokenIs(w, v, r.dest);
    SentIsForwarded(u, e.i, r.dest, After(w, events, a).chains[e.i], e.destinationChain, TransferOf(w.tokenId, e), c.trusted);
    if IncomingTransfer(c.trusted, m.payload).Some? {
      ArrivesWhenOpen(c, now, IncomingTransfer(c.trusted, m.payload).value, delivered);
    }
    if ExecutedTransfer(c, now, ITS_HUB_CHAIN_NAME, r.messageId, c.hubAddress, m.payload, 0, delivered).Some? {
      DestinationIsPaid(c, now, ITS_HUB_CHAIN_NAME, r.messageId, c.hubAddress, m.payload, 0, delivered, who);
    }
  }

  lemma OneStep(w: World, events: seq<Event>, i: nat)
    requires i < |events|
    ensures After(w, events, i + 1) == Next(After(w, events, i), events[i])
  {
    hide Next;
  }

  lemma TokenIs(w: World, v: World, i: nat)
    requires SameShape(w, v) && Inv(v) && i < |v.chains|
    ensures v.chains[i].tokenId == w.tokenId
  {
    hide ManagerOk, Matching, Conserved;
    assert ChainOk(v.tokenId, v.chains[i]);
  }

  lemma ArrivesWhenOpen(c: Chain, now: nat, p: Payload, delivered: bool)
    requires p.InterchainTransfer? && p.tokenId == c.tokenId
    ensures forall name :: name in c.trusted ==> (MayArrive(c, now, p, 0, delivered) <==> Open(c, now, name, p, delivered))
  {
    hide FlowLimit.Allows;
  }
}
