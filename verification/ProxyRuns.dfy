/** The proxy behind the token service and the gateway: the gateway lets the service execute a message only once, so
    the proxy sees each call only once. */
module ProxyRuns {
  import opened ByteStrings
  import opened ChainTypes
  import opened Keccak
  import opened Preimages
  import opened Signatures
  import opened Abi
  import opened Payloads
  import opened GatewaySpec
  import GatewayRuns
  import opened TokenServiceSpec
  import TM = TokenManagerSpec
  import opened ProxySpec
  import L = ProxyLedger

  /** `chain.messages` is the gateway's. `proxy` is the proxy's address. */
  datatype Escrow = Escrow(gateway: GatewayState, chain: Chain, proxy: Address, ledger: L.Ledger)

  /** Besides transfers, anything may be done at the gateway, by the service too. `otherToken` is what another token's
      manager pays out; `accepted` is whether the called contract agrees. */
  datatype Event =
    | CallGateway(tx: GatewaySpec.Tx)
    | ServiceExecutes(now: nat, messageId: ManagedBuffer, sourceAddress: ManagedBuffer, payload: bytes, egld: nat,
                      otherToken: TokenIdentifier, accepted: bool)
    | Retry(key: CallKey, payment: Option<Tokens>, enoughGas: bool)
    | Callback(k: nat, ok: bool)
    | ChangeChain(tm: TM.TmState, trusted: set<bytes>, paused: bool)

  function ChainNow(w: Escrow): Chain { w.chain.(messages := w.gateway.messages) }

  function KeyOf(c: Chain, messageId: ManagedBuffer, payload: bytes): Option<CallKey> {
    match IncomingTransfer(c.trusted, payload)
    case None => None
    case Some(p) =>
      match GetExecuteParams(c.trusted, payload)
      case None => None
      case Some(params) => Some(CallKey(params.1, messageId, p.sourceAddress, p.data, p.tokenId))
  }

  /** The tokens handed to the called contract. */
  function TokensPaid(c: Chain, p: Payload, otherToken: TokenIdentifier): Tokens
    requires p.InterchainTransfer?
  {
    if p.tokenId == c.tokenId && c.tm.identifier.Some? then Tokens(c.tm.identifier.value, p.amount)
    else Tokens(otherToken, p.amount)
  }

  /** A transfer with data to the proxy's address calls the proxy. */
  predicate CallsProxy(w: Escrow, p: Payload)
    requires p.InterchainTransfer?
  {
    p.destinationAddress == w.proxy && p.data != []
  }

  ghost function Next(cfg: Config, verify: Verifier, w: Escrow, e: Event): Escrow {
    match e
    case CallGateway(tx) =>
      w.(gateway := GatewaySpec.Step(cfg, verify, w.gateway, tx).0)
    case ServiceExecutes(now, messageId, sourceAddress, payload, egld, otherToken, accepted) =>
      var c := ChainNow(w);
      (match ExecutedTransfer(c, now, ITS_HUB_CHAIN_NAME, messageId, sourceAddress, payload, egld, accepted)
       case None => w
       case Some(c1) =>
         var w1 := w.(gateway := w.gateway.(messages := c1.messages), chain := c1);
         var p := IncomingTransfer(c.trusted, payload).value;
         if CallsProxy(w, p) && KeyOf(c, messageId, payload).Some?
         then w1.(ledger := L.Next(w.ledger, L.Receive(KeyOf(c, messageId, payload).value,
                                                       Some(TokensPaid(c, p, otherToken)), accepted)))
         else w1)
    case Retry(key, payment, enoughGas) => w.(ledger := L.Next(w.ledger, L.Retry(key, payment, enoughGas)))
    case Callback(k, ok) => w.(ledger := L.Next(w.ledger, L.Callback(k, ok)))
    case ChangeChain(tm, trusted, paused) => w.(chain := w.chain.(tm := tm, trusted := trusted, paused := paused))
  }

  ghost function After(cfg: Config, verify: Verifier, w: Escrow, events: seq<Event>, n: nat): Escrow
    requires n <= |events|
    decreases n
  {
    if n == 0 then w else Next(cfg, verify, After(cfg, verify, w, events, n - 1), events[n - 1])
  }

  function IdOf(key: CallKey): CrossChainId { CrossChainId(ITS_HUB_CHAIN_NAME, key.messageId) }

  /** A call was received at most once, and then its message is executed. */
  ghost predicate ReceivedExecuted(w: Escrow) {
    forall key :: L.Count(w.ledger.received, key) <= if StateOf(w.gateway.messages, IdOf(key)).Executed? then 1 else 0
  }

  lemma GatewayCallKeeps(cfg: Config, verify: Verifier, w: Escrow, tx: GatewaySpec.Tx)
    requires ReceivedExecuted(w)
    ensures ReceivedExecuted(w.(gateway := GatewaySpec.Step(cfg, verify, w.gateway, tx).0))
  {
    hide GatewaySpec.Step, StateOf, L.Count;
    forall key
      ensures L.Count(w.ledger.received, key)
        <= if StateOf(GatewaySpec.Step(cfg, verify, w.gateway, tx).0.messages, IdOf(key)).Executed? then 1 else 0
    {
      GatewayRuns.StepForward(cfg, verify, w.gateway, tx, IdOf(key));
      assert L.Count(w.ledger.received, key) <= if StateOf(w.gateway.messages, IdOf(key)).Executed? then 1 else 0;
    }
  }

  /** What executing a transfer does to the gateway's messages. */
  lemma ExecutionMarks(c: Chain, now: nat, messageId: ManagedBuffer, sourceAddress: ManagedBuffer, payload: bytes,
                       egld: nat, accepted: bool)
    requires ExecutedTransfer(c, now, ITS_HUB_CHAIN_NAME, messageId, sourceAddress, payload, egld, accepted).Some?
    ensures var id := CrossChainId(ITS_HUB_CHAIN_NAME, messageId);
      && StateOf(c.messages, id).Approved?
      && ExecutedTransfer(c, now, ITS_HUB_CHAIN_NAME, messageId, sourceAddress, payload, egld, accepted).value.messages
         == c.messages[id := MessageState.Executed]
      && IncomingTransfer(c.trusted, payload).Some? && KeyOf(c, messageId, payload).Some?
      && KeyOf(c, messageId, payload).value.messageId == messageId
  {
    hide TM.Give, MessageHash, GetExecuteParams;
  }

  lemma ExecutionKeeps(cfg: Config, verify: Verifier, w: Escrow, e: Event)
    requires ReceivedExecuted(w) && e.ServiceExecutes?
    ensures ReceivedExecuted(Next(cfg, verify, w, e))
  {
    hide ExecutedTransfer, IncomingTransfer, KeyOf, L.Count, L.Next;
    var c := ChainNow(w);
    var r := ExecutedTransfer(c, e.now, ITS_HUB_CHAIN_NAME, e.messageId, e.sourceAddress, e.payload, e.egld, e.accepted);
    if r.Some? {
      ExecutionMarks(c, e.now, e.messageId, e.sourceAddress, e.payload, e.egld, e.accepted);
      var v := Next(cfg, verify, w, e);
      var p := IncomingTransfer(c.trusted, e.payload).value;
      var event := L.Receive(KeyOf(c, e.messageId, e.payload).value, Some(TokensPaid(c, p, e.otherToken)), e.accepted);
      forall key ensures L.Count(v.ledger.received, key) <= if StateOf(v.gateway.messages, IdOf(key)).Executed? then 1 else 0 {
        assert L.Count(w.ledger.received, key) <= if StateOf(w.gateway.messages, IdOf(key)).Executed? then 1 else 0;
        L.CountsStep(w.ledger, event, key);
      }
    }
  }

  lemma StepKeeps(cfg: Config, verify: Verifier, w: Escrow, e: Event)
    requires ReceivedExecuted(w)
    ensures ReceivedExecuted(Next(cfg, verify, w, e))
  {
    hide GatewaySpec.Step, ExecutedTransfer, StateOf, L.Count;
    if e.CallGateway? {
      GatewayCallKeeps(cfg, verify, w, e.tx);
    } else if e.ServiceExecutes? {
      ExecutionKeeps(cfg, verify, w, e);
    } else {
      assert Next(cfg, verify, w, e).ledger.received == w.ledger.received;
    }
  }

  lemma {:induction false} AlwaysReceivedExecuted(cfg: Config, verify: Verifier, w: Escrow, events: seq<Event>, n: nat)
    requires w.ledger == L.EMPTY && n <= |events|
    ensures ReceivedExecuted(After(cfg, verify, w, events, n))
    decreases n
  {
    hide Next, StateOf;
    if n > 0 {
      hide ReceivedExecuted;
      AlwaysReceivedExecuted(cfg, verify, w, events, n - 1);
      StepKeeps(cfg, verify, After(cfg, verify, w, events, n - 1), events[n - 1]);
    }
  }

  /** The ledger part of a step. */
  lemma LedgerMoves(cfg: Config, verify: Verifier, w: Escrow, e: Event)
    ensures var l := Next(cfg, verify, w, e).ledger; l == w.ledger || exists step :: l == L.Next(w.ledger, step)
  {
    hide GatewaySpec.Step, ExecutedTransfer, IncomingTransfer, KeyOf, L.Next;
    if e.ServiceExecutes? {
      var c := ChainNow(w);
      if ExecutedTransfer(c, e.now, ITS_HUB_CHAIN_NAME, e.messageId, e.sourceAddress, e.payload, e.egld, e.accepted).Some? {
        ExecutionMarks(c, e.now, e.messageId, e.sourceAddress, e.payload, e.egld, e.accepted);
        var p := IncomingTransfer(c.trusted, e.payload).value;
        assert CallsProxy(w, p) ==> Next(cfg, verify, w, e).ledger == L.Next(w.ledger,
          L.Receive(KeyOf(c, e.messageId, e.payload).value, Some(TokensPaid(c, p, e.otherToken)), e.accepted));
      }
    } else if e.Retry? {
      assert Next(cfg, verify, w, e).ledger == L.Next(w.ledger, L.Retry(e.key, e.payment, e.enoughGas));
    } else if e.Callback? {
      assert Next(cfg, verify, w, e).ledger == L.Next(w.ledger, L.Callback(e.k, e.ok));
    }
  }

  /** With the gateway in front, nothing is ever overwritten: in every run each call the proxy received is in exactly
      one of in flight, stored as failed, or delivered, with the tokens it came with. */
  lemma {:induction false} EscrowIsSafe(cfg: Config, verify: Verifier, w: Escrow, events: seq<Event>, n: nat)
    requires w.ledger == L.EMPTY && n <= |events|
    ensures var l := After(cfg, verify, w, events, n).ledger;
      L.OnePhase(l) && L.DistinctKeys(l) && (forall token :: L.Balanced(l, token))
    decreases n
  {
    hide Next, StateOf, L.Balanced, L.Next, L.Count;
    AlwaysReceivedExecuted(cfg, verify, w, events, n);
    var v := After(cfg, verify, w, events, n);
    forall key ensures L.Count(v.ledger.received, key) <= 1 {
      assert L.Count(v.ledger.received, key) <= if StateOf(v.gateway.messages, IdOf(key)).Executed? then 1 else 0;
    }
    if n == 0 {
      forall token { L.EmptySums(token); }
      EmptyPhases();
    } else {
      EscrowIsSafe(cfg, verify, w, events, n - 1);
      var u := After(cfg, verify, w, events, n - 1);
      LedgerMoves(cfg, verify, u, events[n - 1]);
      if v.ledger != u.ledger {
        var step :| v.ledger == L.Next(u.ledger, step);
        L.PhaseStep(u.ledger, step);
        forall token ensures L.Balanced(v.ledger, token) { L.StepBalanced(u.ledger, step, token); }
      }
    }
  }

  lemma EmptyPhases()
    ensures L.OnePhase(L.EMPTY)
  {
  }
}
