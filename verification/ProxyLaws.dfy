/** What the proxy is handed, when it forwards, and how a failed call gets through in the end. */
module ProxyLaws {
  import opened ByteStrings
  import opened ChainTypes
  import opened Keccak
  import opened Preimages
  import opened Signatures
  import opened Abi
  import opened Payloads
  import opened GatewaySpec
  import opened TokenServiceSpec
  import TM = TokenManagerSpec
  import opened ProxySpec
  import opened ProxyRuns
  import L = ProxyLedger
  import Sums

  // ---------- forwarding ----------

  /** With enough gas a call from the service goes out with what is attached to it; anybody else's goes out exactly if it
      is stored as failed and nothing is attached, with the stored tokens, and is then no longer stored. */
  lemma ForwardsExactly(failed: map<CallKey, Tokens>, fromService: bool, key: CallKey, payment: Option<Tokens>, enoughGas: bool)
    ensures var r := Forward(failed, fromService, key, payment, enoughGas);
      && (r.Some? <==> enoughGas && (fromService || (key in failed && payment.None?)))
      && (r.Some? ==>
            && r.value.1.key == key
            && r.value.1.tokens == (if !fromService then failed[key] else if payment.Some? then payment.value else Tokens(Egld, 0))
            && (forall k :: k in r.value.0 <==> k in failed && (fromService || k != key))
            && (forall k :: k in r.value.0 ==> r.value.0[k] == failed[k]))
  {
  }

  /** A failed call is stored under its own key with its own tokens; nothing else changes. */
  lemma FinishesExactly(failed: map<CallKey, Tokens>, p: Promise, ok: bool)
    ensures var after := Finish(failed, p, ok);
      && (forall k :: k in after <==> k in failed || (!ok && k == p.key))
      && (forall k :: k in after ==> after[k] == if !ok && k == p.key then p.tokens else failed[k])
  {
  }

  // ---------- no call is stuck ----------

  lemma OneWithKey(s: seq<Promise>, p: Promise, q: Promise)
    requires p in s && q in s && p.key == q.key && L.Count(s, p.key) <= 1
    ensures p == q
  {
    hide L.Count, Sums.Sum;
    var k :| 0 <= k < |s| && s[k] == p;
    var rest := Sums.Without(s, k);
    assert L.Count(rest, p.key) <= 0 by { CountWithout(s, k); }
    if p != q {
      var j :| 0 <= j < |s| && s[j] == q;
      assert rest[if j < k then j else j - 1] == q;
      L.CountNonNegative(rest, p.key);
      assert false;
    }
  }

  lemma CountWithout(s: seq<Promise>, k: nat)
    requires k < |s|
    ensures L.Count(Sums.Without(s, k), s[k].key) == L.Count(s, s[k].key) - 1
  {
    Sums.Remove(L.KeyIs(s[k].key), s, k);
  }

  lemma {:induction false} CountPresent(s: seq<Promise>, key: CallKey)
    requires L.Count(s, key) >= 1
    ensures exists p :: p in s && p.key == key
    decreases |s|
  {
    if s != [] {
      var last := |s| - 1;
      if s[last].key == key {
        assert s[last] in s;
      } else {
        Sums.Remove(L.KeyIs(key), s, last);
        assert Sums.Without(s, last) == s[..last];
        CountPresent(s[..last], key);
        var p :| p in s[..last] && p.key == key;
        assert p in s;
      }
    }
  }

  /** A call the proxy received, and that is neither on its way nor delivered, is stored with its tokens, and anybody's
      retry sends it again with just these tokens. */
  lemma WaitsForRetry(l: L.Ledger, p: Promise)
    requires L.OnePhase(l) && L.DistinctKeys(l) && p in l.received && p !in l.inFlight && p !in l.delivered
    ensures p.key in l.failed && l.failed[p.key] == p.tokens
    ensures L.Next(l, L.Retry(p.key, None, true)).inFlight == l.inFlight + [p]
  {
    hide L.Count, L.KeyIs, Sums.Sum;
    L.CountNonNegative(l.received, p.key);
    assert L.Count(l.received, p.key) == 1;
    if L.Count(l.inFlight, p.key) >= 1 {
      CountPresent(l.inFlight, p.key);
      var q :| q in l.inFlight && q.key == p.key;
      OneWithKey(l.received, p, q);
      assert false;
    }
    if L.Count(l.delivered, p.key) >= 1 {
      CountPresent(l.delivered, p.key);
      var q :| q in l.delivered && q.key == p.key;
      OneWithKey(l.received, p, q);
      assert false;
    }
    assert p.key in l.failed;
    OneWithKey(l.received, p, Promise(p.key, l.failed[p.key]));
  }

  /** So it is in every run of the proxy behind the service and the gateway. */
  lemma {:induction false} NoCallIsStuck(cfg: GatewaySpec.Config, verify: Verifier, w: Escrow, events: seq<Event>, n: nat, p: Promise)
    requires w.ledger == L.EMPTY && n <= |events| && p in After(cfg, verify, w, events, n).ledger.received
    ensures var v := After(cfg, verify, w, events, n);
      || p in v.ledger.inFlight || p in v.ledger.delivered
      || Next(cfg, verify, v, Retry(p.key, None, true)).ledger.inFlight == v.ledger.inFlight + [p]
  {
    hide After, L.OnePhase, L.DistinctKeys, L.Balanced;
    EscrowIsSafe(cfg, verify, w, events, n);
    var l := After(cfg, verify, w, events, n).ledger;
    if p !in l.inFlight && p !in l.delivered { WaitsForRetry(l, p); }
  }

  // ---------- what the proxy is handed ----------

  /** The message as the hub delivers it: a transfer wrapped with the chain it came from. */
  predicate Wrapped(payload: bytes, chain: bytes, p: Payload) {
    && p.InterchainTransfer? && p.messageType == 0
    && AbiEncode(p).Some? && Sendable(ReceiveFromHub(4, chain, AbiEncode(p).value))
    && AbiEncode(ReceiveFromHub(4, chain, AbiEncode(p).value)) == Some(payload)
  }

  lemma WrappedIsRead(c: Chain, messageId: ManagedBuffer, payload: bytes, chain: bytes, p: Payload)
    requires Wrapped(payload, chain, p)
    ensures chain in c.trusted ==>
      && IncomingTransfer(c.trusted, payload) == Some(p)
      && KeyOf(c, messageId, payload) == Some(CallKey(chain, messageId, p.sourceAddress, p.data, p.tokenId))
    ensures chain !in c.trusted ==> IncomingTransfer(c.trusted, payload).None?
  {
    hide AbiEncode, AbiDecode, Sendable, GetExecuteParams;
    ExecuteParamsOfWrapped(c.trusted, chain, p);
    PayloadRoundTrip(p);
  }

  /** When the service executes a transfer with data to the proxy, and the proxy has the gas, what goes on its way is the
      call named by the transfer's own chain, message, sender, data and token, with exactly the transfer's amount of the
      token. */
  lemma ProxyGetsTransfer(cfg: GatewaySpec.Config, verify: Verifier, w: Escrow, e: Event, chain: bytes, p: Payload)
    requires e.ServiceExecutes? && e.accepted && Wrapped(e.payload, chain, p) && chain in w.chain.trusted
    requires p.destinationAddress == w.proxy && p.data != []
    requires ExecutedTransfer(ChainNow(w), e.now, ITS_HUB_CHAIN_NAME, e.messageId, e.sourceAddress, e.payload, e.egld, true).Some?
    ensures var l := Next(cfg, verify, w, e).ledger;
      var tokens := if p.tokenId == w.chain.tokenId && w.chain.tm.identifier.Some? then w.chain.tm.identifier.value else e.otherToken;
      && l.received == w.ledger.received
           + [Promise(CallKey(chain, e.messageId, p.sourceAddress, p.data, p.tokenId), Tokens(tokens, p.amount))]
      && l.inFlight == w.ledger.inFlight + [l.received[|w.ledger.received|]]
      && l.failed == w.ledger.failed && l.delivered == w.ledger.delivered
  {
    hide ExecutedTransfer, IncomingTransfer, KeyOf, Wrapped;
    WrappedIsRead(ChainNow(w), e.messageId, e.payload, chain, p);
  }

  /** A transfer to somebody else, or without data, does not reach the proxy. */
  lemma OthersDoNot(cfg: GatewaySpec.Config, verify: Verifier, w: Escrow, e: Event, chain: bytes, p: Payload)
    requires e.ServiceExecutes? && Wrapped(e.payload, chain, p)
    requires chain !in w.chain.trusted || p.destinationAddress != w.proxy || p.data == []
    ensures Next(cfg, verify, w, e).ledger == w.ledger
  {
    hide KeyOf, Wrapped, MessageHash, IncomingTransfer, StateOf, Given;
    WrappedIsRead(ChainNow(w), e.messageId, e.payload, chain, p);
  }
}
