/** The proxy that forwards incoming tokens to a contract on another shard, keeps those whose call failed, and lets
    anyone retry. */
module ProxySpec {
  import opened ByteStrings
  import opened ChainTypes
  import opened Keccak
  import opened Abi

  datatype CallKey = CallKey(sourceChain: bytes, messageId: ManagedBuffer, sourceAddress: bytes, data: bytes, tokenId: Word)
  datatype Tokens = Tokens(identifier: TokenIdentifier, amount: nat)

  /** A call on its way to the other contract, with the tokens it carries. */
  datatype Promise = Promise(key: CallKey, tokens: Tokens)

  /** No payment reads as zero EGLD. */
  function Attached(payment: Option<Tokens>): Tokens {
    match payment
    case None => Tokens(Egld, 0)
    case Some(tokens) => tokens
  }

  /** The failed calls left in storage, and the call sent. */
  function Forward(failed: map<CallKey, Tokens>, fromService: bool, key: CallKey, payment: Option<Tokens>, enoughGas: bool)
    : Option<(map<CallKey, Tokens>, Promise)>
  {
    if !enoughGas then None
    else if fromService then Some((failed, Promise(key, Attached(payment))))
    else if key in failed && payment.None? then Some((failed - {key}, Promise(key, failed[key])))
    else None
  }

  function Finish(failed: map<CallKey, Tokens>, p: Promise, ok: bool): map<CallKey, Tokens> {
    if ok then failed else failed[p.key := p.tokens]
  }
}

module ProxyContract {
  import opened ByteStrings
  import opened Keccak
  import opened ProxySpec

  class Proxy {
    const service: Address
    var failedCalls: map<CallKey, Tokens>

    constructor (service: Address)
      ensures this.service == service && failedCalls == map[]
    {
      this.service, failedCalls := service, map[];
    }

    /** Takes the stored entry before the gas is checked; without enough gas it is put back. */
    method ExecuteWithInterchainToken(caller: Address, key: CallKey, payment: Option<Tokens>, enoughGas: bool)
      returns (sent: Option<Promise>)
      modifies this
      ensures var r := Forward(old(failedCalls), caller == service, key, payment, enoughGas);
        if r.None? then sent.None? && failedCalls == old(failedCalls) else sent.Some? && r.value == (failedCalls, sent.value)
    {
      var before := failedCalls;
      var tokens;
      if caller == service {
        tokens := Attached(payment);
      } else {
        if key !in failedCalls || payment.Some? { return None; }
        tokens := failedCalls[key];
        failedCalls := failedCalls - {key};
      }
      if !enoughGas {
        failedCalls := before;
        return None;
      }
      sent := Some(Promise(key, tokens));
    }

    method ExecuteCallback(p: Promise, ok: bool)
      modifies this
      ensures failedCalls == Finish(old(failedCalls), p, ok)
    {
      if !ok {
        failedCalls := failedCalls[p.key := p.tokens];
      }
    }
  }
}

/** The proxy with its calls in flight. The ledger records every call received, delivered, or overwritten in storage. */
module ProxyLedger {
  import opened ByteStrings
  import opened ChainTypes
  import opened Keccak
  import opened ProxySpec
  import Sums

  datatype Ledger = Ledger(failed: map<CallKey, Tokens>, inFlight: seq<Promise>,
                           received: seq<Promise>, delivered: seq<Promise>, lost: seq<Promise>)

  const EMPTY: Ledger := Ledger(map[], [], [], [], [])

  datatype Event =
    | Receive(key: CallKey, payment: Option<Tokens>, enoughGas: bool)
    | Retry(key: CallKey, payment: Option<Tokens>, enoughGas: bool)
    | Callback(k: nat, ok: bool)

  function Overwritten(l: Ledger, p: Promise, ok: bool): seq<Promise> {
    if !ok && p.key in l.failed then [Promise(p.key, l.failed[p.key])] else []
  }

  function Next(l: Ledger, e: Event): Ledger {
    match e
    case Receive(key, payment, enoughGas) =>
      (match Forward(l.failed, true, key, payment, enoughGas)
       case None => l
       case Some(r) => l.(failed := r.0, inFlight := l.inFlight + [r.1], received := l.received + [r.1]))
    case Retry(key, payment, enoughGas) =>
      (match Forward(l.failed, false, key, payment, enoughGas)
       case None => l
       case Some(r) => l.(failed := r.0, inFlight := l.inFlight + [r.1]))
    case Callback(k, ok) =>
      if k >= |l.inFlight| then l
      else
        var p := l.inFlight[k];
        Ledger(Finish(l.failed, p, ok), Sums.Without(l.inFlight, k), l.received,
               if ok then l.delivered + [p] else l.delivered, l.lost + Overwritten(l, p, ok))
  }

  function After(events: seq<Event>, n: nat): Ledger
    requires n <= |events|
    decreases n
  {
    if n == 0 then EMPTY else Next(After(events, n - 1), events[n - 1])
  }

  // ---------- amounts ----------

  function AmountOf(token: TokenIdentifier): Promise -> int {
    (p: Promise) => if p.tokens.identifier == token then p.tokens.amount else 0
  }

  function Total(s: seq<Promise>, token: TokenIdentifier): int { Sums.Sum(AmountOf(token), s) }

  function PartOf(token: TokenIdentifier): Tokens -> int {
    (t: Tokens) => if t.identifier == token then t.amount else 0
  }

  ghost function Stored(failed: map<CallKey, Tokens>, token: TokenIdentifier): int { Sums.OverMap(PartOf(token), failed) }

  ghost predicate Balanced(l: Ledger, token: TokenIdentifier) {
    Total(l.received, token)
      == Total(l.delivered, token) + Total(l.inFlight, token) + Stored(l.failed, token) + Total(l.lost, token)
  }

  lemma StepBalanced(l: Ledger, e: Event, token: TokenIdentifier)
    requires Balanced(l, token)
    ensures Balanced(Next(l, e), token)
  {
    hide Sums.Sum, Sums.OverMap;
    var f := AmountOf(token);
    match e {
      case Receive(key, payment, enoughGas) =>
        Sums.Append(f, l.inFlight, Promise(key, Attached(payment)));
        Sums.Append(f, l.received, Promise(key, Attached(payment)));
      case Retry(key, payment, enoughGas) =>
        if key in l.failed {
          Sums.TakeOut(PartOf(token), l.failed, key);
          Sums.Append(f, l.inFlight, Promise(key, l.failed[key]));
        }
      case Callback(k, ok) =>
        if k < |l.inFlight| {
          var p := l.inFlight[k];
          Sums.Remove(f, l.inFlight, k);
          Sums.Append(f, l.delivered, p);
          Sums.PutIn(PartOf(token), l.failed, p.key, p.tokens);
          if p.key in l.failed {
            Sums.Append(f, l.lost, Promise(p.key, l.failed[p.key]));
          }
          assert l.lost + [] == l.lost;
        }
    }
  }

  lemma EmptySums(token: TokenIdentifier)
    ensures Balanced(EMPTY, token)
  {
  }

  /** In every run and for every token: received from the service = delivered + in flight + stored as failed
      + overwritten in storage. */
  lemma {:induction false} EveryTokenAccountedFor(events: seq<Event>, n: nat, token: TokenIdentifier)
    requires n <= |events|
    ensures Balanced(After(events, n), token)
    decreases n
  {
    hide Balanced, Next;
    if n == 0 {
      EmptySums(token);
    } else {
      EveryTokenAccountedFor(events, n - 1, token);
      StepBalanced(After(events, n - 1), events[n - 1], token);
    }
  }

  // ---------- phases ----------

  function KeyIs(key: CallKey): Promise -> int { (p: Promise) => if p.key == key then 1 else 0 }

  function Count(s: seq<Promise>, key: CallKey): int { Sums.Sum(KeyIs(key), s) }

  function StoredCount(l: Ledger, key: CallKey): int { if key in l.failed then 1 else 0 }

  /** Every received call is in exactly one place, as it was received, and none was overwritten. */
  ghost predicate OnePhase(l: Ledger) {
    && l.lost == []
    && (forall key :: Count(l.received, key) == Count(l.inFlight, key) + StoredCount(l, key) + Count(l.delivered, key))
    && (forall p :: p in l.inFlight || p in l.delivered ==> p in l.received)
    && (forall key :: key in l.failed ==> Promise(key, l.failed[key]) in l.received)
  }

  ghost predicate DistinctKeys(l: Ledger) {
    forall key :: Count(l.received, key) <= 1
  }

  lemma CountNonNegative(s: seq<Promise>, key: CallKey)
    ensures Count(s, key) >= 0
    ensures forall p :: p in s && p.key == key ==> Count(s, key) >= 1
  {
    Sums.NonNegative(KeyIs(key), s);
    forall p | p in s && p.key == key ensures Count(s, key) >= 1 {
      assert KeyIs(key)(p) == 1;
    }
  }

  lemma PhaseStep(l: Ledger, e: Event)
    requires OnePhase(l) && DistinctKeys(Next(l, e))
    ensures OnePhase(Next(l, e))
  {
    var m := Next(l, e);
    hide Sums.Sum, Count;
    forall key { CountsStep(l, e, key); }
    if e.Callback? && e.k < |l.inFlight| {
      var p := l.inFlight[e.k];
      CountNonNegative(l.inFlight, p.key);
      CountNonNegative(l.delivered, p.key);
      assert Count(l.received, p.key) <= 1;
      assert p in l.inFlight;
    }
  }

  lemma CountsStep(l: Ledger, e: Event, key: CallKey)
    ensures Count(Next(l, e).received, key) - Count(l.received, key)
      == if e.Receive? && e.enoughGas && e.key == key then 1 else 0
    ensures Count(Next(l, e).inFlight, key) - Count(l.inFlight, key)
      == if e.Receive? && e.enoughGas && e.key == key then 1
         else if e.Retry? && e.enoughGas && e.payment.None? && e.key == key && key in l.failed then 1
         else if e.Callback? && e.k < |l.inFlight| && l.inFlight[e.k].key == key then -1
         else 0
    ensures Count(Next(l, e).delivered, key) - Count(l.delivered, key)
      == if e.Callback? && e.ok && e.k < |l.inFlight| && l.inFlight[e.k].key == key then 1 else 0
  {
    hide Sums.Sum;
    var f := KeyIs(key);
    match e {
      case Receive(k, payment, enoughGas) =>
        Sums.Append(f, l.inFlight, Promise(k, Attached(payment)));
        Sums.Append(f, l.received, Promise(k, Attached(payment)));
      case Retry(k, payment, enoughGas) =>
        if k in l.failed { Sums.Append(f, l.inFlight, Promise(k, l.failed[k])); }
      case Callback(k, ok) =>
        if k < |l.inFlight| {
          Sums.Remove(f, l.inFlight, k);
          Sums.Append(f, l.delivered, l.inFlight[k]);
        }
    }
  }

  lemma DistinctBefore(l: Ledger, e: Event)
    requires DistinctKeys(Next(l, e))
    ensures DistinctKeys(l)
  {
    hide Count;
    forall key ensures Count(l.received, key) <= 1 {
      CountsStep(l, e, key);
      assert Count(Next(l, e).received, key) <= 1;
    }
  }

  /** As long as the service passes on each call at most once, nothing is lost: each call is in flight, stored, or
      delivered, with exactly the tokens it came with, retries included. */
  lemma {:induction false} NothingLost(events: seq<Event>, n: nat)
    requires n <= |events| && DistinctKeys(After(events, n))
    ensures OnePhase(After(events, n))
    decreases n
  {
    hide Next, DistinctKeys;
    if n > 0 {
      DistinctBefore(After(events, n - 1), events[n - 1]);
      NothingLost(events, n - 1);
      PhaseStep(After(events, n - 1), events[n - 1]);
    }
  }

  /** Without that, tokens can be lost: the same call twice, both failing. */
  lemma LossPossible(key: CallKey, tokens: Tokens)
    ensures var events := [Receive(key, Some(tokens), true), Receive(key, Some(tokens), true), Callback(0, false), Callback(0, false)];
      After(events, 4).lost == [Promise(key, tokens)] && After(events, 4).inFlight == []
  {
    var events := [Receive(key, Some(tokens), true), Receive(key, Some(tokens), true), Callback(0, false), Callback(0, false)];
    var p := Promise(key, tokens);
    assert After(events, 1) == Ledger(map[], [p], [p], [], []);
    assert After(events, 2) == Ledger(map[], [p, p], [p, p], [], []);
    assert After(events, 3) == Ledger(map[key := tokens], [p], [p, p], [], []);
  }
}
