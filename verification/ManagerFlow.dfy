/** The flow limit as the token managers use it: every manager's recorded flow is that of the transfers it carried out. */
module ManagerFlow {
  import opened ByteStrings
  import opened ChainTypes
  import opened Keccak
  import opened TokenManagerTypes
  import opened FlowLimit
  import opened FlowLimitRuns
  import TM = TokenManagerSpec
  import TMR = TokenManagerRuns

  /** What a transaction of the manager means for the flow limit; a failed one means nothing. */
  function FlowEvent(s: TM.TmState, tx: TMR.Tx): seq<Event> {
    if TM.Apply(s, tx.now, tx.caller, tx.call).None? then []
    else
      match tx.call
      case GiveToken(_, amount) => [Move(tx.now, In, amount)]
      case TakeToken(_, amount) => [Move(tx.now, Out, amount)]
      case SetFlowLimit(limit) => [SetLimit(tx.now, limit)]
      case _ => []
  }

  function FlowEvents(s: TM.TmState, txs: seq<TMR.Tx>, n: nat): seq<Event>
    requires n <= |txs|
    decreases n
  {
    if n == 0 then [] else FlowEvents(s, txs, n - 1) + FlowEvent(TMR.After(s, txs, n - 1), txs[n - 1])
  }

  lemma {:induction false} FlowPrefix(events: seq<Event>, more: seq<Event>, n: nat)
    requires n <= |events|
    ensures After(EMPTY, events + more, n) == After(EMPTY, events, n)
    decreases n
  {
    hide Step;
    if n > 0 { FlowPrefix(events, more, n - 1); }
  }

  lemma {:induction false} FlowStep(s: TM.TmState, tx: TMR.Tx)
    ensures TM.Step(s, tx.now, tx.caller, tx.call).flow
         == (if FlowEvent(s, tx) == [] then s.flow else Step(s.flow, FlowEvent(s, tx)[0]))
    ensures |FlowEvent(s, tx)| <= 1 && (forall e :: e in FlowEvent(s, tx) ==> e.now == tx.now)
    ensures FlowEvent(s, tx) != [] && FlowEvent(s, tx)[0].Move? ==>
      Moved(s.flow, tx.now, FlowEvent(s, tx)[0].direction, FlowEvent(s, tx)[0].amount).Some?
  {
    hide AddFlow, TM.Debit, TM.Credit, TMR.Roles.TransferRole, TMR.Roles.AcceptRole, TMR.Roles.ProposeRole;
  }

  /** In every run the manager's flow is that of its flow events, all of whose movements were accepted. */
  lemma {:induction false} FlowsAgree(s: TM.TmState, txs: seq<TMR.Tx>, n: nat)
    requires s.flow == EMPTY && n <= |txs|
    ensures var events := FlowEvents(s, txs, n);
      && TMR.After(s, txs, n).flow == After(EMPTY, events, |events|)
      && (forall k :: 0 <= k < |events| && events[k].Move? ==> AcceptedMove(EMPTY, events, k))
    decreases n
  {
    hide TM.Step, Step, FlowEvent, Moved;
    if n > 0 {
      FlowsAgree(s, txs, n - 1);
      var u, before := TMR.After(s, txs, n - 1), FlowEvents(s, txs, n - 1);
      var more := FlowEvent(u, txs[n - 1]);
      FlowStep(u, txs[n - 1]);
      forall k | 0 <= k <= |before| { FlowPrefix(before, more, k); }
      assert before + [] == before;
    }
  }

  /** In every run of a manager, recorded in- and outflow of an epoch differ by at most the largest limit used in it. */
  lemma {:induction false} ManagerEpochBound(s: TM.TmState, txs: seq<TMR.Tx>, n: nat, epoch: nat)
    requires s.flow == EMPTY && n <= |txs|
    ensures var events := FlowEvents(s, txs, n);
      Within(Net(TMR.After(s, txs, n).flow, epoch), LargestLimit(EMPTY, events, |events|, epoch))
  {
    hide Net, LargestLimit, TMR.After, FlowEvents, After;
    FlowsAgree(s, txs, n);
    EpochBound(FlowEvents(s, txs, n), |FlowEvents(s, txs, n)|, epoch);
  }

  // ---------- windows ----------

  predicate Ordered(txs: seq<TMR.Tx>) {
    forall i, j :: 0 <= i <= j < |txs| ==> txs[i].now <= txs[j].now
  }

  /** Tokens the manager gave minus tokens it took in transactions [i, j). */
  function NetGiven(s: TM.TmState, txs: seq<TMR.Tx>, i: nat, j: nat): int
    requires i <= j <= |txs|
    decreases j
  {
    if i == j then 0
    else
      var tx := txs[j - 1];
      NetGiven(s, txs, i, j - 1)
      + if TM.Apply(TMR.After(s, txs, j - 1), tx.now, tx.caller, tx.call).None? then 0
        else if tx.call.GiveToken? then tx.call.amount
        else if tx.call.TakeToken? then 0 - tx.call.amount
        else 0
  }

  /** From transaction i on the limit is `limit`: it is so at i, and nobody sets another before j. */
  predicate LimitIs(s: TM.TmState, txs: seq<TMR.Tx>, i: nat, j: nat, limit: nat)
    requires i <= j <= |txs|
  {
    && TMR.After(s, txs, i).flow.limit == Some(limit)
    && (forall k :: i <= k < j && txs[k].call.SetFlowLimit? ==> txs[k].call.limit == Some(limit))
  }

  /** The flow events of transactions i..n come after those before i, in time as well. */
  lemma {:induction false} EventsFrom(s: TM.TmState, txs: seq<TMR.Tx>, i: nat, n: nat, limit: nat)
    requires i <= n <= |txs| && Ordered(txs)
    requires forall k :: i <= k < n && txs[k].call.SetFlowLimit? ==> txs[k].call.limit == Some(limit)
    ensures |FlowEvents(s, txs, i)| <= |FlowEvents(s, txs, n)|
    ensures FlowEvents(s, txs, n)[..|FlowEvents(s, txs, i)|] == FlowEvents(s, txs, i)
    ensures forall k :: |FlowEvents(s, txs, i)| <= k < |FlowEvents(s, txs, n)| ==>
      var e := FlowEvents(s, txs, n)[k];
      i < n && txs[i].now <= e.now <= txs[n - 1].now && (e.SetLimit? ==> e.newLimit == Some(limit))
    decreases n
  {
    hide TMR.After, TM.Apply, FlowEvent;
    if i < n {
      EventsFrom(s, txs, i, n - 1, limit);
      EventIs(TMR.After(s, txs, n - 1), txs[n - 1]);
      FlowEventsNext(s, txs, n);
    }
  }

  lemma EventIs(s: TM.TmState, tx: TMR.Tx)
    ensures |FlowEvent(s, tx)| <= 1
    ensures forall e :: e in FlowEvent(s, tx) ==>
      e.now == tx.now && (e.SetLimit? ==> tx.call.SetFlowLimit? && e.newLimit == tx.call.limit)
  {
    hide TM.Apply;
  }

  lemma FlowEventsNext(s: TM.TmState, txs: seq<TMR.Tx>, n: nat)
    requires 0 < n <= |txs|
    ensures FlowEvents(s, txs, n) == FlowEvents(s, txs, n - 1) + FlowEvent(TMR.After(s, txs, n - 1), txs[n - 1])
  {
  }

  lemma {:induction false} EventsOrdered(s: TM.TmState, txs: seq<TMR.Tx>, n: nat)
    requires n <= |txs| && Ordered(txs)
    ensures TimeMonotone(FlowEvents(s, txs, n))
    ensures forall k :: 0 <= k < |FlowEvents(s, txs, n)| ==> n > 0 && FlowEvents(s, txs, n)[k].now <= txs[n - 1].now
    decreases n
  {
    hide TMR.After, TM.Apply;
    if n > 0 { EventsOrdered(s, txs, n - 1); }
  }

  lemma {:induction false} NetFlowPrefix(events: seq<Event>, more: seq<Event>, i: nat, j: nat)
    requires i <= j <= |events|
    ensures NetFlow(EMPTY, events + more, i, j) == NetFlow(EMPTY, events, i, j)
    decreases j
  {
    hide Step, Moved;
    if i < j {
      FlowPrefix(events, more, j - 1);
      NetFlowPrefix(events, more, i, j - 1);
    }
  }

  /** One more event, which is accepted if it is a movement. */
  lemma {:induction false} NetFlowNext(events: seq<Event>, e: Event, i: nat)
    requires i <= |events| && (e.Move? ==> AcceptedMove(EMPTY, events + [e], |events|))
    ensures NetFlow(EMPTY, events + [e], i, |events| + 1)
         == NetFlow(EMPTY, events, i, |events|) + if e.Move? then Signed(e.direction, e.amount) else 0
  {
    hide Moved, After;
    NetFlowPrefix(events, [e], i, |events|);
  }

  lemma GivenOf(s: TM.TmState, txs: seq<TMR.Tx>, i: nat, j: nat)
    requires i < j <= |txs|
    ensures var more := FlowEvent(TMR.After(s, txs, j - 1), txs[j - 1]);
      && |more| <= 1
      && NetGiven(s, txs, i, j) == NetGiven(s, txs, i, j - 1)
           + if more != [] && more[0].Move? then Signed(more[0].direction, more[0].amount) else 0
  {
    hide TM.Apply, TMR.After;
  }

  /** What the manager gave and took is the net flow of its flow events. */
  lemma {:induction false} NetGivenIsFlow(s: TM.TmState, txs: seq<TMR.Tx>, i: nat, j: nat)
    requires s.flow == EMPTY && i <= j <= |txs|
    ensures |FlowEvents(s, txs, i)| <= |FlowEvents(s, txs, j)|
    ensures NetGiven(s, txs, i, j) == NetFlow(EMPTY, FlowEvents(s, txs, j), |FlowEvents(s, txs, i)|, |FlowEvents(s, txs, j)|)
    decreases j
  {
    hide FlowEvent, TMR.After, AcceptedMove, FlowEvents, NetGiven, NetFlow;
    if i < j {
      NetGivenIsFlow(s, txs, i, j - 1);
      GivenOf(s, txs, i, j);
      FlowEventsNext(s, txs, j);
      FlowsAgree(s, txs, j);
      var before := FlowEvents(s, txs, j - 1);
      var more := FlowEvent(TMR.After(s, txs, j - 1), txs[j - 1]);
      if more == [] {
        assert before + more == before;
      } else {
        assert more == [more[0]];
        NetFlowNext(before, more[0], |FlowEvents(s, txs, i)|);
      }
    } else {
      NothingGiven(s, txs, i);
      NoFlow(FlowEvents(s, txs, i), |FlowEvents(s, txs, i)|);
    }
  }

  lemma {:induction false} NothingGiven(s: TM.TmState, txs: seq<TMR.Tx>, i: nat)
    requires i <= |txs|
    ensures NetGiven(s, txs, i, i) == 0
  {
  }

  lemma {:induction false} NoFlow(events: seq<Event>, i: nat)
    requires i <= |events|
    ensures NetFlow(EMPTY, events, i, i) == 0
  {
  }

  lemma {:induction false} TouchedWithin(events: seq<Event>, i: nat, j: nat)
    requires i < j <= |events| && TimeMonotone(events)
    ensures EpochsTouched(events, i, j) <= Epoch(events[j - 1].now) - Epoch(events[i].now) + 1
    decreases j
  {
    if j > i + 1 {
      TouchedWithin(events, i, j - 1);
      FlowLimitRuns.Ordered(events, j - 2, j - 1);
    }
  }

  lemma Scale(a: nat, b: int, limit: nat)
    requires a <= b
    ensures a * limit <= b * limit
  {
    assert (b - a) * limit >= 0;
  }

  /** The same bound with the window's epochs counted by the clock. */
  lemma {:induction false} ClockBound(events: seq<Event>, p: nat, from: nat, to: nat, limit: nat)
    requires p < |events| && TimeMonotone(events) && LimitHolds(events, p, |events|, limit)
    requires (p > 0 ==> events[p - 1].now <= from) && from <= events[p].now && events[|events| - 1].now <= to
    ensures Within(NetFlow(EMPTY, events, p, |events|),
                   (Epoch(to) - Epoch(from) + 1) * limit + LargestLimit(EMPTY, events, p, Epoch(from)))
  {
    hide After, LargestLimit, NetFlow, EpochsTouched, Epoch;
    var k := Epoch(to) - Epoch(from) + 1;
    WindowBound(events, p, |events|, limit);
    TouchedWithin(events, p, |events|);
    EpochMonotone(from, events[p].now);
    EpochMonotone(events[|events| - 1].now, to);
    Scale(EpochsTouched(events, p, |events|), k, limit);
    if Epoch(from) < Epoch(events[p].now) {
      if p > 0 { EpochMonotone(events[p - 1].now, from); }
      FutureEpochEmpty(events, p, Epoch(events[p].now));
    }
  }

  lemma {:induction false} LimitCarriesOver(s: TM.TmState, txs: seq<TMR.Tx>, i: nat, j: nat, limit: nat)
    requires s.flow == EMPTY && i < j <= |txs| && Ordered(txs) && LimitIs(s, txs, i, j, limit)
    ensures |FlowEvents(s, txs, i)| <= |FlowEvents(s, txs, j)|
    ensures LimitHolds(FlowEvents(s, txs, j), |FlowEvents(s, txs, i)|, |FlowEvents(s, txs, j)|, limit)
  {
    hide TMR.After, TM.Apply, After, FlowEvents, Ordered;
    var before, events := FlowEvents(s, txs, i), FlowEvents(s, txs, j);
    EventsFrom(s, txs, i, j, limit);
    FlowsAgree(s, txs, i);
    assert events == before + events[|before|..];
    FlowPrefix(before, events[|before|..], |before|);
  }

  /** In every run of a manager and any window of it during which the limit is L: the net amount given is at most k L, k
      the number of epochs from the first to the last transaction, plus the largest limit used earlier in the first. */
  lemma {:induction false} ManagerWindowBound(s: TM.TmState, txs: seq<TMR.Tx>, i: nat, j: nat, limit: nat)
    requires s.flow == EMPTY && i < j <= |txs| && Ordered(txs) && LimitIs(s, txs, i, j, limit)
    ensures var events := FlowEvents(s, txs, j);
      |FlowEvents(s, txs, i)| <= |events|
      && Within(NetGiven(s, txs, i, j),
                (Epoch(txs[j - 1].now) - Epoch(txs[i].now) + 1) * limit
                + LargestLimit(EMPTY, events, |FlowEvents(s, txs, i)|, Epoch(txs[i].now)))
  {
    hide TMR.After, After, LargestLimit, NetFlow, NetGiven, FlowEvents, TimeMonotone, LimitHolds, LimitIs, Epoch;
    var before, events := FlowEvents(s, txs, i), FlowEvents(s, txs, j);
    NetGivenIsFlow(s, txs, i, j);
    LimitCarriesOver(s, txs, i, j, limit);
    WindowTimes(s, txs, i, j, limit);
    EpochMonotone(txs[i].now, txs[j - 1].now);
    Scale(0, Epoch(txs[j - 1].now) - Epoch(txs[i].now) + 1, limit);
    if |before| == |events| {
      NoFlow(events, |before|);
    } else {
      ClockBound(events, |before|, txs[i].now, txs[j - 1].now, limit);
    }
  }

  lemma WindowTimes(s: TM.TmState, txs: seq<TMR.Tx>, i: nat, j: nat, limit: nat)
    requires i < j <= |txs| && Ordered(txs) && LimitIs(s, txs, i, j, limit)
    ensures var before, events := FlowEvents(s, txs, i), FlowEvents(s, txs, j);
      && |before| <= |events| && TimeMonotone(events)
      && (before != [] ==> events[|before| - 1].now <= txs[i].now)
      && (|before| < |events| ==> txs[i].now <= events[|before|].now && events[|events| - 1].now <= txs[j - 1].now)
  {
    hide TMR.After, FlowEvents, TimeMonotone;
    var before, events := FlowEvents(s, txs, i), FlowEvents(s, txs, j);
    EventsFrom(s, txs, i, j, limit);
    EventsOrdered(s, txs, i);
    EventsOrdered(s, txs, j);
    if before != [] { assert events[|before| - 1] == before[|before| - 1]; }
  }
}
