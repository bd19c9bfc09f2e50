/** The flow limit of a token manager: recorded inflow and outflow per fixed epoch of six hours. */
module FlowLimit {
  import opened ByteStrings

  const EPOCH_TIME: nat := 21600

  datatype Flow = Flow(limit: Option<nat>, inflow: map<nat, nat>, outflow: map<nat, nat>)

  datatype Direction = In | Out

  function Epoch(now: nat): nat { now / 21600 }

  function Slot(slots: map<nat, nat>, epoch: nat): nat {
    if epoch in slots then slots[epoch] else 0
  }

  /** The new value of the slot, or failure. */
  function AddFlow(limit: nat, toAdd: nat, toCompare: nat, amount: nat): Option<nat> {
    if toAdd + amount <= toCompare + limit && amount <= limit then Some(toAdd + amount) else None
  }

  function AddFlowIn(f: Flow, now: nat, amount: nat): Option<Flow> {
    if f.limit.None? then Some(f)
    else
      match AddFlow(f.limit.value, Slot(f.inflow, Epoch(now)), Slot(f.outflow, Epoch(now)), amount)
      case None => None
      case Some(total) => Some(f.(inflow := f.inflow[Epoch(now) := total]))
  }

  function AddFlowOut(f: Flow, now: nat, amount: nat): Option<Flow> {
    if f.limit.None? then Some(f)
    else
      match AddFlow(f.limit.value, Slot(f.outflow, Epoch(now)), Slot(f.inflow, Epoch(now)), amount)
      case None => None
      case Some(total) => Some(f.(outflow := f.outflow[Epoch(now) := total]))
  }

  function Moved(f: Flow, now: nat, direction: Direction, amount: nat): Option<Flow> {
    if direction.In? then AddFlowIn(f, now, amount) else AddFlowOut(f, now, amount)
  }

  /** Recorded inflow minus recorded outflow of an epoch. */
  function Net(f: Flow, epoch: nat): int { Slot(f.inflow, epoch) - Slot(f.outflow, epoch) }

  /** The movement itself and the epoch's net after it stay within the limit, seen in the direction of the movement. */
  predicate Allows(f: Flow, now: nat, direction: Direction, amount: nat) {
    match f.limit
    case None => true
    case Some(limit) =>
      amount <= limit && (if direction.In? then Net(f, Epoch(now)) + amount <= limit else amount - Net(f, Epoch(now)) <= limit)
  }

  /** A movement is accepted exactly when the limit allows it. Without a limit nothing is recorded; with one, the amount
      is added on its side of the current epoch, and nothing else changes. */
  lemma MovedExactly(f: Flow, now: nat, direction: Direction, amount: nat)
    ensures Moved(f, now, direction, amount).Some? <==> Allows(f, now, direction, amount)
    ensures f.limit.None? ==> Moved(f, now, direction, amount) == Some(f)
    ensures Moved(f, now, direction, amount).Some? && f.limit.Some? ==>
      var g := Moved(f, now, direction, amount).value;
      && g.limit == f.limit
      && (forall epoch :: Slot(g.inflow, epoch) == Slot(f.inflow, epoch)
            + if direction.In? && epoch == Epoch(now) then amount else 0)
      && (forall epoch :: Slot(g.outflow, epoch) == Slot(f.outflow, epoch)
            + if direction.Out? && epoch == Epoch(now) then amount else 0)
  {
  }

  /** Epochs are six hours long. */
  lemma EpochLength(now: nat)
    ensures Epoch(now) * 21600 <= now < (Epoch(now) + 1) * 21600 && 21600 == 6 * 60 * 60
  {
  }
}

/** What the limit bounds, over any sequence of limit changes and accepted or rejected flows. */
module FlowLimitRuns {
  import opened ByteStrings
  import opened FlowLimit

  datatype Event =
    | SetLimit(now: nat, newLimit: Option<nat>)
    | Move(now: nat, direction: Direction, amount: nat)

  const EMPTY: Flow := Flow(None, map[], map[])

  function Step(f: Flow, e: Event): Flow {
    match e
    case SetLimit(_, newLimit) => f.(limit := newLimit)
    case Move(now, direction, amount) =>
      match Moved(f, now, direction, amount)
      case None => f
      case Some(g) => g
  }

  function After(start: Flow, events: seq<Event>, n: nat): Flow
    requires n <= |events|
  {
    if n == 0 then start else Step(After(start, events, n - 1), events[n - 1])
  }

  predicate AcceptedMove(start: Flow, events: seq<Event>, i: nat)
    requires i < |events|
  {
    events[i].Move? && Moved(After(start, events, i), events[i].now, events[i].direction, events[i].amount).Some?
  }

  predicate Within(x: int, bound: int) { -bound <= x <= bound }

  // ---------- within one epoch ----------

  /** The largest limit in force at an accepted flow of the epoch so far. */
  function LargestLimit(start: Flow, events: seq<Event>, n: nat, epoch: nat): nat
    requires n <= |events|
  {
    if n == 0 then 0
    else
      var before := LargestLimit(start, events, n - 1, epoch);
      if !AcceptedMove(start, events, n - 1) || Epoch(events[n - 1].now) != epoch then before
      else
        match After(start, events, n - 1).limit
        case None => before
        case Some(l) => if before < l then l else before
  }

  lemma StepNet(f: Flow, e: Event, epoch: nat, bound: nat)
    requires Within(Net(f, epoch), bound)
    requires (e.Move? && Epoch(e.now) == epoch && f.limit.Some? && Moved(f, e.now, e.direction, e.amount).Some?) ==>
               f.limit.value <= bound
    ensures Within(Net(Step(f, e), epoch), bound)
  {
  }

  /** Recorded in- and outflow of an epoch never differ by more than the largest limit used in it. */
  lemma {:induction false} EpochBound(events: seq<Event>, n: nat, epoch: nat)
    requires n <= |events|
    ensures Within(Net(After(EMPTY, events, n), epoch), LargestLimit(EMPTY, events, n, epoch))
  {
    if n > 0 {
      hide Step, Net, Moved;
      EpochBound(events, n - 1, epoch);
      var f := After(EMPTY, events, n - 1);
      assert Within(Net(f, epoch), LargestLimit(EMPTY, events, n, epoch));
      StepNet(f, events[n - 1], epoch, LargestLimit(EMPTY, events, n, epoch));
    } else {
      assert Net(EMPTY, epoch) == 0;
    }
  }

  // ---------- across epochs ----------

  predicate TimeMonotone(events: seq<Event>) {
    forall i, j :: 0 <= i <= j < |events| ==> events[i].now <= events[j].now
  }

  /** The limit is `limit` at `i` and is not changed before `j`. What happened before `i` is arbitrary. */
  predicate LimitHolds(events: seq<Event>, i: nat, j: nat, limit: nat)
    requires i <= j <= |events|
  {
    && After(EMPTY, events, i).limit == Some(limit)
    && (forall k :: i <= k < j && events[k].SetLimit? ==> events[k].newLimit == Some(limit))
  }

  function Signed(direction: Direction, amount: nat): int {
    if direction.In? then amount else -(amount as int)
  }

  /** Tokens that came in minus tokens that went out through the accepted flows with index in [i, j). */
  function NetFlow(start: Flow, events: seq<Event>, i: nat, j: nat): int
    requires i <= j <= |events|
  {
    if i == j then 0
    else NetFlow(start, events, i, j - 1)
         + if !AcceptedMove(start, events, j - 1) then 0
           else Signed(events[j - 1].direction, events[j - 1].amount)
  }

  /** The number of different epochs the events [i, j) fall into. */
  function EpochsTouched(events: seq<Event>, i: nat, j: nat): (k: nat)
    requires i < j <= |events|
    ensures k >= 1
  {
    if j == i + 1 then 1
    else EpochsTouched(events, i, j - 1) + if Epoch(events[j - 2].now) < Epoch(events[j - 1].now) then 1 else 0
  }

  predicate StartsEpoch(events: seq<Event>, i: nat)
    requires i < |events|
  {
    i == 0 || Epoch(events[i - 1].now) < Epoch(events[i].now)
  }

  lemma {:induction false} LimitIs(events: seq<Event>, i: nat, j: nat, limit: nat)
    requires i <= j <= |events| && LimitHolds(events, i, j, limit)
    ensures After(EMPTY, events, j).limit == Some(limit)
    decreases j
  {
    if i < j { LimitIs(events, i, j - 1, limit); }
  }

  lemma EpochMonotone(s: nat, t: nat)
    requires s <= t
    ensures Epoch(s) <= Epoch(t)
  {
  }

  /** An epoch that has not begun has no recorded flow, and no limit was used in it. */
  lemma {:induction false} FutureEpochEmpty(events: seq<Event>, n: nat, epoch: nat)
    requires n <= |events| && TimeMonotone(events)
    requires n > 0 ==> Epoch(events[n - 1].now) < epoch
    ensures Net(After(EMPTY, events, n), epoch) == 0
    ensures LargestLimit(EMPTY, events, n, epoch) == 0
    decreases n
  {
    if n > 1 { EpochMonotone(events[n - 2].now, events[n - 1].now); }
    if n > 0 { FutureEpochEmpty(events, n - 1, epoch); }
  }

  /** One step under a limit, seen in the epoch of the step: the recorded net flow moves by what was accepted, and never
      up beyond the limit nor down beyond its negative. */
  lemma StepUnderLimit(f: Flow, e: Event, limit: nat)
    requires f.limit == Some(limit)
    ensures var before, after := Net(f, Epoch(e.now)), Net(Step(f, e), Epoch(e.now));
      && after - before == (if e.Move? && Moved(f, e.now, e.direction, e.amount).Some? then Signed(e.direction, e.amount) else 0)
      && (after > before ==> after <= limit)
      && (after < before ==> after + limit >= 0)
  {
  }

  /** How far a window [i, j) has come: while it is in its first epoch, its flow is the change of the recorded net; after
      that, all but the last epoch are bounded by one limit each and what was recorded before the window. */
  ghost predicate WindowSoFar(events: seq<Event>, i: nat, j: nat, limit: nat, first: int, bound: nat)
    requires i < j <= |events|
  {
    var k := EpochsTouched(events, i, j);
    var net := Net(After(EMPTY, events, j), Epoch(events[j - 1].now));
    var flow := NetFlow(EMPTY, events, i, j);
    if k == 1
    then flow == net - first && (net <= first || net <= limit) && (net >= first || net + limit >= 0)
    else Within(flow - net, (k - 1) * limit + bound) && Within(net, limit)
  }

  lemma {:induction false} SoFarBound(events: seq<Event>, i: nat, j: nat, limit: nat, first: int, bound: nat)
    requires i < j <= |events| && WindowSoFar(events, i, j, limit, first, bound) && Within(first, bound)
    ensures Within(NetFlow(EMPTY, events, i, j), EpochsTouched(events, i, j) * limit + bound)
  {
    var k := EpochsTouched(events, i, j);
    assert k * limit == (k - 1) * limit + limit;
    hide Net, NetFlow, EpochsTouched;
  }

  lemma {:induction false} WindowGrows(events: seq<Event>, i: nat, j: nat, limit: nat, first: int, bound: nat)
    requires i < j <= |events| && TimeMonotone(events) && LimitHolds(events, i, j, limit)
    requires first == Net(After(EMPTY, events, i), Epoch(events[i].now)) && Within(first, bound)
    ensures WindowSoFar(events, i, j, limit, first, bound)
    decreases j
  {
    hide Net, Step, Moved, TimeMonotone;
    var e := events[j - 1];
    LimitIs(events, i, j - 1, limit);
    StepUnderLimit(After(EMPTY, events, j - 1), e, limit);
    assert NetFlow(EMPTY, events, i, i) == 0;
    if j > i + 1 {
      WindowGrows(events, i, j - 1, limit, first, bound);
      Ordered(events, j - 2, j - 1);
      if Epoch(events[j - 2].now) < Epoch(e.now) {
        FutureEpochEmpty(events, j - 1, Epoch(e.now));
        SoFarBound(events, i, j - 1, limit, first, bound);
      }
    }
  }

  lemma Ordered(events: seq<Event>, i: nat, j: nat)
    requires TimeMonotone(events) && i <= j < |events|
    ensures Epoch(events[i].now) <= Epoch(events[j].now)
  {
    EpochMonotone(events[i].now, events[j].now);
  }

  /** After any history, a window touching k epochs while the limit is L moves at most k L net, and besides at most the
      largest limit used earlier in its first epoch. */
  lemma {:induction false} WindowBound(events: seq<Event>, i: nat, j: nat, limit: nat)
    requires i < j <= |events| && TimeMonotone(events) && LimitHolds(events, i, j, limit)
    ensures Within(NetFlow(EMPTY, events, i, j),
                   EpochsTouched(events, i, j) * limit + LargestLimit(EMPTY, events, i, Epoch(events[i].now)))
  {
    hide Net, NetFlow, EpochsTouched, LargestLimit, WindowSoFar;
    var epoch := Epoch(events[i].now);
    var first, bound := Net(After(EMPTY, events, i), epoch), LargestLimit(EMPTY, events, i, epoch);
    EpochBound(events, i, epoch);
    WindowGrows(events, i, j, limit, first, bound);
    SoFarBound(events, i, j, limit, first, bound);
  }

  /** So k L for a window that starts on an epoch boundary, and (k + 1) L when no larger limit was used in the first epoch. */
  lemma {:induction false} WindowBoundConstant(events: seq<Event>, i: nat, j: nat, limit: nat)
    requires i < j <= |events| && TimeMonotone(events) && LimitHolds(events, i, j, limit)
    ensures var k := EpochsTouched(events, i, j);
      && (StartsEpoch(events, i) ==> Within(NetFlow(EMPTY, events, i, j), k * limit))
      && (LargestLimit(EMPTY, events, i, Epoch(events[i].now)) <= limit ==>
            Within(NetFlow(EMPTY, events, i, j), (k + 1) * limit))
  {
    hide NetFlow, EpochsTouched, LargestLimit;
    var k := EpochsTouched(events, i, j);
    WindowBound(events, i, j, limit);
    assert (k + 1) * limit == k * limit + limit;
    if StartsEpoch(events, i) { FutureEpochEmpty(events, i, Epoch(events[i].now)); }
  }

  function TightRun(limit: nat): seq<Event> {
    [SetLimit(0, Some(limit)), Move(0, Out, limit), Move(0, In, limit), Move(0, In, limit)]
  }

  lemma TightHistory(limit: nat)
    ensures After(EMPTY, TightRun(limit), 2) == Flow(Some(limit), map[], map[0 := limit])
    ensures AcceptedMove(EMPTY, TightRun(limit), 2) && AcceptedMove(EMPTY, TightRun(limit), 3)
  {
    var events := TightRun(limit);
    assert After(EMPTY, events, 1) == Flow(Some(limit), map[], map[]);
    assert After(EMPTY, events, 2) == Flow(Some(limit), map[], map[0 := limit]);
    assert After(EMPTY, events, 3) == Flow(Some(limit), map[0 := limit], map[0 := limit]);
  }

  /** The bound for a window inside an epoch is reached, so the limit is not a bound on six consecutive hours:
      after an outflow of L in the same epoch, 2 L can come in. */
  lemma {:induction false} WindowBoundTight(limit: nat)
    ensures LimitHolds(TightRun(limit), 2, 4, limit) && EpochsTouched(TightRun(limit), 2, 4) == 1
    ensures NetFlow(EMPTY, TightRun(limit), 2, 4) == 2 * limit
  {
    hide After, AcceptedMove;
    TightHistory(limit);
    assert NetFlow(EMPTY, TightRun(limit), 2, 2) == 0;
    assert NetFlow(EMPTY, TightRun(limit), 2, 3) == limit;
    assert EpochsTouched(TightRun(limit), 2, 3) == 1;
  }
}
