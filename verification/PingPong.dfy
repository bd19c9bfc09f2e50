/** A fixed sum per user, locked until a deadline, and a payout of everybody that may stop for lack of gas and go on
    later. */
module PingPongSpec {
  import opened ByteStrings
  import opened Keccak

  datatype UserStatus = New | Registered | Withdrawn

  datatype Config = Config(pingAmount: nat, activation: nat, deadline: nat, maxFunds: Option<nat>)

  /** Users are numbered from 1 in the order they came; `payouts` lists the users that were sent their sum. */
  datatype PingPongState = PingPongState(
    idOf: map<Address, nat>,
    addressOf: map<nat, Address>,
    userCount: nat,
    status: map<nat, UserStatus>,
    lastUser: nat,
    balance: nat,
    payouts: seq<nat>)

  const EMPTY: PingPongState := PingPongState(map[], map[], 0, map[], 0, 0, [])

  datatype OperationStatus = Completed | Interrupted

  function StatusOf(s: PingPongState, id: nat): UserStatus { if id in s.status then s.status[id] else New }

  function UserId(s: PingPongState, user: Address): nat { if user in s.idOf then s.idOf[user] else 0 }

  /** The user's number, a new one if needed. */
  function GetOrCreateUser(s: PingPongState, user: Address): (PingPongState, nat) {
    if user in s.idOf then (s, s.idOf[user])
    else
      var id := s.userCount + 1;
      (s.(idOf := s.idOf[user := id], addressOf := s.addressOf[id := user], userCount := id), id)
  }

  /** The contract's balance already holds the payment when the cap is checked. */
  function Ping(cfg: Config, s: PingPongState, now: nat, user: Address, payment: nat): Option<PingPongState> {
    var s1 := s.(balance := s.balance + payment);
    if payment != cfg.pingAmount || now < cfg.activation
       || (cfg.maxFunds.Some? && s1.balance + payment > cfg.maxFunds.value) then None
    else
      var (s2, id) := GetOrCreateUser(s1, user);
      if StatusOf(s2, id).New? then Some(s2.(status := s2.status[id := Registered])) else None
  }

  datatype PongResult = Paid(state: PingPongState) | Refused(state: PingPongState) | Panic

  function PongById(cfg: Config, s: PingPongState, id: nat): PongResult {
    match StatusOf(s, id)
    case New => Refused(s)
    case Withdrawn => Refused(s)
    case Registered =>
      var s1 := s.(status := s.status[id := Withdrawn]);
      if id !in s.addressOf then Refused(s1)
      else if s1.balance < cfg.pingAmount then Panic
      else Paid(s1.(balance := s1.balance - cfg.pingAmount, payouts := s1.payouts + [id]))
  }

  function Pong(cfg: Config, s: PingPongState, now: nat, user: Address): Option<PingPongState> {
    if now < cfg.deadline then None
    else
      match PongById(cfg, s, UserId(s, user))
      case Paid(t) => Some(t)
      case Refused(_) => None
      case Panic => None
  }

  /** Users first+1 .. last one after the other; refusals are skipped. */
  function PongRange(cfg: Config, s: PingPongState, first: nat, last: nat): Option<PingPongState>
    requires first <= last
    decreases last
  {
    if first == last then Some(s)
    else
      match PongRange(cfg, s, first, last - 1)
      case None => None
      case Some(t) =>
        match PongById(cfg, t, last)
        case Paid(u) => Some(u)
        case Refused(u) => Some(u)
        case Panic => None
  }

  /** How far `pongAll` gets when the gas suffices for `budget` users. */
  function Reached(s: PingPongState, budget: nat): nat {
    if s.lastUser + budget >= s.userCount && s.lastUser <= s.userCount then s.userCount
    else if s.lastUser > s.userCount then s.lastUser
    else s.lastUser + budget
  }

  function PongAll(cfg: Config, s: PingPongState, now: nat, budget: nat): Option<(PingPongState, OperationStatus)> {
    if now < cfg.deadline then None
    else
      match PongRange(cfg, s, s.lastUser, Reached(s, budget))
      case None => None
      case Some(t) =>
        if Reached(s, budget) >= s.userCount then Some((t.(lastUser := 0), Completed))
        else Some((t.(lastUser := Reached(s, budget)), Interrupted))
  }

  /** A pong over the token service may leave EGLD behind. */
  datatype Call =
    | CallPing(now: nat, user: Address, payment: nat)
    | CallPong(now: nat, user: Address, left: nat)
    | CallPongAll(now: nat, budget: nat)

  function Step(cfg: Config, s: PingPongState, c: Call): PingPongState {
    match c
    case CallPing(now, user, payment) => (match Ping(cfg, s, now, user, payment) case None => s case Some(t) => t)
    case CallPong(now, user, left) =>
      (match Pong(cfg, s.(balance := s.balance + left), now, user) case None => s case Some(t) => t)
    case CallPongAll(now, budget) => (match PongAll(cfg, s, now, budget) case None => s case Some(r) => r.0)
  }

  function After(cfg: Config, calls: seq<Call>, n: nat): PingPongState
    requires n <= |calls|
    decreases n
  {
    if n == 0 then EMPTY else Step(cfg, After(cfg, calls, n - 1), calls[n - 1])
  }
}

module PingPongContract {
  import opened ByteStrings
  import opened Keccak
  import opened PingPongSpec

  class PingPong {
    const cfg: Config
    var idOf: map<Address, nat>
    var addressOf: map<nat, Address>
    var userCount: nat
    var status: map<nat, UserStatus>
    var lastUser: nat
    var balance: nat
    var payouts: seq<nat>

    function Storage(): PingPongState
      reads this
    {
      PingPongState(idOf, addressOf, userCount, status, lastUser, balance, payouts)
    }

    constructor (cfg: Config)
      ensures Storage() == EMPTY && this.cfg == cfg
    {
      this.cfg, idOf, addressOf, userCount, status, lastUser, balance, payouts := cfg, map[], map[], 0, map[], 0, 0, [];
    }

    method Restore(s: PingPongState)
      modifies this
      ensures Storage() == s
    {
      idOf, addressOf, userCount, status := s.idOf, s.addressOf, s.userCount, s.status;
      lastUser, balance, payouts := s.lastUser, s.balance, s.payouts;
    }

    method GetOrCreate(user: Address) returns (id: nat)
      modifies this
      ensures (Storage(), id) == GetOrCreateUser(old(Storage()), user)
    {
      if user in idOf { return idOf[user]; }
      userCount := userCount + 1;
      idOf := idOf[user := userCount];
      addressOf := addressOf[userCount := user];
      return userCount;
    }

    method PingBy(now: nat, user: Address, payment: nat) returns (ok: bool)
      modifies this
      ensures var r := Ping(cfg, old(Storage()), now, user, payment);
        (ok <==> r.Some?) && Storage() == if ok then r.value else old(Storage())
    {
      var before := Storage();
      balance := balance + payment;
      ok := payment == cfg.pingAmount && cfg.activation <= now
            && (cfg.maxFunds.None? || balance + payment <= cfg.maxFunds.value);
      if ok {
        var id := GetOrCreate(user);
        ok := StatusOf(Storage(), id).New?;
        if ok { status := status[id := Registered]; }
      }
      if !ok { Restore(before); }
    }

    method PongUser(id: nat) returns (r: PongResult)
      modifies this
      ensures r == PongById(cfg, old(Storage()), id)
      ensures !r.Panic? ==> r.state == Storage()
    {
      var was := StatusOf(Storage(), id);
      if !was.Registered? { return Refused(Storage()); }
      status := status[id := Withdrawn];
      if id !in addressOf { return Refused(Storage()); }
      if balance < cfg.pingAmount { return Panic; }
      balance := balance - cfg.pingAmount;
      payouts := payouts + [id];
      return Paid(Storage());
    }

    method PongBy(now: nat, user: Address) returns (ok: bool)
      modifies this
      ensures var r := Pong(cfg, old(Storage()), now, user);
        (ok <==> r.Some?) && Storage() == if ok then r.value else old(Storage())
    {
      var before := Storage();
      if now < cfg.deadline { return false; }
      var r := PongUser(UserId(before, user));
      ok := r.Paid?;
      if !ok { Restore(before); }
    }

    /** The gas runs out after `budget` users. */
    method PongEverybody(now: nat, budget: nat) returns (r: Option<OperationStatus>)
      modifies this
      ensures var spec := PongAll(cfg, old(Storage()), now, budget);
        if spec.None? then r.None? && Storage() == old(Storage()) else r.Some? && spec.value == (Storage(), r.value)
    {
      hide PongById;
      var before := Storage();
      if now < cfg.deadline { return None; }
      var numUsers := userCount;
      var last := lastUser;
      var gas := budget;
      while last < numUsers && gas > 0
        invariant before.lastUser <= last && (last <= numUsers || last == before.lastUser)
        invariant last - before.lastUser == budget - gas
        invariant PongRange(cfg, before, before.lastUser, last) == Some(Storage())
        decreases numUsers - last
      {
        last := last + 1;
        gas := gas - 1;
        var result := PongUser(last);
        if result.Panic? {
          PanicStays(cfg, before, before.lastUser, last, Reached(before, budget));
          Restore(before);
          return None;
        }
      }
      PongRangeKeeps(cfg, before, before.lastUser, last);
      if last >= numUsers {
        lastUser := 0;
        return Some(Completed);
      }
      lastUser := last;
      return Some(Interrupted);
    }
  }

  lemma {:induction false} PanicStays(cfg: Config, s: PingPongState, first: nat, n: nat, last: nat)
    requires first <= n <= last && PongRange(cfg, s, first, n).None?
    ensures PongRange(cfg, s, first, last).None?
    decreases last
  {
    if n < last { PanicStays(cfg, s, first, n, last - 1); }
  }

  lemma {:induction false} PongRangeKeeps(cfg: Config, s: PingPongState, first: nat, last: nat)
    requires first <= last && PongRange(cfg, s, first, last).Some?
    ensures PongRange(cfg, s, first, last).value.userCount == s.userCount
    decreases last
  {
    if first < last { PongRangeKeeps(cfg, s, first, last - 1); }
  }
}

/** What every run keeps. */
module PingPongRuns {
  import opened ByteStrings
  import opened Keccak
  import opened PingPongSpec

  /** The numbering of users is one to one, and everybody numbered has pinged. */
  ghost predicate UsersOk(s: PingPongState) {
    && (forall a :: a in s.idOf ==> 1 <= s.idOf[a] <= s.userCount && s.idOf[a] in s.addressOf && s.addressOf[s.idOf[a]] == a)
    && (forall id: nat :: id in s.addressOf <==> 1 <= id <= s.userCount)
    && (forall id: nat :: id in s.addressOf ==> s.addressOf[id] in s.idOf && s.idOf[s.addressOf[id]] == id)
    && (forall id: nat :: StatusOf(s, id).New? <==> id == 0 || id > s.userCount)
  }

  /** The payouts are the withdrawn users, each once. */
  ghost predicate PayoutsOk(s: PingPongState) {
    && (forall i, j :: 0 <= i < j < |s.payouts| ==> s.payouts[i] != s.payouts[j])
    && (forall id: nat :: id in s.payouts <==> StatusOf(s, id).Withdrawn?)
  }

  function RegisteredUsers(s: PingPongState): set<nat> {
    set id: nat | 1 <= id <= s.userCount && StatusOf(s, id).Registered?
  }

  predicate Solvent(cfg: Config, s: PingPongState) {
    s.balance >= cfg.pingAmount * |RegisteredUsers(s)|
  }

  /** Everybody up to the saved position has been paid. */
  predicate CursorOk(s: PingPongState) {
    && s.lastUser <= s.userCount
    && (forall id: nat :: 1 <= id <= s.lastUser ==> StatusOf(s, id).Withdrawn?)
  }

  ghost predicate Inv(cfg: Config, s: PingPongState) {
    UsersOk(s) && PayoutsOk(s) && Solvent(cfg, s) && CursorOk(s)
  }

  /** Only somebody who never pinged can ping; that user becomes the last and is registered. */
  lemma PingMeans(cfg: Config, s: PingPongState, now: nat, user: Address, payment: nat)
    requires UsersOk(s) && Ping(cfg, s, now, user, payment).Some?
    ensures user !in s.idOf && Ping(cfg, s, now, user, payment).value == WithUser(cfg, s, user)
  {
    assert user in s.idOf ==> !StatusOf(s, s.idOf[user]).New?;
  }

  function WithUser(cfg: Config, s: PingPongState, user: Address): PingPongState {
    var id := s.userCount + 1;
    PingPongState(s.idOf[user := id], s.addressOf[id := user], id, s.status[id := Registered], s.lastUser,
                  s.balance + cfg.pingAmount, s.payouts)
  }

  lemma NewUserKeepsUsers(cfg: Config, s: PingPongState, user: Address)
    requires UsersOk(s) && user !in s.idOf
    ensures UsersOk(WithUser(cfg, s, user))
  {
    var t := WithUser(cfg, s, user);
    assert forall other: nat :: other != t.userCount ==> StatusOf(t, other) == StatusOf(s, other);
  }

  lemma PingKeeps(cfg: Config, s: PingPongState, now: nat, user: Address, payment: nat)
    requires Inv(cfg, s) && Ping(cfg, s, now, user, payment).Some?
    ensures Inv(cfg, Ping(cfg, s, now, user, payment).value)
  {
    PingMeans(cfg, s, now, user, payment);
    NewUserKeepsUsers(cfg, s, user);
    var t := WithUser(cfg, s, user);
    assert StatusOf(s, t.userCount).New?;
    hide Ping, UsersOk;
    assert forall other: nat :: other != t.userCount ==> StatusOf(t, other) == StatusOf(s, other);
    assert RegisteredUsers(t) == RegisteredUsers(s) + {t.userCount};
    assert cfg.pingAmount * |RegisteredUsers(t)| == cfg.pingAmount * |RegisteredUsers(s)| + cfg.pingAmount;
  }

  /** Paying a registered user always succeeds; everybody else is refused without a change. */
  lemma PongKeeps(cfg: Config, s: PingPongState, id: nat)
    requires Inv(cfg, s)
    ensures var r := PongById(cfg, s, id);
      && (if StatusOf(s, id).Registered? then r.Paid? else r == Refused(s))
      && !r.Panic? && Inv(cfg, r.state) && r.state.userCount == s.userCount && r.state.lastUser == s.lastUser
      && !StatusOf(r.state, id).Registered?
      && (forall other: nat :: StatusOf(s, other).Withdrawn? ==> StatusOf(r.state, other).Withdrawn?)
      && (1 <= id <= s.userCount ==> StatusOf(r.state, id).Withdrawn?)
  {
    if StatusOf(s, id).Registered? {
      var before := RegisteredUsers(s);
      assert id in before;
      assert cfg.pingAmount * |before| == cfg.pingAmount * |before - {id}| + cfg.pingAmount;
      assert |before| >= 1;
      assert s.balance >= cfg.pingAmount;
      var t := PongById(cfg, s, id).state;
      assert forall other: nat :: other != id ==> StatusOf(t, other) == StatusOf(s, other);
      assert RegisteredUsers(t) == before - {id};
    }
  }

  lemma {:induction false} RangeKeeps(cfg: Config, s: PingPongState, first: nat, last: nat)
    requires Inv(cfg, s) && first <= last <= s.userCount && first == s.lastUser
    ensures var r := PongRange(cfg, s, first, last);
      r.Some? && Inv(cfg, r.value) && r.value.userCount == s.userCount && r.value.lastUser == s.lastUser
      && (forall id: nat :: 1 <= id <= last ==> StatusOf(r.value, id).Withdrawn?)
    decreases last
  {
    hide Inv, PongById;
    if first < last {
      RangeKeeps(cfg, s, first, last - 1);
      PongKeeps(cfg, PongRange(cfg, s, first, last - 1).value, last);
    } else {
      assert CursorOk(s) by { InvMeans(cfg, s); }
    }
  }

  lemma InvMeans(cfg: Config, s: PingPongState)
    requires Inv(cfg, s)
    ensures CursorOk(s)
  {
  }

  lemma MoveCursor(cfg: Config, s: PingPongState, lastUser: nat)
    requires Inv(cfg, s) && lastUser <= s.userCount
    requires forall id: nat :: 1 <= id <= lastUser ==> StatusOf(s, id).Withdrawn?
    ensures Inv(cfg, s.(lastUser := lastUser))
  {
    var t := s.(lastUser := lastUser);
    assert forall id: nat :: StatusOf(t, id) == StatusOf(s, id);
    assert RegisteredUsers(t) == RegisteredUsers(s);
  }

  lemma MoreBalance(cfg: Config, s: PingPongState, left: nat)
    requires Inv(cfg, s)
    ensures Inv(cfg, s.(balance := s.balance + left))
  {
    var t := s.(balance := s.balance + left);
    assert forall id: nat :: StatusOf(t, id) == StatusOf(s, id);
    assert RegisteredUsers(t) == RegisteredUsers(s);
  }

  /** After the deadline `pongAll` never fails; it completes exactly when the gas suffices for everybody that is left,
      and then nobody is registered any more. */
  lemma PongAllMeans(cfg: Config, s: PingPongState, now: nat, budget: nat)
    requires Inv(cfg, s) && now >= cfg.deadline
    ensures var r := PongAll(cfg, s, now, budget);
      && r.Some? && Inv(cfg, r.value.0)
      && (r.value.1.Completed? <==> s.lastUser + budget >= s.userCount)
      && (r.value.1.Completed? ==> RegisteredUsers(r.value.0) == {})
  {
    hide PongRange, Inv;
    InvMeans(cfg, s);
    RangeKeeps(cfg, s, s.lastUser, Reached(s, budget));
    var t := PongRange(cfg, s, s.lastUser, Reached(s, budget)).value;
    MoveCursor(cfg, t, 0);
    MoveCursor(cfg, t, Reached(s, budget));
    if Reached(s, budget) == s.userCount {
      var done := t.(lastUser := 0);
      assert forall id: nat :: StatusOf(done, id) == StatusOf(t, id);
      assert RegisteredUsers(done) == {};
    }
  }

  lemma {:induction false} AlwaysInv(cfg: Config, calls: seq<Call>, n: nat)
    requires n <= |calls|
    ensures Inv(cfg, After(cfg, calls, n))
    decreases n
  {
    hide Inv, Ping, PongById, PongAll;
    if n == 0 {
      EmptyInv(cfg);
    } else {
      AlwaysInv(cfg, calls, n - 1);
      var s := After(cfg, calls, n - 1);
      match calls[n - 1] {
        case CallPing(now, user, payment) =>
          if Ping(cfg, s, now, user, payment).Some? { PingKeeps(cfg, s, now, user, payment); }
        case CallPong(now, user, left) =>
          MoreBalance(cfg, s, left);
          PongKeeps(cfg, s.(balance := s.balance + left), UserId(s, user));
        case CallPongAll(now, budget) =>
          if now >= cfg.deadline { PongAllMeans(cfg, s, now, budget); } else { TooEarly(cfg, s, now, budget); }
      }
    }
  }

  lemma TooEarly(cfg: Config, s: PingPongState, now: nat, budget: nat)
    requires now < cfg.deadline
    ensures PongAll(cfg, s, now, budget).None?
  {
  }

  lemma EmptyInv(cfg: Config)
    ensures Inv(cfg, EMPTY)
  {
    assert RegisteredUsers(EMPTY) == {};
  }

  /** In every run: the balance covers everybody still registered, nobody is paid twice, and everybody up to the saved
      position has been paid. */
  lemma {:induction false} PaidOnceAndSolvent(cfg: Config, calls: seq<Call>, n: nat)
    requires n <= |calls|
    ensures var s := After(cfg, calls, n);
      && s.balance >= cfg.pingAmount * |RegisteredUsers(s)|
      && (forall i, j :: 0 <= i < j < |s.payouts| ==> s.payouts[i] != s.payouts[j])
      && (forall id: nat :: id in s.payouts <==> StatusOf(s, id).Withdrawn?)
      && (forall id: nat :: 1 <= id <= s.lastUser ==> id in s.payouts)
  {
    hide After, RegisteredUsers, StatusOf;
    AlwaysInv(cfg, calls, n);
  }

  /** After any calls, interrupted or not, `pongAll` reporting completion means that nobody is registered. */
  lemma {:induction false} CompletedMeansDone(cfg: Config, calls: seq<Call>, n: nat, now: nat, budget: nat)
    requires n <= |calls|
    requires PongAll(cfg, After(cfg, calls, n), now, budget).Some?
    requires PongAll(cfg, After(cfg, calls, n), now, budget).value.1.Completed?
    ensures RegisteredUsers(PongAll(cfg, After(cfg, calls, n), now, budget).value.0) == {}
  {
    hide After, Inv, PongRange, RegisteredUsers;
    AlwaysInv(cfg, calls, n);
    PongAllMeans(cfg, After(cfg, calls, n), now, budget);
  }

  lemma {:induction false} RangeSplits(cfg: Config, s: PingPongState, first: nat, middle: nat, last: nat)
    requires first <= middle <= last && PongRange(cfg, s, first, middle).Some?
    ensures PongRange(cfg, s, first, last) == PongRange(cfg, PongRange(cfg, s, first, middle).value, middle, last)
    decreases last
  {
    hide PongById;
    if middle < last { RangeSplits(cfg, s, first, middle, last - 1); }
  }

  lemma {:induction false} CursorIrrelevant(cfg: Config, s: PingPongState, cursor: nat, first: nat, last: nat)
    requires first <= last
    ensures PongRange(cfg, s.(lastUser := cursor), first, last)
      == match PongRange(cfg, s, first, last) case None => None case Some(t) => Some(t.(lastUser := cursor))
    decreases last
  {
    if first < last { CursorIrrelevant(cfg, s, cursor, first, last - 1); }
  }

  /** An interrupted call and its continuation do what one call with the gas of both would have done. */
  lemma ContinuationIsOneCall(cfg: Config, s: PingPongState, now: nat, first: nat, later: nat, second: nat)
    requires Inv(cfg, s) && now >= cfg.deadline && later >= cfg.deadline && s.lastUser + first < s.userCount
    ensures PongAll(cfg, s, now, first).Some?
    ensures PongAll(cfg, PongAll(cfg, s, now, first).value.0, later, second) == PongAll(cfg, s, now, first + second)
  {
    hide PongRange, Inv;
    InvMeans(cfg, s);
    var middle := s.lastUser + first;
    RangeKeeps(cfg, s, s.lastUser, middle);
    var t := PongRange(cfg, s, s.lastUser, middle).value;
    var last := Reached(s, first + second);
    RangeSplits(cfg, s, s.lastUser, middle, last);
    CursorIrrelevant(cfg, t, middle, middle, last);
  }
}
