/** Who can ping and pong and when, and where the money is. */
module PingPongLaws {
  import opened ByteStrings
  import opened Keccak
  import opened PingPongSpec
  import opened PingPongRuns

  function StatusOfUser(s: PingPongState, user: Address): UserStatus { StatusOf(s, UserId(s, user)) }

  /** One user changes as given, and nobody else. */
  ghost predicate OnlyUser(s: PingPongState, t: PingPongState, user: Address, status: UserStatus) {
    forall other :: StatusOfUser(t, other) == if other == user then status else StatusOfUser(s, other)
  }

  /** Whoever never pinged can, from the activation on, with exactly the fixed sum, while there is room for it twice below
      the cap: the balance that is checked already holds it. The user is then registered, and the sum is there. */
  lemma PingExactly(cfg: Config, s: PingPongState, now: nat, user: Address, payment: nat)
    requires Inv(cfg, s)
    ensures var r := Ping(cfg, s, now, user, payment);
      && (r.Some? <==>
            && payment == cfg.pingAmount && cfg.activation <= now && StatusOfUser(s, user).New?
            && (cfg.maxFunds.Some? ==> s.balance + 2 * payment <= cfg.maxFunds.value))
      && (r.Some? ==>
            && r.value.balance == s.balance + payment && r.value.payouts == s.payouts && r.value.lastUser == s.lastUser
            && OnlyUser(s, r.value, user, Registered))
  {
    assert StatusOf(s, s.userCount + 1).New?;
    assert user in s.idOf ==> !StatusOf(s, s.idOf[user]).New?;
    if Ping(cfg, s, now, user, payment).Some? {
      PingMeans(cfg, s, now, user, payment);
      var t := WithUser(cfg, s, user);
      forall other ensures StatusOfUser(t, other) == if other == user then Registered else StatusOfUser(s, other) {
        assert other in s.idOf ==> s.idOf[other] != t.userCount;
      }
    }
  }

  /** Exactly the registered users can take their sum back, from the deadline on and never before; a user who does is paid
      once, out of the balance. */
  lemma PongExactly(cfg: Config, s: PingPongState, now: nat, user: Address)
    requires Inv(cfg, s)
    ensures var r := Pong(cfg, s, now, user);
      && (r.Some? <==> cfg.deadline <= now && StatusOfUser(s, user).Registered?)
      && (r.Some? ==>
            && r.value.balance == s.balance - cfg.pingAmount && r.value.lastUser == s.lastUser
            && UserId(s, user) in s.addressOf && s.addressOf[UserId(s, user)] == user
            && r.value.payouts == s.payouts + [UserId(s, user)]
            && OnlyUser(s, r.value, user, Withdrawn))
  {
    PongKeeps(cfg, s, UserId(s, user));
    if StatusOfUser(s, user).Registered? {
      assert user in s.idOf;
      forall other | other != user && other in s.idOf ensures s.idOf[other] != s.idOf[user] {
        assert s.addressOf[s.idOf[other]] == other;
      }
    }
  }

  /** What one user in turn gets: the fixed sum if registered, else nothing. */
  lemma TurnExactly(cfg: Config, s: PingPongState, id: nat)
    requires Inv(cfg, s)
    ensures var r := PongById(cfg, s, id);
      && !r.Panic?
      && r.state.balance == s.balance - (if StatusOf(s, id).Registered? then cfg.pingAmount else 0)
      && r.state.payouts == s.payouts + (if StatusOf(s, id).Registered? then [id] else [])
      && (forall other: nat :: StatusOf(r.state, other)
                               == if other == id && StatusOf(s, id).Registered? then Withdrawn else StatusOf(s, other))
  {
    PongKeeps(cfg, s, id);
  }

  lemma {:induction false} TurnsExactly(cfg: Config, s: PingPongState, first: nat, last: nat)
    requires Inv(cfg, s) && first <= last <= s.userCount && first == s.lastUser
    ensures var r := PongRange(cfg, s, first, last);
      && r.Some?
      && (forall id: nat :: StatusOf(r.value, id)
                            == if first < id <= last && StatusOf(s, id).Registered? then Withdrawn else StatusOf(s, id))
      && r.value.balance + cfg.pingAmount * |r.value.payouts| == s.balance + cfg.pingAmount * |s.payouts|
    decreases last
  {
    hide Inv, PongById;
    if first < last {
      TurnsExactly(cfg, s, first, last - 1);
      RangeKeeps(cfg, s, first, last - 1);
      var t := PongRange(cfg, s, first, last - 1).value;
      TurnExactly(cfg, t, last);
      var u := PongById(cfg, t, last).state;
      PaidOut(cfg, t, u);
    }
  }

  lemma PaidOut(cfg: Config, t: PingPongState, u: PingPongState)
    requires || (u.payouts == t.payouts && u.balance == t.balance)
             || (|u.payouts| == |t.payouts| + 1 && u.balance == t.balance - cfg.pingAmount)
    ensures u.balance + cfg.pingAmount * |u.payouts| == t.balance + cfg.pingAmount * |t.payouts|
  {
    if u.payouts != t.payouts {
      assert cfg.pingAmount * (|t.payouts| + 1) == cfg.pingAmount * |t.payouts| + cfg.pingAmount;
    }
  }

  /** `pongAll` works exactly from the deadline on. It pays the registered users behind the saved position as far as the
      gas goes, touches nobody else, and saves how far it got, or 0 when everybody has had a turn. */
  lemma PongAllExactly(cfg: Config, s: PingPongState, now: nat, budget: nat)
    requires Inv(cfg, s)
    ensures var r := PongAll(cfg, s, now, budget);
      && (r.Some? <==> cfg.deadline <= now)
      && (r.Some? ==>
            && (forall id: nat :: StatusOf(r.value.0, id)
                                  == if s.lastUser < id <= s.lastUser + budget && StatusOf(s, id).Registered? then Withdrawn
                                     else StatusOf(s, id))
            && r.value.0.lastUser == (if s.lastUser + budget < s.userCount then s.lastUser + budget else 0)
            && r.value.0.balance + cfg.pingAmount * |r.value.0.payouts| == s.balance + cfg.pingAmount * |s.payouts|)
  {
    if now >= cfg.deadline {
      var last := Reached(s, budget);
      InvMeans(cfg, s);
      TurnsExactly(cfg, s, s.lastUser, last);
      NobodyBeyond(cfg, s);
      hide Inv, PongRange;
    }
  }

  lemma NobodyBeyond(cfg: Config, s: PingPongState)
    requires Inv(cfg, s)
    ensures forall id: nat :: id > s.userCount ==> StatusOf(s, id).New?
  {
  }

  // ---------- the money ----------

  /** What came in with a call: the sum of an accepted ping, or what an accepted pong left behind. */
  function Received(cfg: Config, s: PingPongState, c: Call): nat {
    match c
    case CallPing(now, user, payment) => if Ping(cfg, s, now, user, payment).Some? then payment else 0
    case CallPong(now, user, left) => if Pong(cfg, s.(balance := s.balance + left), now, user).Some? then left else 0
    case CallPongAll(_, _) => 0
  }

  function TotalReceived(cfg: Config, calls: seq<Call>, n: nat): nat
    requires n <= |calls|
    decreases n
  {
    if n == 0 then 0 else TotalReceived(cfg, calls, n - 1) + Received(cfg, After(cfg, calls, n - 1), calls[n - 1])
  }

  lemma MoneyStep(cfg: Config, s: PingPongState, c: Call)
    requires Inv(cfg, s)
    ensures var t := Step(cfg, s, c);
      && t.balance + cfg.pingAmount * |t.payouts| == s.balance + cfg.pingAmount * |s.payouts| + Received(cfg, s, c)
      && (c.now < cfg.deadline ==> t.payouts == s.payouts)
  {
    hide Inv, Ping, Pong, PongAll, OnlyUser, StatusOfUser;
    match c
    case CallPing(now, user, payment) => PingExactly(cfg, s, now, user, payment);
    case CallPong(now, user, left) =>
      var s1 := s.(balance := s.balance + left);
      MoreBalance(cfg, s, left);
      PongExactly(cfg, s1, now, user);
      if Pong(cfg, s1, now, user).Some? { PaidOut(cfg, s1, Pong(cfg, s1, now, user).value); }
    case CallPongAll(now, budget) => PongAllExactly(cfg, s, now, budget);
  }

  /** In every run the balance and the payouts together are what came in: nothing is lost, and nobody else is paid. */
  lemma {:induction false} MoneyConserved(cfg: Config, calls: seq<Call>, n: nat)
    requires n <= |calls|
    ensures var s := After(cfg, calls, n);
      s.balance + cfg.pingAmount * |s.payouts| == TotalReceived(cfg, calls, n)
    decreases n
  {
    hide Inv, Step, Received;
    if n > 0 {
      MoneyConserved(cfg, calls, n - 1);
      AlwaysInv(cfg, calls, n - 1);
      MoneyStep(cfg, After(cfg, calls, n - 1), calls[n - 1]);
    }
  }

  /** Before the deadline nobody is paid, whatever is called. */
  lemma {:induction false} NothingBeforeDeadline(cfg: Config, calls: seq<Call>, n: nat)
    requires n <= |calls| && forall k :: 0 <= k < n ==> calls[k].now < cfg.deadline
    ensures After(cfg, calls, n).payouts == []
    decreases n
  {
    hide Inv, Step, Received;
    if n > 0 {
      NothingBeforeDeadline(cfg, calls, n - 1);
      AlwaysInv(cfg, calls, n - 1);
      MoneyStep(cfg, After(cfg, calls, n - 1), calls[n - 1]);
    }
  }
}
