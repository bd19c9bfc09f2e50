/** Every interleaving of governance messages, launches, callbacks and withdrawals. */
module GovernanceRuns {
  import opened ByteStrings
  import opened Keccak
  import opened Preimages
  import opened ChainTypes
  import opened GovernanceSpec

  /** The contract together with the promises that have not called back yet. */
  datatype Sys = Sys(gov: GovState, inFlight: map<nat, Promise>, next: nat)

  datatype Call =
    | Message(sourceChain: bytes, sourceAddress: bytes, validated: bool, payload: Option<ExecutePayload>)
    | Launch(path: Path, caller: Address, proposal: Proposal, payments: Payments, resources: bool)
    | Callback(id: nat, success: bool)
    | WithdrawRefund(caller: Address, asset: Asset, funded: bool)
    | TransferOperatorship(caller: Address, newOperator: Address)

  datatype Tx = Tx(now: u64, call: Call)

  function Initial(operator: Address): Sys {
    Sys(GovState({}, {}, map[], {}, {}, {}, map[], operator), map[], 0)
  }

  /** The system after a transaction, and whether it took effect. */
  function Step(cfg: Config, s: Sys, tx: Tx): (Sys, bool) {
    match tx.call
    case Message(chain, address, validated, payload) =>
      if chain != cfg.governanceChain || address != cfg.governanceAddress || !validated || payload.None? then (s, false)
      else (
        match Commanded(cfg, s.gov, tx.now, payload.value)
        case None => (s, false)
        case Some(gov) => (s.(gov := gov), true))
    case Launch(path, caller, proposal, payments, resources) =>
      if !CanLaunch(s.gov, tx.now, path, caller, proposal.Hash(), resources) then (s, false)
      else (Sys(Launched(s.gov, path, proposal.Hash()),
                s.inFlight[s.next := Promise(path, proposal.Hash(), caller, payments)], s.next + 1), true)
    case Callback(id, success) =>
      if id !in s.inFlight then (s, false)
      else (Sys(CalledBack(s.gov, s.inFlight[id], success), s.inFlight - {id}, s.next), true)
    case WithdrawRefund(caller, asset, funded) =>
      if !funded then (s, false) else (s.(gov := s.gov.(refunds := s.gov.refunds - {(caller, asset)})), true)
    case TransferOperatorship(caller, newOperator) =>
      if (caller != s.gov.operator && caller != cfg.contract) || newOperator == ZERO_ADDRESS then (s, false)
      else (s.(gov := s.gov.(operator := newOperator)), true)
  }

  function After(cfg: Config, operator: Address, txs: seq<Tx>, i: nat): Sys
    requires i <= |txs|
  {
    if i == 0 then Initial(operator) else Step(cfg, After(cfg, operator, txs, i - 1), txs[i - 1]).0
  }

  predicate Took(cfg: Config, operator: Address, txs: seq<Tx>, i: nat)
    requires i < |txs|
  {
    Step(cfg, After(cfg, operator, txs, i), txs[i]).1
  }

  // ---------- what transaction i did to the proposal with this hash ----------

  predicate Commands(cfg: Config, operator: Address, txs: seq<Tx>, i: nat, command: Command, hash: Hash)
    requires i < |txs|
  {
    && txs[i].call.Message? && Took(cfg, operator, txs, i)
    && txs[i].call.payload.value.command == command && txs[i].call.payload.value.proposal.Hash() == hash
  }

  /** Puts the proposal on its path: a schedule, or an operator approval. */
  predicate Opens(cfg: Config, operator: Address, txs: seq<Tx>, i: nat, path: Path, hash: Hash)
    requires i < |txs|
  {
    Commands(cfg, operator, txs, i, if path.TimeLock? then ScheduleTimeLockProposal else ApproveOperatorProposal, hash)
  }

  predicate Cancels(cfg: Config, operator: Address, txs: seq<Tx>, i: nat, path: Path, hash: Hash)
    requires i < |txs|
  {
    Commands(cfg, operator, txs, i, if path.TimeLock? then CancelTimeLockProposal else CancelOperatorApproval, hash)
  }

  predicate Launches(cfg: Config, operator: Address, txs: seq<Tx>, i: nat, path: Path, hash: Hash)
    requires i < |txs|
  {
    && txs[i].call.Launch? && Took(cfg, operator, txs, i)
    && txs[i].call.path == path && txs[i].call.proposal.Hash() == hash
  }

  /** The callback of a promise on this path for this hash. */
  predicate CallsBack(cfg: Config, operator: Address, txs: seq<Tx>, i: nat, path: Path, hash: Hash)
    requires i < |txs|
  {
    && txs[i].call.Callback? && Took(cfg, operator, txs, i)
    && var p := After(cfg, operator, txs, i).inFlight[txs[i].call.id]; p.path == path && p.hash == hash
  }

  predicate Succeeds(cfg: Config, operator: Address, txs: seq<Tx>, i: nat, path: Path, hash: Hash)
    requires i < |txs|
  {
    CallsBack(cfg, operator, txs, i, path, hash) && txs[i].call.success
  }

  // ---------- the executing flags and the promises agree ----------

  ghost predicate InFlight(s: Sys, path: Path, hash: Hash) {
    exists id :: id in s.inFlight && s.inFlight[id].path == path && s.inFlight[id].hash == hash
  }

  /** The flag is set exactly while one promise is in flight, never two; approvals and submissions agree. */
  ghost predicate Consistent(s: Sys) {
    && (forall path, hash :: hash in Executing(s.gov, path) <==> InFlight(s, path, hash))
    && (forall id, id' | id in s.inFlight && id' in s.inFlight ::
          s.inFlight[id].path == s.inFlight[id'].path && s.inFlight[id].hash == s.inFlight[id'].hash ==> id == id')
    && (forall id :: id in s.inFlight ==> id < s.next)
    && s.gov.operatorApprovals == s.gov.operatorSubmitted
  }

  lemma LaunchConsistent(s: Sys, p: Promise)
    requires Consistent(s) && p.hash !in Executing(s.gov, p.path)
    ensures Consistent(Sys(Launched(s.gov, p.path, p.hash), s.inFlight[s.next := p], s.next + 1))
  {
    var t := Sys(Launched(s.gov, p.path, p.hash), s.inFlight[s.next := p], s.next + 1);
    forall path, hash ensures hash in Executing(t.gov, path) <==> InFlight(t, path, hash) {
      assert t.inFlight[s.next] == p;
      if InFlight(s, path, hash) {
        var id :| id in s.inFlight && s.inFlight[id].path == path && s.inFlight[id].hash == hash;
        assert id in t.inFlight && t.inFlight[id] == s.inFlight[id];
      }
    }
  }

  lemma CallbackConsistent(s: Sys, id: nat, success: bool)
    requires Consistent(s) && id in s.inFlight
    ensures Consistent(Sys(CalledBack(s.gov, s.inFlight[id], success), s.inFlight - {id}, s.next))
  {
    hide Refunded;
    var p := s.inFlight[id];
    var t := Sys(CalledBack(s.gov, p, success), s.inFlight - {id}, s.next);
    forall path, hash ensures hash in Executing(t.gov, path) <==> InFlight(t, path, hash) {
      assert hash in Executing(t.gov, path) <==> hash in Executing(s.gov, path) && !(path == p.path && hash == p.hash);
      if InFlight(s, path, hash) && !(path == p.path && hash == p.hash) {
        var k :| k in s.inFlight && s.inFlight[k].path == path && s.inFlight[k].hash == hash;
        assert k in t.inFlight && t.inFlight[k] == s.inFlight[k];
      }
    }
  }

  lemma SameFlags(s: Sys, t: Sys)
    requires Consistent(s) && t.inFlight == s.inFlight && t.next == s.next
    requires t.gov.timeLockExecuting == s.gov.timeLockExecuting && t.gov.operatorExecuting == s.gov.operatorExecuting
    requires t.gov.operatorApprovals == t.gov.operatorSubmitted
    ensures Consistent(t)
  {
    forall path, hash ensures hash in Executing(t.gov, path) <==> InFlight(t, path, hash) {
      assert InFlight(t, path, hash) <==> InFlight(s, path, hash);
    }
  }

  lemma StepConsistent(cfg: Config, s: Sys, tx: Tx)
    requires Consistent(s)
    ensures Consistent(Step(cfg, s, tx).0)
  {
    assert s.gov.operatorApprovals == s.gov.operatorSubmitted;
    hide Consistent, ProposalHash;
    match tx.call
    case Launch(path, caller, proposal, payments, resources) =>
      if CanLaunch(s.gov, tx.now, path, caller, proposal.Hash(), resources) {
        LaunchConsistent(s, Promise(path, proposal.Hash(), caller, payments));
      }
    case Callback(id, success) =>
      if id in s.inFlight { CallbackConsistent(s, id, success); }
    case _ =>
      SameFlags(s, Step(cfg, s, tx).0);
  }

  /** In every reachable state, however steps interleave. */
  lemma {:induction false} AlwaysConsistent(cfg: Config, operator: Address, txs: seq<Tx>, i: nat)
    requires i <= |txs|
    ensures Consistent(After(cfg, operator, txs, i))
  {
    if i > 0 {
      hide Consistent, Step;
      AlwaysConsistent(cfg, operator, txs, i - 1);
      StepConsistent(cfg, After(cfg, operator, txs, i - 1), txs[i - 1]);
    }
  }

  // ---------- at most once ----------

  function Count(cfg: Config, operator: Address, txs: seq<Tx>, n: nat, path: Path, hash: Hash, opens: bool): nat
    requires n <= |txs|
  {
    if n == 0 then 0
    else Count(cfg, operator, txs, n - 1, path, hash, opens)
         + if (if opens then Opens(cfg, operator, txs, n - 1, path, hash) else Succeeds(cfg, operator, txs, n - 1, path, hash))
           then 1 else 0
  }

  /** How one step moves the submitted and executing flags of a hash. */
  lemma StepFlags(cfg: Config, operator: Address, txs: seq<Tx>, i: nat, path: Path, hash: Hash)
    requires i < |txs|
    ensures var s, t := After(cfg, operator, txs, i).gov, After(cfg, operator, txs, i + 1).gov;
      && (Opens(cfg, operator, txs, i, path, hash) ==>
            hash !in Submitted(s, path) && hash !in Executing(s, path) && !Succeeds(cfg, operator, txs, i, path, hash))
      && (Succeeds(cfg, operator, txs, i, path, hash) ==>
            hash in Executing(s, path) && hash !in Submitted(t, path) && hash !in Executing(t, path))
      && (Launches(cfg, operator, txs, i, path, hash) ==> hash in Submitted(s, path) && hash !in Executing(s, path))
      && (hash in Submitted(t, path) <==>
            || Opens(cfg, operator, txs, i, path, hash)
            || (hash in Submitted(s, path) && !Cancels(cfg, operator, txs, i, path, hash)
                && !Succeeds(cfg, operator, txs, i, path, hash)))
      && (hash in Executing(t, path) <==>
            || Launches(cfg, operator, txs, i, path, hash)
            || (hash in Executing(s, path) && !CallsBack(cfg, operator, txs, i, path, hash)))
  {
    hide ProposalHash, Consistent, Refunded, After;
    AlwaysConsistent(cfg, operator, txs, i);
    var s := After(cfg, operator, txs, i);
    NextState(cfg, operator, txs, i);
    if CallsBack(cfg, operator, txs, i, path, hash) {
      FlagOfPromise(s, txs[i].call.id);
    }
  }

  lemma NextState(cfg: Config, operator: Address, txs: seq<Tx>, i: nat)
    requires i < |txs|
    ensures After(cfg, operator, txs, i + 1) == Step(cfg, After(cfg, operator, txs, i), txs[i]).0
  {
  }

  lemma FlagOfPromise(s: Sys, id: nat)
    requires Consistent(s) && id in s.inFlight
    ensures s.inFlight[id].hash in Executing(s.gov, s.inFlight[id].path)
  {
    assert InFlight(s, s.inFlight[id].path, s.inFlight[id].hash);
  }

  /** Successful executions never exceed schedules (or approvals), in any prefix of any run; a proposal that is
      pending or in flight accounts for one more. */
  lemma {:induction false} AtMostOncePerSchedule(cfg: Config, operator: Address, txs: seq<Tx>, n: nat, path: Path, hash: Hash)
    requires n <= |txs|
    ensures var s := After(cfg, operator, txs, n).gov;
      Count(cfg, operator, txs, n, path, hash, false)
        + (if hash in Submitted(s, path) || hash in Executing(s, path) then 1 else 0)
      <= Count(cfg, operator, txs, n, path, hash, true)
  {
    if n > 0 {
      hide After, Opens, Succeeds, Cancels, Launches, CallsBack;
      AtMostOncePerSchedule(cfg, operator, txs, n - 1, path, hash);
      StepFlags(cfg, operator, txs, n - 1, path, hash);
    } else {
      assert After(cfg, operator, txs, 0) == Initial(operator);
    }
  }

  /** A promise in flight at `j` that was registered before `i` was in flight at `i`, unchanged. */
  lemma {:induction false} InFlightSince(cfg: Config, operator: Address, txs: seq<Tx>, i: nat, j: nat, id: nat)
    requires i <= j <= |txs|
    requires id < After(cfg, operator, txs, i).next && id in After(cfg, operator, txs, j).inFlight
    ensures id in After(cfg, operator, txs, i).inFlight
    ensures After(cfg, operator, txs, i).inFlight[id] == After(cfg, operator, txs, j).inFlight[id]
  {
    hide Commanded, CanLaunch, CalledBack, Launched, ProposalHash;
    if i < j {
      NextGrows(cfg, operator, txs, i, j - 1);
      InFlightSince(cfg, operator, txs, i, j - 1, id);
    }
  }

  lemma {:induction false} NextGrows(cfg: Config, operator: Address, txs: seq<Tx>, i: nat, j: nat)
    requires i <= j <= |txs|
    ensures After(cfg, operator, txs, i).next <= After(cfg, operator, txs, j).next
  {
    hide Commanded, CanLaunch, CalledBack, Launched, ProposalHash;
    if i < j { NextGrows(cfg, operator, txs, i, j - 1); }
  }

  /** A callback never clears a schedule made after its own launch: while the promise is in flight nothing can
      schedule (or approve) its proposal, even when a cancellation lands in between. */
  lemma {:induction false} NoScheduleMidFlight(cfg: Config, operator: Address, txs: seq<Tx>, launch: nat, k: nat, callback: nat,
                            path: Path, hash: Hash)
    requires launch < k < callback < |txs|
    requires Launches(cfg, operator, txs, launch, path, hash)
    requires CallsBack(cfg, operator, txs, callback, path, hash)
    requires txs[callback].call.id == After(cfg, operator, txs, launch).next
    ensures !Opens(cfg, operator, txs, k, path, hash)
  {
    var id := txs[callback].call.id;
    NextState(cfg, operator, txs, launch);
    assert id < After(cfg, operator, txs, launch + 1).next;
    NextGrows(cfg, operator, txs, launch + 1, k);
    InFlightSince(cfg, operator, txs, k, callback, id);
    AlwaysConsistent(cfg, operator, txs, k);
    FlagOfPromise(After(cfg, operator, txs, k), id);
    StepFlags(cfg, operator, txs, k, path, hash);
  }

  // ---------- time lock ----------

  /** Opened at `i` and untouched since. */
  predicate PendingSince(cfg: Config, operator: Address, txs: seq<Tx>, i: nat, n: nat, path: Path, hash: Hash)
    requires i < n <= |txs|
  {
    && Opens(cfg, operator, txs, i, path, hash)
    && forall k :: i < k < n ==> !Cancels(cfg, operator, txs, k, path, hash) && !Succeeds(cfg, operator, txs, k, path, hash)
  }

  lemma StepEta(cfg: Config, operator: Address, txs: seq<Tx>, i: nat, hash: Hash)
    requires i < |txs|
    ensures var s, t := After(cfg, operator, txs, i).gov, After(cfg, operator, txs, i + 1).gov;
      && (Opens(cfg, operator, txs, i, TimeLock, hash) ==>
            EtaOf(t, hash) == StoredEta(cfg, txs[i].now, txs[i].call.payload.value.eta))
      && (hash in Submitted(s, TimeLock) ==>
            || Cancels(cfg, operator, txs, i, TimeLock, hash)
            || Succeeds(cfg, operator, txs, i, TimeLock, hash)
            || EtaOf(t, hash) == EtaOf(s, hash))
  {
    hide ProposalHash, After, StoredEta, Refunded;
    NextState(cfg, operator, txs, i);
  }

  lemma {:induction false} PendingHasOrigin(cfg: Config, operator: Address, txs: seq<Tx>, n: nat, path: Path, hash: Hash)
    returns (i: nat)
    requires n <= |txs| && hash in Submitted(After(cfg, operator, txs, n).gov, path)
    ensures i < n && PendingSince(cfg, operator, txs, i, n, path, hash)
    ensures path.TimeLock? ==> EtaOf(After(cfg, operator, txs, n).gov, hash)
                               == StoredEta(cfg, txs[i].now, txs[i].call.payload.value.eta)
  {
    hide Opens, Succeeds, Cancels, Launches, CallsBack, Step, EtaOf, StoredEta, ProposalHash;
    assert n > 0;
    StepFlags(cfg, operator, txs, n - 1, path, hash);
    if path.TimeLock? { StepEta(cfg, operator, txs, n - 1, hash); }
    if Opens(cfg, operator, txs, n - 1, path, hash) {
      i := n - 1;
      OpensIsMessage(cfg, operator, txs, i, path, hash);
    } else {
      i := PendingHasOrigin(cfg, operator, txs, n - 1, path, hash);
      OpensIsMessage(cfg, operator, txs, i, path, hash);
    }
  }

  lemma OpensIsMessage(cfg: Config, operator: Address, txs: seq<Tx>, i: nat, path: Path, hash: Hash)
    requires i < |txs| && Opens(cfg, operator, txs, i, path, hash)
    ensures txs[i].call.Message? && txs[i].call.payload.Some?
  {
  }

  lemma SameProposal(p: Proposal, q: Proposal)
    requires p.Hash() == q.Hash()
    ensures p == q
  {
    ProposalHashInjective(p.target, p.callData, p.nativeValue, q.target, q.callData, q.nativeValue);
  }

  /** Every time-locked launch at `t` follows a schedule at `s` of this very proposal (target, call data and value) with
      the requested eta reached and nothing cancelling or completing it in between; the delay has passed exactly when
      `s + delay` is a u64. */
  lemma TimeLockRespected(cfg: Config, operator: Address, txs: seq<Tx>, j: nat, hash: Hash) returns (i: nat)
    requires j < |txs| && Launches(cfg, operator, txs, j, TimeLock, hash)
    ensures i < j && PendingSince(cfg, operator, txs, i, j, TimeLock, hash)
    ensures txs[i].call.Message? && txs[i].call.payload.Some?
    ensures txs[i].call.payload.value.proposal == txs[j].call.proposal
    ensures txs[j].now >= txs[i].call.payload.value.eta
    ensures txs[j].now >= txs[i].now + cfg.minimumDelay <==> txs[i].now + cfg.minimumDelay < U64_RANGE
  {
    StepFlags(cfg, operator, txs, j, TimeLock, hash);
    i := PendingHasOrigin(cfg, operator, txs, j, TimeLock, hash);
    OpensIsMessage(cfg, operator, txs, i, TimeLock, hash);
    SameProposal(txs[i].call.payload.value.proposal, txs[j].call.proposal);
    assert txs[j].now >= EtaOf(After(cfg, operator, txs, j).gov, hash);
  }

  /** The wrapping case exists: with the largest delay, a proposal scheduled at time 1 is launched at time 1. */
  lemma DelayCanWrap(cfg: Config, operator: Address, caller: Address, p: Proposal)
    requires cfg.minimumDelay == 0xFFFF_FFFF_FFFF_FFFF && p.target != ZERO_ADDRESS
    ensures var txs := [Tx(1, Call.Message(cfg.governanceChain, cfg.governanceAddress, true,
                                      Some(ExecutePayload(ScheduleTimeLockProposal, p, 0)))),
                        Tx(1, Launch(TimeLock, caller, p, EgldPayment(0), true))];
      Launches(cfg, operator, txs, 1, TimeLock, p.Hash()) && txs[1].now < txs[0].now + cfg.minimumDelay
  {
    hide ProposalHash;
    var schedule := Tx(1, Call.Message(cfg.governanceChain, cfg.governanceAddress, true,
                                  Some(ExecutePayload(ScheduleTimeLockProposal, p, 0))));
    var txs := [schedule, Tx(1, Launch(TimeLock, caller, p, EgldPayment(0), true))];
    assert After(cfg, operator, txs, 1) == Step(cfg, Initial(operator), schedule).0;
  }

  /** An operator launch is sent by the operator of that moment and follows an approval nothing has used or withdrawn. */
  lemma OperatorLaunchApproved(cfg: Config, operator: Address, txs: seq<Tx>, j: nat, hash: Hash) returns (i: nat)
    requires j < |txs| && Launches(cfg, operator, txs, j, Path.Operator, hash)
    ensures i < j && PendingSince(cfg, operator, txs, i, j, Path.Operator, hash)
    ensures txs[i].call.Message? && txs[i].call.payload.Some?
    ensures txs[i].call.payload.value.proposal == txs[j].call.proposal
    ensures txs[j].call.caller == After(cfg, operator, txs, j).gov.operator
  {
    StepFlags(cfg, operator, txs, j, Path.Operator, hash);
    i := PendingHasOrigin(cfg, operator, txs, j, Path.Operator, hash);
    OpensIsMessage(cfg, operator, txs, i, Path.Operator, hash);
    SameProposal(txs[i].call.payload.value.proposal, txs[j].call.proposal);
  }

  // ---------- refunds ----------

  function ListAmount(list: seq<EsdtPayment>, n: nat, asset: Asset): nat
    requires n <= |list|
  {
    if n == 0 then 0
    else ListAmount(list, n - 1, asset) + if AssetOf(list[n - 1]) == asset then list[n - 1].amount else 0
  }

  /** How much of an asset a caller attached, repeated tokens added up. */
  function AmountPaid(payments: Payments, asset: Asset): nat {
    match payments
    case EgldPayment(value) => if asset == Asset(Egld, 0) then value else 0
    case EsdtPayments(list) => ListAmount(list, |list|, asset)
  }

  lemma {:induction false} ListRefunded(refunds: map<(Address, Asset), nat>, caller: Address, list: seq<EsdtPayment>,
                                        n: nat, user: Address, asset: Asset)
    requires n <= |list|
    ensures Owed(AddRefunds(refunds, caller, list, n), user, asset)
         == Owed(refunds, user, asset) + if user == caller then ListAmount(list, n, asset) else 0
  {
    if n > 0 { ListRefunded(refunds, caller, list, n - 1, user, asset); }
  }

  /** Payments of a user that came back through failed callbacks, on either path. */
  function FailedPayments(cfg: Config, operator: Address, txs: seq<Tx>, n: nat, user: Address, asset: Asset): nat
    requires n <= |txs|
  {
    if n == 0 then 0
    else FailedPayments(cfg, operator, txs, n - 1, user, asset)
         + if txs[n - 1].call.Callback? && Took(cfg, operator, txs, n - 1) && !txs[n - 1].call.success
           then var p := After(cfg, operator, txs, n - 1).inFlight[txs[n - 1].call.id];
                if p.caller == user then AmountPaid(p.payments, asset) else 0
           else 0
  }

  /** What the user took out: the whole entry, each time the withdrawal is funded. */
  function Withdrawn(cfg: Config, operator: Address, txs: seq<Tx>, n: nat, user: Address, asset: Asset): nat
    requires n <= |txs|
  {
    if n == 0 then 0
    else Withdrawn(cfg, operator, txs, n - 1, user, asset)
         + if txs[n - 1].call == WithdrawRefund(user, asset, true)
           then Owed(After(cfg, operator, txs, n - 1).gov.refunds, user, asset)
           else 0
  }

  lemma StepRefunds(cfg: Config, s: Sys, tx: Tx, user: Address, asset: Asset)
    ensures Owed(Step(cfg, s, tx).0.gov.refunds, user, asset)
              + (if tx.call == WithdrawRefund(user, asset, true) then Owed(s.gov.refunds, user, asset) else 0)
         == Owed(s.gov.refunds, user, asset)
              + (if tx.call.Callback? && Step(cfg, s, tx).1 && !tx.call.success && s.inFlight[tx.call.id].caller == user
                 then AmountPaid(s.inFlight[tx.call.id].payments, asset) else 0)
  {
    hide ProposalHash, AddRefunds;
    if tx.call.Callback? && tx.call.id in s.inFlight {
      var p := s.inFlight[tx.call.id];
      if p.payments.EsdtPayments? {
        ListRefunded(s.gov.refunds, p.caller, p.payments.list, |p.payments.list|, user, asset);
      }
    }
  }

  /** Ledger balance plus what was withdrawn is exactly what came back from failed executions. */
  lemma {:induction false} RefundsConserved(cfg: Config, operator: Address, txs: seq<Tx>, n: nat, user: Address, asset: Asset)
    requires n <= |txs|
    ensures Owed(After(cfg, operator, txs, n).gov.refunds, user, asset) + Withdrawn(cfg, operator, txs, n, user, asset)
         == FailedPayments(cfg, operator, txs, n, user, asset)
  {
    if n > 0 {
      hide Step, Owed, AmountPaid;
      RefundsConserved(cfg, operator, txs, n - 1, user, asset);
      StepRefunds(cfg, After(cfg, operator, txs, n - 1), txs[n - 1], user, asset);
    }
  }
}
