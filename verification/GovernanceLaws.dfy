/** When a governance command, a launch or a callback takes effect, and what it then changes. */
module GovernanceLaws {
  import opened ByteStrings
  import opened Keccak
  import opened Preimages
  import opened ChainTypes
  import opened GovernanceSpec
  import opened GovernanceRuns

  // ---------- commands ----------

  function PathOf(command: Command): Path {
    if command.ScheduleTimeLockProposal? || command.CancelTimeLockProposal? then TimeLock else Path.Operator
  }

  /** The commands that put a proposal on its path; the others take it off. */
  predicate Opening(command: Command) { command.ScheduleTimeLockProposal? || command.ApproveOperatorProposal? }

  /** Every command needs a target. An opening command also needs the proposal to be neither on the path nor in flight on
      it; a cancellation needs nothing else and never fails. */
  lemma CommandsExactly(cfg: Config, s: GovState, now: u64, p: ExecutePayload)
    ensures Commanded(cfg, s, now, p).Some? <==>
      && p.proposal.target != Zeros(32)
      && (Opening(p.command) ==>
            p.proposal.Hash() !in Submitted(s, PathOf(p.command)) && p.proposal.Hash() !in Executing(s, PathOf(p.command)))
  {
    hide ProposalHash;
  }

  function Later(a: nat, b: nat): nat { if a < b then b else a }

  /** A command changes nothing but its own proposal on its own path: opened or taken off, and when scheduled, due at
      the requested time or at the minimum delay from now (modulo 2^64), whichever is later. */
  lemma CommandsMean(cfg: Config, s: GovState, now: u64, p: ExecutePayload, path: Path, hash: Hash)
    requires Commanded(cfg, s, now, p).Some?
    ensures var t := Commanded(cfg, s, now, p).value;
      && (hash in Submitted(t, path) <==>
            if path == PathOf(p.command) && hash == p.proposal.Hash() then Opening(p.command) else hash in Submitted(s, path))
      && EtaOf(t, hash) == (if PathOf(p.command).Operator? || hash != p.proposal.Hash() then EtaOf(s, hash)
                            else if Opening(p.command) then Later(p.eta, (now + cfg.minimumDelay) % 0x1_0000_0000_0000_0000)
                            else 0)
      && (hash in t.operatorApprovals <==>
            if PathOf(p.command).Operator? && hash == p.proposal.Hash() then Opening(p.command) else hash in s.operatorApprovals)
      && Executing(t, path) == Executing(s, path) && t.refunds == s.refunds && t.operator == s.operator
  {
    hide ProposalHash;
  }

  /** A message takes effect exactly when it comes validated from the governance address on the governance chain and its
      command can be carried out. */
  lemma MessagesExactly(cfg: Config, s: Sys, now: u64, chain: bytes, address: bytes, validated: bool, payload: Option<ExecutePayload>)
    ensures Step(cfg, s, Tx(now, Call.Message(chain, address, validated, payload))).1 <==>
      && chain == cfg.governanceChain && address == cfg.governanceAddress && validated && payload.Some?
      && Commanded(cfg, s.gov, now, payload.value).Some?
  {
    hide Commanded;
  }

  /** In every reachable state, whatever is pending or in flight: a validated cancellation takes the proposal off its path. */
  lemma {:induction false} CancelAlwaysWorks(cfg: Config, operator: Address, txs: seq<Tx>, i: nat, path: Path, proposal: Proposal, eta: u64)
    requires i < |txs| && proposal.target != Zeros(32)
    requires txs[i].call == Call.Message(cfg.governanceChain, cfg.governanceAddress, true,
      Some(ExecutePayload(if path.TimeLock? then CancelTimeLockProposal else CancelOperatorApproval, proposal, eta)))
    ensures Cancels(cfg, operator, txs, i, path, proposal.Hash())
    ensures proposal.Hash() !in Submitted(After(cfg, operator, txs, i + 1).gov, path)
  {
    hide ProposalHash, After;
    var s, p := After(cfg, operator, txs, i), txs[i].call.payload.value;
    NextState(cfg, operator, txs, i);
    CommandsExactly(cfg, s.gov, txs[i].now, p);
    CommandsMean(cfg, s.gov, txs[i].now, p, path, proposal.Hash());
  }

  /** And off the path it stays: until it is opened again nobody can launch it. */
  lemma {:induction false} CancelledStaysOff(cfg: Config, operator: Address, txs: seq<Tx>, i: nat, j: nat, path: Path, hash: Hash)
    requires i < j <= |txs| && Cancels(cfg, operator, txs, i, path, hash)
    requires forall k :: i < k < j ==> !Opens(cfg, operator, txs, k, path, hash)
    ensures hash !in Submitted(After(cfg, operator, txs, j).gov, path)
    ensures j < |txs| ==> !Launches(cfg, operator, txs, j, path, hash)
    decreases j
  {
    hide After, Opens, Succeeds, Launches, CallsBack, Cancels;
    StepFlags(cfg, operator, txs, j - 1, path, hash);
    if i < j - 1 {
      CancelledStaysOff(cfg, operator, txs, i, j - 1, path, hash);
    } else {
      NotOpening(cfg, operator, txs, i, path, hash);
    }
    if j < |txs| { StepFlags(cfg, operator, txs, j, path, hash); }
  }

  lemma NotOpening(cfg: Config, operator: Address, txs: seq<Tx>, i: nat, path: Path, hash: Hash)
    requires i < |txs| && Cancels(cfg, operator, txs, i, path, hash)
    ensures !Opens(cfg, operator, txs, i, path, hash)
  {
  }

  // ---------- launches ----------

  lemma {:induction false} PendingIsOn(cfg: Config, operator: Address, txs: seq<Tx>, i: nat, n: nat, path: Path, hash: Hash)
    requires i < n <= |txs| && PendingSince(cfg, operator, txs, i, n, path, hash)
    ensures hash in Submitted(After(cfg, operator, txs, n).gov, path)
    ensures txs[i].call.Message? && txs[i].call.payload.Some?
    ensures path.TimeLock? ==>
      EtaOf(After(cfg, operator, txs, n).gov, hash)
      == Later(txs[i].call.payload.value.eta, (txs[i].now + cfg.minimumDelay) % 0x1_0000_0000_0000_0000)
    decreases n
  {
    hide After, Opens, Succeeds, Cancels, Launches, CallsBack, EtaOf;
    OpensIsMessage(cfg, operator, txs, i, path, hash);
    StepFlags(cfg, operator, txs, n - 1, path, hash);
    if path.TimeLock? { StepEta(cfg, operator, txs, n - 1, hash); }
    if i < n - 1 { PendingIsOn(cfg, operator, txs, i, n - 1, path, hash); }
  }

  /** A proposal that was opened and neither cancelled nor completed since can be launched exactly when it is not in
      flight, there are the resources, and: on the time lock, both the requested time and the time of the schedule plus
      the delay (modulo 2^64) are reached; on the operator's path, the operator sends it. */
  lemma {:induction false} PendingLaunches(cfg: Config, operator: Address, txs: seq<Tx>, i: nat, j: nat, path: Path)
    requires i < j < |txs| && txs[j].call.Launch? && txs[j].call.path == path
    requires PendingSince(cfg, operator, txs, i, j, path, txs[j].call.proposal.Hash())
    ensures txs[i].call.Message? && txs[i].call.payload.Some?
    ensures Took(cfg, operator, txs, j) <==>
      && txs[j].call.resources
      && !InFlight(After(cfg, operator, txs, j), path, txs[j].call.proposal.Hash())
      && (path.TimeLock? ==>
            && txs[j].now >= txs[i].call.payload.value.eta
            && txs[j].now >= (txs[i].now + cfg.minimumDelay) % 0x1_0000_0000_0000_0000)
      && (path.Operator? ==> txs[j].call.caller == After(cfg, operator, txs, j).gov.operator)
  {
    hide After, PendingSince, ProposalHash, InFlight, EtaOf;
    var hash := txs[j].call.proposal.Hash();
    PendingIsOn(cfg, operator, txs, i, j, path, hash);
    AlwaysConsistent(cfg, operator, txs, j);
  }

  /** Without such an opening it cannot be launched at all. */
  lemma OnlyPendingLaunches(cfg: Config, operator: Address, txs: seq<Tx>, j: nat)
    requires j < |txs| && txs[j].call.Launch? && Took(cfg, operator, txs, j)
    ensures exists i :: 0 <= i < j && PendingSince(cfg, operator, txs, i, j, txs[j].call.path, txs[j].call.proposal.Hash())
  {
    hide After, PendingSince, ProposalHash;
    var i := PendingHasOrigin(cfg, operator, txs, j, txs[j].call.path, txs[j].call.proposal.Hash());
  }

  // ---------- promises ----------

  /** The promise is what transaction k launched: its path and proposal, its sender, and what was attached to it. */
  predicate LaunchedAt(cfg: Config, operator: Address, txs: seq<Tx>, k: nat, id: nat, p: Promise)
    requires k < |txs|
  {
    && txs[k].call.Launch? && Took(cfg, operator, txs, k) && After(cfg, operator, txs, k).next == id
    && p.path == txs[k].call.path && p.hash == txs[k].call.proposal.Hash()
    && p.caller == txs[k].call.caller && p.payments == txs[k].call.payments
  }

  lemma PromisesStep(cfg: Config, s: Sys, tx: Tx, id: nat)
    requires id in Step(cfg, s, tx).0.inFlight
    ensures || (id in s.inFlight && Step(cfg, s, tx).0.inFlight[id] == s.inFlight[id])
            || (tx.call.Launch? && Step(cfg, s, tx).1 && id == s.next
                && Step(cfg, s, tx).0.inFlight[id] == Promise(tx.call.path, tx.call.proposal.Hash(), tx.call.caller, tx.call.payments))
  {
    hide ProposalHash, Commanded, CanLaunch, CalledBack, Launched;
  }

  /** So whose payments a failed execution gives back is settled by its launch. */
  lemma {:induction false} PromiseOrigin(cfg: Config, operator: Address, txs: seq<Tx>, n: nat, id: nat) returns (k: nat)
    requires n <= |txs| && id in After(cfg, operator, txs, n).inFlight
    ensures k < n && LaunchedAt(cfg, operator, txs, k, id, After(cfg, operator, txs, n).inFlight[id])
    decreases n
  {
    hide Step;
    assert n > 0;
    PromisesStep(cfg, After(cfg, operator, txs, n - 1), txs[n - 1], id);
    if id in After(cfg, operator, txs, n - 1).inFlight
       && After(cfg, operator, txs, n).inFlight[id] == After(cfg, operator, txs, n - 1).inFlight[id] {
      k := PromiseOrigin(cfg, operator, txs, n - 1, id);
    } else {
      k := n - 1;
    }
  }

  /** A callback takes effect exactly once, while its promise is in flight. It ends that promise and touches no other
      proposal or path; a success takes the proposal off its path, a failure leaves it there with its due time, to be
      launched again. */
  lemma CallbacksExactly(cfg: Config, s: Sys, now: u64, id: nat, success: bool, path: Path, hash: Hash)
    ensures var r := Step(cfg, s, Tx(now, Callback(id, success)));
      && (r.1 <==> id in s.inFlight)
      && r.0.inFlight == s.inFlight - {id}
      && (r.1 ==>
            var own := s.inFlight[id].path == path && s.inFlight[id].hash == hash;
            && (hash in Submitted(r.0.gov, path) <==> hash in Submitted(s.gov, path) && !(own && success))
            && (hash in Executing(r.0.gov, path) <==> hash in Executing(s.gov, path) && !own)
            && (path.TimeLock? && !(own && success) ==> EtaOf(r.0.gov, hash) == EtaOf(s.gov, hash)))
  {
    hide Refunded;
  }

  // ---------- the operator ----------

  /** The operator is replaced exactly when the operator or the contract itself names another, and by nothing else. */
  lemma OperatorExactly(cfg: Config, s: Sys, tx: Tx)
    ensures tx.call.TransferOperatorship? ==>
      (Step(cfg, s, tx).1 <==>
        (tx.call.caller == s.gov.operator || tx.call.caller == cfg.contract) && tx.call.newOperator != Zeros(32))
    ensures Step(cfg, s, tx).0.gov.operator
         == if tx.call.TransferOperatorship? && Step(cfg, s, tx).1 then tx.call.newOperator else s.gov.operator
  {
    hide ProposalHash, CanLaunch, Refunded;
  }
}

/** The same at the gateway: from an approved message to its effect. */
module CommandLaws {
  import opened ByteStrings
  import opened Keccak
  import opened Preimages
  import opened Decoding
  import opened GovernanceSpec
  import opened GovernanceRuns
  import opened GovernanceLaws
  import opened GovernanceAndGateway
  import GW = GatewaySpec

  /** Nothing may follow a command. */
  lemma PayloadUsesAll(b: Buffer, more: Buffer)
    requires DecodePayload(b).Some? && more != []
    ensures DecodePayload(b + more).None?
  {
    hide ReadBytes, ReadNested, ReadBig, CommandOf;
    var code := ReadBytes(b, 1).value;
    var target := ReadBytes(code.rest, 32).value;
    var callData := ReadNested(target.rest).value;
    var nativeValue := ReadBig(callData.rest).value;
    BytesThenMore(b, 1, more);
    BytesThenMore(code.rest, 32, more);
    NestedThenMore(target.rest, more);
    BigThenMore(callData.rest, more);
    BytesThenMore(nativeValue.rest, 8, more);
  }

  /** The message stands approved at the gateway, from the governance address to this contract. */
  predicate Standing(cfg: Config, messages: map<CrossChainId, GW.MessageState>, id: CrossChainId, payload: Buffer) {
    GW.StateOf(messages, id)
    == GW.Approved(GW.HashOf(Preimages.Message(id, cfg.governanceAddress, cfg.contract, Keccak256(payload))))
  }

  /** `execute` succeeds exactly for a standing message from the governance chain and address whose payload is a command
      that can be carried out; it uses up this message and no other. */
  lemma ExecutesExactly(cfg: Config, messages: map<CrossChainId, GW.MessageState>, s: GovState, now: u64,
                        sourceChain: ManagedBuffer, messageId: ManagedBuffer, sourceAddress: ManagedBuffer, payload: Buffer,
                        other: CrossChainId)
    ensures var r := ExecutedCommand(cfg, messages, s, now, sourceChain, messageId, sourceAddress, payload);
      var id := CrossChainId(sourceChain, messageId);
      && (r.Some? <==>
            && sourceChain == cfg.governanceChain && sourceAddress == cfg.governanceAddress
            && Standing(cfg, messages, id, payload)
            && DecodePayload(payload).Some? && Commanded(cfg, s, now, DecodePayload(payload).value).Some?)
      && (r.Some? ==>
            && Some(r.value.1) == Commanded(cfg, s, now, DecodePayload(payload).value)
            && GW.StateOf(r.value.0, other) == if other == id then GW.Executed else GW.StateOf(messages, other))
  {
    hide MessageHash, DecodePayload, Commanded;
  }

  /** Anybody can carry out a standing cancellation of a proposal with a target, on either path and in any state: it
      succeeds, the message is used up, and the proposal is off its path. */
  lemma StandingCancelWorks(u: Setup, w: World, now: u64, messageId: ManagedBuffer, path: Path, proposal: Proposal, eta: u64)
    requires proposal.target != Zeros(32)
    requires var command := if path.TimeLock? then CancelTimeLockProposal else CancelOperatorApproval;
      Standing(u.gov, w.gateway.messages, CrossChainId(u.gov.governanceChain, messageId),
               EncodePayload(ExecutePayload(command, proposal, eta)))
    ensures var command := if path.TimeLock? then CancelTimeLockProposal else CancelOperatorApproval;
      var payload := EncodePayload(ExecutePayload(command, proposal, eta));
      var v := Next(u, w, Execute(now, u.gov.governanceChain, messageId, u.gov.governanceAddress, payload));
      && v.done == w.done + [Done(CrossChainId(u.gov.governanceChain, messageId), payload)]
      && proposal.Hash() !in Submitted(v.sys.gov, path)
  {
    hide DecodePayload, EncodePayload, Commanded, ProposalHash, Standing, ExecutedCommand;
    var command := if path.TimeLock? then CancelTimeLockProposal else CancelOperatorApproval;
    var p := ExecutePayload(command, proposal, eta);
    var id := CrossChainId(u.gov.governanceChain, messageId);
    PayloadDecodes(p);
    CommandsExactly(u.gov, w.sys.gov, now, p);
    CommandsMean(u.gov, w.sys.gov, now, p, path, proposal.Hash());
    ExecutesExactly(u.gov, w.gateway.messages, w.sys.gov, now, u.gov.governanceChain, messageId, u.gov.governanceAddress,
                    EncodePayload(p), id);
  }

  /** Event k carried out a command that opens the path for this hash. */
  ghost predicate OpenedAt(u: Setup, events: seq<Event>, k: nat, path: Path, hash: Hash)
    requires k < |events|
  {
    && events[k].Execute? && Run(u, events, k + 1) != Run(u, events, k)
    && OpensPath(Done(CrossChainId(events[k].sourceChain, events[k].messageId), events[k].payload), path, hash)
  }

  lemma OnlyOpenings(u: Setup, w: World, e: Event, path: Path, hash: Hash)
    requires hash !in Submitted(w.sys.gov, path) && hash in Submitted(Next(u, w, e).sys.gov, path)
    ensures e.Execute? && Next(u, w, e) != w
    ensures OpensPath(Done(CrossChainId(e.sourceChain, e.messageId), e.payload), path, hash)
  {
    hide GW.Step, ProposalHash, DecodePayload, MessageHash, GW.StateOf, Refunded;
  }

  /** Once off its path a proposal stays off it, and every attempt to launch it fails, until a message opens it again. */
  lemma {:induction false} OffUntilOpened(u: Setup, events: seq<Event>, i: nat, j: nat, path: Path, hash: Hash)
    requires i <= j <= |events| && hash !in Submitted(Run(u, events, i).sys.gov, path)
    requires forall k :: i <= k < j ==> !OpenedAt(u, events, k, path, hash)
    ensures hash !in Submitted(Run(u, events, j).sys.gov, path)
    ensures j < |events| && events[j].CallGovernance? && events[j].govTx.call.Launch? && events[j].govTx.call.path == path
            && events[j].govTx.call.proposal.Hash() == hash
            ==> !Step(u.gov, Run(u, events, j).sys, events[j].govTx).1
    decreases j
  {
    hide Next, ProposalHash;
    if i < j {
      OffUntilOpened(u, events, i, j - 1, path, hash);
      assert !OpenedAt(u, events, j - 1, path, hash);
      if hash in Submitted(Run(u, events, j).sys.gov, path) {
        OnlyOpenings(u, Run(u, events, j - 1), events[j - 1], path, hash);
        assert false;
      }
    }
  }
}
