/** Governance behind the gateway. A command is carried out exactly when the gateway consumes its message, so every
    execution is backed by a message of its own that a quorum approved. */
module GovernanceAndGateway {
  import opened ByteStrings
  import opened Keccak
  import opened Preimages
  import opened Decoding
  import opened Signatures
  import opened GovernanceSpec
  import opened GovernanceRuns
  import GW = GatewaySpec
  import GR = GatewayRuns

  /** A message governance carried out: its id at the gateway, and its payload. */
  datatype Done = Done(id: CrossChainId, payload: Buffer)

  /** Both contracts; what each of them went through is recorded beside them. */
  datatype World = World(gateway: GW.GatewayState, sys: Sys, gatewayTxs: seq<GW.Tx>, govTxs: seq<Tx>, done: seq<Done>)

  datatype Setup = Setup(gateway: GW.Config, verify: Verifier, gov: Config, operator: Address)

  /** Governance validates messages in `execute` only. */
  datatype Event =
    | CallGateway(tx: GW.Tx)
    | Execute(now: u64, sourceChain: ManagedBuffer, messageId: ManagedBuffer, sourceAddress: ManagedBuffer, payload: Buffer)
    | CallGovernance(govTx: Tx)

  function Start(u: Setup): World { World(GW.EMPTY, Initial(u.operator), [], [], []) }

  ghost function Next(u: Setup, w: World, e: Event): World {
    match e
    case CallGateway(tx) =>
      if tx.call.Validate? && tx.call.caller == u.gov.contract then w
      else w.(gateway := GW.Step(u.gateway, u.verify, w.gateway, tx).0, gatewayTxs := w.gatewayTxs + [tx])
    case CallGovernance(tx) =>
      if tx.call.Message? then w
      else w.(sys := Step(u.gov, w.sys, tx).0, govTxs := w.govTxs + [tx])
    case Execute(now, sourceChain, messageId, sourceAddress, payload) =>
      match ExecutedCommand(u.gov, w.gateway.messages, w.sys.gov, now, sourceChain, messageId, sourceAddress, payload)
      case None => w
      case Some(r) =>
        var id := CrossChainId(sourceChain, messageId);
        World(w.gateway.(messages := r.0), w.sys.(gov := r.1),
              w.gatewayTxs + [GW.Tx(now, GW.Validate(u.gov.contract, id, sourceAddress, Keccak256(payload)))],
              w.govTxs + [Tx(now, Call.Message(sourceChain, sourceAddress, true, DecodePayload(payload)))],
              w.done + [Done(id, payload)])
  }

  ghost function Run(u: Setup, events: seq<Event>, n: nat): World
    requires n <= |events|
    decreases n
  {
    if n == 0 then Start(u) else Next(u, Run(u, events, n - 1), events[n - 1])
  }

  // ---------- the contracts' own runs ----------

  ghost predicate Recorded(u: Setup, w: World) {
    && w.gateway == GR.After(u.gateway, u.verify, w.gatewayTxs, |w.gatewayTxs|)
    && w.sys == After(u.gov, u.operator, w.govTxs, |w.govTxs|)
  }

  lemma {:induction false} GatewayPrefix(cfg: GW.Config, verify: Verifier, txs: seq<GW.Tx>, more: seq<GW.Tx>, n: nat)
    requires n <= |txs|
    ensures GR.After(cfg, verify, txs + more, n) == GR.After(cfg, verify, txs, n)
    decreases n
  {
    hide GW.Step;
    if n > 0 { GatewayPrefix(cfg, verify, txs, more, n - 1); }
  }

  lemma {:induction false} GovernancePrefix(cfg: Config, operator: Address, txs: seq<Tx>, more: seq<Tx>, n: nat)
    requires n <= |txs|
    ensures After(cfg, operator, txs + more, n) == After(cfg, operator, txs, n)
    decreases n
  {
    hide Step;
    if n > 0 { GovernancePrefix(cfg, operator, txs, more, n - 1); }
  }

  /** Carrying out a command is one transaction of each contract. */
  lemma ExecuteIsBoth(u: Setup, w: World, e: Event)
    requires e.Execute?
    requires ExecutedCommand(u.gov, w.gateway.messages, w.sys.gov, e.now, e.sourceChain, e.messageId, e.sourceAddress, e.payload).Some?
    ensures var r := ExecutedCommand(u.gov, w.gateway.messages, w.sys.gov, e.now, e.sourceChain, e.messageId, e.sourceAddress, e.payload).value;
      var id := CrossChainId(e.sourceChain, e.messageId);
      && GW.Step(u.gateway, u.verify, w.gateway, GW.Tx(e.now, GW.Validate(u.gov.contract, id, e.sourceAddress, Keccak256(e.payload))))
         == (w.gateway.(messages := r.0), GW.Done(true))
      && DecodePayload(e.payload).Some?
      && Step(u.gov, w.sys, Tx(e.now, Call.Message(e.sourceChain, e.sourceAddress, true, DecodePayload(e.payload))))
         == (w.sys.(gov := r.1), true)
  {
    hide MessageHash, DecodePayload, Commanded, GW.RotateAll, GW.ApproveAll, DecodeSigners, DecodeBatch;
  }

  lemma StepRecorded(u: Setup, w: World, e: Event)
    requires Recorded(u, w)
    ensures Recorded(u, Next(u, w, e))
  {
    hide GW.Step, Step, ExecutedCommand;
    var v := Next(u, w, e);
    if e.Execute? && v != w { ExecuteIsBoth(u, w, e); }
    if v.gatewayTxs != w.gatewayTxs {
      var tx := v.gatewayTxs[|w.gatewayTxs|];
      GatewayPrefix(u.gateway, u.verify, w.gatewayTxs, [tx], |w.gatewayTxs|);
    }
    if v.govTxs != w.govTxs {
      var tx := v.govTxs[|w.govTxs|];
      GovernancePrefix(u.gov, u.operator, w.govTxs, [tx], |w.govTxs|);
    }
  }

  // ---------- messages used up ----------

  /** The command puts a proposal with this hash on this path. */
  predicate OpensPath(d: Done, path: Path, hash: Hash) {
    match DecodePayload(d.payload)
    case None => false
    case Some(p) =>
      && p.command == (if path.TimeLock? then ScheduleTimeLockProposal else ApproveOperatorProposal)
      && p.proposal.Hash() == hash
  }

  /** The ids of the messages that opened the path for this hash. */
  function OpeningIds(done: seq<Done>, path: Path, hash: Hash): set<CrossChainId> {
    if done == [] then {}
    else OpeningIds(done[..|done| - 1], path, hash)
         + if OpensPath(done[|done| - 1], path, hash) then {done[|done| - 1].id} else {}
  }

  ghost predicate UsedUp(w: World) {
    forall d :: d in w.done ==> GW.StateOf(w.gateway.messages, d.id).Executed?
  }

  lemma {:induction false} OpeningIdsWithin(done: seq<Done>, path: Path, hash: Hash)
    ensures forall id :: id in OpeningIds(done, path, hash) ==> exists d :: d in done && d.id == id && OpensPath(d, path, hash)
  {
    hide OpensPath;
    if done != [] {
      OpeningIdsWithin(done[..|done| - 1], path, hash);
    }
  }

  lemma StepUsedUp(u: Setup, w: World, e: Event)
    requires UsedUp(w)
    ensures UsedUp(Next(u, w, e))
  {
    hide GW.Step, Step, GW.StateOf, ExecutedCommand;
    var v := Next(u, w, e);
    if e.Execute? && v != w { ExecuteIsBoth(u, w, e); ExecuteUsesUp(u, w, e); }
    forall d | d in v.done ensures GW.StateOf(v.gateway.messages, d.id).Executed? {
      if d in w.done && e.CallGateway? {
        GR.StepForward(u.gateway, u.verify, w.gateway, e.tx, d.id);
      }
      if d in w.done && e.Execute? && v != w {
        GR.StepForward(u.gateway, u.verify, w.gateway, v.gatewayTxs[|w.gatewayTxs|], d.id);
      }
    }
  }

  lemma ExecuteUsesUp(u: Setup, w: World, e: Event)
    requires e.Execute? && Next(u, w, e) != w
    ensures var id := CrossChainId(e.sourceChain, e.messageId);
      GW.StateOf(w.gateway.messages, id).Approved? && GW.StateOf(Next(u, w, e).gateway.messages, id).Executed?
  {
    hide MessageHash, DecodePayload, Commanded;
  }

  /** Openings of a path are counted by the ids of their messages. */
  ghost predicate Counted(u: Setup, w: World, path: Path, hash: Hash) {
    Count(u.gov, u.operator, w.govTxs, |w.govTxs|, path, hash, true) == |OpeningIds(w.done, path, hash)|
  }

  lemma {:induction false} CountPrefix(cfg: Config, operator: Address, txs: seq<Tx>, more: seq<Tx>, n: nat, path: Path, hash: Hash)
    requires n <= |txs|
    ensures Count(cfg, operator, txs + more, n, path, hash, true) == Count(cfg, operator, txs, n, path, hash, true)
    decreases n
  {
    hide Step, ProposalHash, After;
    if n > 0 {
      GovernancePrefix(cfg, operator, txs, more, n - 1);
      CountPrefix(cfg, operator, txs, more, n - 1, path, hash);
    }
  }

  lemma {:induction false} CountNext(cfg: Config, operator: Address, txs: seq<Tx>, tx: Tx, path: Path, hash: Hash)
    ensures Count(cfg, operator, txs + [tx], |txs| + 1, path, hash, true)
      == Count(cfg, operator, txs, |txs|, path, hash, true)
         + if Opens(cfg, operator, txs + [tx], |txs|, path, hash) then 1 else 0
  {
    hide Step, Opens;
    CountPrefix(cfg, operator, txs, [tx], |txs|, path, hash);
  }

  lemma OpensIs(u: Setup, w: World, v: World, tx: Tx, path: Path, hash: Hash)
    requires Recorded(u, w) && v.govTxs == w.govTxs + [tx]
    ensures !tx.call.Message? ==> !Opens(u.gov, u.operator, v.govTxs, |w.govTxs|, path, hash)
    ensures tx.call.Message? && tx.call.payload.Some? && Step(u.gov, w.sys, tx).1 ==>
      (Opens(u.gov, u.operator, v.govTxs, |w.govTxs|, path, hash) <==>
        && tx.call.payload.value.command == (if path.TimeLock? then ScheduleTimeLockProposal else ApproveOperatorProposal)
        && tx.call.payload.value.proposal.Hash() == hash)
  {
    hide Step, After, ProposalHash;
    GovernancePrefix(u.gov, u.operator, w.govTxs, [tx], |w.govTxs|);
  }

  /** A message that was not used up before counts anew. */
  lemma {:induction false} NewOpening(w: World, d: Done, path: Path, hash: Hash)
    requires UsedUp(w) && GW.StateOf(w.gateway.messages, d.id).Approved?
    ensures |OpeningIds(w.done + [d], path, hash)|
         == |OpeningIds(w.done, path, hash)| + if OpensPath(d, path, hash) then 1 else 0
  {
    hide OpensPath;
    OpeningIdsWithin(w.done, path, hash);
    assert d.id !in OpeningIds(w.done, path, hash);
    assert (w.done + [d])[..|w.done|] == w.done;
  }

  lemma StepCounted(u: Setup, w: World, e: Event, path: Path, hash: Hash)
    requires Recorded(u, w) && UsedUp(w) && Counted(u, w, path, hash)
    ensures Counted(u, Next(u, w, e), path, hash)
  {
    hide GW.Step, Step, GW.StateOf, ExecutedCommand, Opens, Count, DecodePayload, ProposalHash, Recorded, OpeningIds, UsedUp;
    var v := Next(u, w, e);
    if v.govTxs != w.govTxs {
      var tx := v.govTxs[|w.govTxs|];
      OpensIs(u, w, v, tx, path, hash);
      CountNext(u.gov, u.operator, w.govTxs, tx, path, hash);
      if e.Execute? {
        ExecuteIsBoth(u, w, e);
        ExecuteUsesUp(u, w, e);
        NewOpening(w, Done(CrossChainId(e.sourceChain, e.messageId), e.payload), path, hash);
      }
    }
  }

  lemma {:induction false} Always(u: Setup, events: seq<Event>, n: nat, path: Path, hash: Hash)
    requires n <= |events|
    ensures var w := Run(u, events, n); Recorded(u, w) && UsedUp(w) && Counted(u, w, path, hash)
    decreases n
  {
    hide Next, UsedUp;
    if n == 0 {
      assert UsedUp(Start(u)) by { StartUsedUp(u); }
    } else {
      hide Recorded, Counted;
      Always(u, events, n - 1, path, hash);
      var w := Run(u, events, n - 1);
      StepRecorded(u, w, events[n - 1]);
      StepUsedUp(u, w, events[n - 1]);
      StepCounted(u, w, events[n - 1], path, hash);
    }
  }

  lemma StartUsedUp(u: Setup)
    ensures UsedUp(Start(u))
  {
  }

  /** In every run of both contracts, successful executions of a proposal, plus one if it is pending or in flight, never
      exceed the different gateway messages that scheduled (or approved) it. */
  lemma {:induction false} SuccessesNeedMessages(u: Setup, events: seq<Event>, n: nat, path: Path, hash: Hash)
    requires n <= |events|
    ensures var w := Run(u, events, n);
      Count(u.gov, u.operator, w.govTxs, |w.govTxs|, path, hash, false)
        + (if hash in Submitted(w.sys.gov, path) || hash in GovernanceSpec.Executing(w.sys.gov, path) then 1 else 0)
      <= |OpeningIds(w.done, path, hash)|
  {
    hide Run, UsedUp, OpeningIds, Count, After;
    Always(u, events, n, path, hash);
    var w := Run(u, events, n);
    AtMostOncePerSchedule(u.gov, u.operator, w.govTxs, |w.govTxs|, path, hash);
  }

  // ---------- where the messages came from ----------

  ghost predicate ValidatedAt(u: Setup, txs: seq<GW.Tx>, j: nat, d: Done) {
    && j < |txs| && txs[j].call == GW.Validate(u.gov.contract, d.id, u.gov.governanceAddress, Keccak256(d.payload))
    && GR.ResultAt(u.gateway, u.verify, txs, j) == GW.Done(true)
  }

  lemma ValidatedStays(u: Setup, txs: seq<GW.Tx>, tx: GW.Tx, j: nat, d: Done)
    requires ValidatedAt(u, txs, j, d)
    ensures ValidatedAt(u, txs + [tx], j, d)
  {
    hide GW.Step;
    GatewayPrefix(u.gateway, u.verify, txs, [tx], j);
  }

  lemma ValidatedNow(u: Setup, w: World, e: Event)
    requires Recorded(u, w) && e.Execute? && Next(u, w, e) != w
    ensures var v := Next(u, w, e);
      |v.gatewayTxs| == |w.gatewayTxs| + 1 && |v.done| == |w.done| + 1
      && ValidatedAt(u, v.gatewayTxs, |w.gatewayTxs|, v.done[|w.done|])
  {
    hide GW.Step, Step, DecodePayload, Commanded, MessageHash, GW.StateOf;
    ExecuteIsBoth(u, w, e);
    GatewayPrefix(u.gateway, u.verify, w.gatewayTxs, [Next(u, w, e).gatewayTxs[|w.gatewayTxs|]], |w.gatewayTxs|);
  }

  lemma {:induction false} WasValidated(u: Setup, events: seq<Event>, n: nat, d: Done) returns (j: nat)
    requires n <= |events| && d in Run(u, events, n).done
    ensures ValidatedAt(u, Run(u, events, n).gatewayTxs, j, d)
    decreases n
  {
    hide GW.Step, Step, ExecutedCommand, ValidatedAt, Recorded;
    var w, v := Run(u, events, n - 1), Run(u, events, n);
    Always(u, events, n - 1, TimeLock, Keccak256([]));
    if d in w.done {
      j := WasValidated(u, events, n - 1, d);
      if v.gatewayTxs != w.gatewayTxs { ValidatedStays(u, w.gatewayTxs, v.gatewayTxs[|w.gatewayTxs|], j, d); }
    } else {
      ValidatedNow(u, w, events[n - 1]);
      j := |w.gatewayTxs|;
    }
  }

  lemma {:induction false} FromGovernanceChain(u: Setup, events: seq<Event>, n: nat, d: Done)
    requires n <= |events| && d in Run(u, events, n).done
    ensures d.id.sourceChain == u.gov.governanceChain
    decreases n
  {
    hide GW.Step, Step;
    if d in Run(u, events, n - 1).done {
      FromGovernanceChain(u, events, n - 1, d);
    } else {
      SourceOfExecuted(u, Run(u, events, n - 1), events[n - 1]);
    }
  }

  lemma SourceOfExecuted(u: Setup, w: World, e: Event)
    requires e.Execute? && Next(u, w, e) != w
    ensures e.sourceChain == u.gov.governanceChain
  {
    hide MessageHash, DecodePayload, Commanded, GW.StateOf;
  }

  /** Each of these messages came from the governance address on the governance chain, carried this very command, and was
      in a batch that a quorum signed. */
  lemma EveryOpeningProved(u: Setup, events: seq<Event>, n: nat, path: Path, hash: Hash, id: CrossChainId)
    returns (i: nat, payload: Buffer)
    requires n <= |events| && id in OpeningIds(Run(u, events, n).done, path, hash)
    ensures OpensPath(Done(id, payload), path, hash) && id.sourceChain == u.gov.governanceChain
    ensures var txs := Run(u, events, n).gatewayTxs;
      i < |txs| && GR.ProvedBatch(u.gateway, u.verify, GR.After(u.gateway, u.verify, txs, i), txs[i],
                                  Preimages.Message(id, u.gov.governanceAddress, u.gov.contract, Keccak256(payload)))
  {
    hide Run, OpeningIds, OpensPath, GR.After, GR.ProvedBatch;
    var w := Run(u, events, n);
    OpeningIdsWithin(w.done, path, hash);
    var d :| d in w.done && d.id == id && OpensPath(d, path, hash);
    payload := d.payload;
    FromGovernanceChain(u, events, n, d);
    var j := WasValidated(u, events, n, d);
    GR.ExecutedWasProved(u.gateway, u.verify, w.gatewayTxs, j);
    i :| 0 <= i < j && GR.ProvedBatch(u.gateway, u.verify, GR.After(u.gateway, u.verify, w.gatewayTxs, i), w.gatewayTxs[i],
      Preimages.Message(id, u.gov.governanceAddress, u.gov.contract, Keccak256(payload)));
  }
}
