/** What holds after any sequence of calls to the factory and the managers it deployed. */
module FactoryRuns {
  import opened ByteStrings
  import opened ChainTypes
  import opened Keccak
  import opened Preimages
  import opened TokenIds
  import opened TokenManagerTypes
  import opened Roles
  import opened FactorySpec
  import TM = TokenManagerSpec
  import TokenManagerRuns
  import FlowLimit

  // ---------- status and initial supply ----------

  /** The call is the third transaction for this token and mints. */
  predicate MintsNow(cfg: Config, f: FactoryState, c: Call, id: Hash) {
    && c.Deploy? && c.supply > 0 && InterchainTokenId(cfg, c.sender, c.salt) == id
    && id in f.managers && f.managers[id].tm.identifier.Some?
    && Apply(cfg, f, c).Some?
  }

  function MintCount(cfg: Config, f: FactoryState, calls: seq<Call>, id: Hash, n: nat): nat
    requires n <= |calls|
    decreases n
  {
    if n == 0 then 0
    else MintCount(cfg, f, calls, id, n - 1) + if MintsNow(cfg, After(cfg, f, calls, n - 1), calls[n - 1], id) then 1 else 0
  }

  function StatusOf(f: FactoryState, id: Hash): Option<InterchainTokenStatus> {
    if id in f.status then Some(f.status[id]) else None
  }

  /** Empty may become anything; only a token that needs minting may still change, to minted. */
  predicate StatusMoves(before: Option<InterchainTokenStatus>, after: Option<InterchainTokenStatus>) {
    after == before || (before.None? && after.Some?) || (before == Some(NeedsMint) && after == Some(AlreadyMinted))
  }

  lemma OthersKeepStatus(cfg: Config, f: FactoryState, c: Call)
    requires !c.Deploy?
    ensures Step(cfg, f, c).status == f.status
  {
    hide TM.Apply, TM.Init, InterchainTokenId, TokenId, DeployApprovalKey, HashOfMinter, IsMinter;
  }

  lemma DeployStatus(cfg: Config, f: FactoryState, c: Call, id: Hash)
    requires c.Deploy?
    ensures StatusMoves(StatusOf(f, id), StatusOf(Step(cfg, f, c), id))
    ensures MintsNow(cfg, f, c, id)
      <==> StatusOf(f, id) != Some(AlreadyMinted) && StatusOf(Step(cfg, f, c), id) == Some(AlreadyMinted)
  {
    hide TM.Apply, TM.Init, InterchainTokenId, CallAll, HandOver;
  }

  lemma StatusStep(cfg: Config, f: FactoryState, c: Call, id: Hash)
    ensures StatusMoves(StatusOf(f, id), StatusOf(Step(cfg, f, c), id))
    ensures MintsNow(cfg, f, c, id)
      <==> StatusOf(f, id) != Some(AlreadyMinted) && StatusOf(Step(cfg, f, c), id) == Some(AlreadyMinted)
  {
    hide Step, Apply;
    if c.Deploy? { DeployStatus(cfg, f, c, id); } else { OthersKeepStatus(cfg, f, c); }
  }

  /** The initial supply of a token is minted at most once, and the status says whether it was. */
  lemma {:induction false} MintedAtMostOnce(cfg: Config, calls: seq<Call>, id: Hash, n: nat)
    requires n <= |calls|
    ensures MintCount(cfg, EMPTY, calls, id, n)
         == if StatusOf(After(cfg, EMPTY, calls, n), id) == Some(AlreadyMinted) then 1 else 0
    decreases n
  {
    hide Step, MintsNow;
    if n > 0 {
      MintedAtMostOnce(cfg, calls, id, n - 1);
      StatusStep(cfg, After(cfg, EMPTY, calls, n - 1), calls[n - 1], id);
    }
  }

  /** From any point of a run to any later point, a status has only moved forward. */
  lemma {:induction false} StatusOnlyMovesForward(cfg: Config, f: FactoryState, calls: seq<Call>, id: Hash, n: nat)
    requires n <= |calls|
    ensures StatusMoves(StatusOf(f, id), StatusOf(After(cfg, f, calls, n), id))
    decreases n
  {
    hide Step, StatusOf;
    if n > 0 {
      StatusOnlyMovesForward(cfg, f, calls, id, n - 1);
      StatusStep(cfg, After(cfg, f, calls, n - 1), calls[n - 1], id);
    }
  }

  // ---------- written once ----------

  predicate SameManager(a: Managed, b: Managed) {
    && b.address == a.address && b.tm.kind == a.tm.kind && b.tm.service == a.tm.service
    && (a.tm.identifier.Some? ==> b.tm.identifier == a.tm.identifier)
  }

  lemma {:induction false} CallAllKeeps(tm: TM.TmState, caller: Address, calls: seq<TM.Call>, n: nat)
    requires n <= |calls| && CallAll(tm, caller, calls, n).Some?
    ensures var t := CallAll(tm, caller, calls, n).value;
      t.kind == tm.kind && t.service == tm.service && (tm.identifier.Some? ==> t.identifier == tm.identifier)
    decreases n
  {
    if n > 0 {
      hide TM.Apply;
      CallAllKeeps(tm, caller, calls, n - 1);
      TokenManagerRuns.StepKeepsIdentifier(CallAll(tm, caller, calls, n - 1).value, 0, caller, calls[n - 1]);
    }
  }

  lemma ManagerDeployStep(cfg: Config, f: FactoryState, c: Call, id: Hash)
    requires id in f.managers && c.Deploy? && id == InterchainTokenId(cfg, c.sender, c.salt)
    ensures id in Step(cfg, f, c).managers && SameManager(f.managers[id], Step(cfg, f, c).managers[id])
  {
    hide TM.Apply, TM.Init, InterchainTokenId, CallAll, HandOver;
    var tm := f.managers[id].tm;
    if Apply(cfg, f, c).None? {
    } else if tm.identifier.None? {
      var chosen := ChooseMinter(cfg.own, f.status, id, c.supply, c.minter).value;
      TokenManagerRuns.StepKeepsIdentifier(tm, 0, cfg.own, TM.DeployInterchainToken(Some(chosen.1), c.named, c.egld));
    } else if c.supply > 0 {
      var calls := HandOver(cfg.own, c.sender, c.supply, if c.minter.Some? then c.minter.value else ZERO_ADDRESS);
      CallAllKeeps(tm, cfg.own, calls, |calls|);
    }
  }

  /** A call that does not reach this token's manager. */
  lemma ManagerElsewhere(cfg: Config, f: FactoryState, c: Call, id: Hash)
    requires id in f.managers && !(c.Deploy? && id == InterchainTokenId(cfg, c.sender, c.salt))
    requires !(c.CallManager? && c.id == id) && !(c.DeployMessage? && c.id == id)
    ensures id in Step(cfg, f, c).managers && f.managers[id] == Step(cfg, f, c).managers[id]
  {
    hide TM.Apply, TM.Init, InterchainTokenId, TokenId, CallAll, DeployApprovalKey, HashOfMinter, HandOver, IsMinter, ChooseMinter;
  }

  lemma ManagerStep(cfg: Config, f: FactoryState, c: Call, id: Hash)
    requires id in f.managers
    ensures id in Step(cfg, f, c).managers && SameManager(f.managers[id], Step(cfg, f, c).managers[id])
  {
    hide TM.Apply, TM.Init, InterchainTokenId, CallAll, DeployInterchainToken, DeployApprovalKey, HashOfMinter, IsMinter;
    var tm := f.managers[id].tm;
    if c.Deploy? && id == InterchainTokenId(cfg, c.sender, c.salt) {
      ManagerDeployStep(cfg, f, c, id);
    } else if c.CallManager? && c.id == id {
      TokenManagerRuns.StepKeepsIdentifier(tm, c.now, c.caller, c.call);
    } else if c.DeployMessage? && c.id == id {
      TokenManagerRuns.StepKeepsIdentifier(tm, 0, cfg.own, TM.DeployInterchainToken(c.minter, c.named, c.egld));
    } else {
      ManagerElsewhere(cfg, f, c, id);
    }
  }

  /** The manager's address is written once per token id, and so is the token identifier in the manager. */
  lemma {:induction false} WrittenOnce(cfg: Config, f: FactoryState, calls: seq<Call>, id: Hash, n: nat)
    requires n <= |calls| && id in f.managers
    ensures var g := After(cfg, f, calls, n); id in g.managers && SameManager(f.managers[id], g.managers[id])
    decreases n
  {
    hide Step;
    if n > 0 {
      WrittenOnce(cfg, f, calls, id, n - 1);
      ManagerStep(cfg, After(cfg, f, calls, n - 1), calls[n - 1], id);
    }
  }

  // ---------- who controls a token after minting ----------

  const ALL_ROLES: set<Role> := {MINTER, OPERATOR, FLOW_LIMITER}

  lemma MintCall(tm: TM.TmState, own: Address, sender: Address, supply: nat)
    ensures var r := TM.Apply(tm, 0, own, TM.Mint(sender, supply));
      && (r.Some? <==> tm.kind.NativeInterchainToken? && tm.identifier.Some? && tm.identifier.value.Esdt?
                       && MINTER in RolesOf(tm.accounts, own))
      && (r.Some? ==>
            && r.value.accounts == tm.accounts && r.value.supply == tm.supply + supply && r.value.locked == tm.locked
            && PaidTo(tm, r.value, sender, supply))
  {
  }

  /** The account has more by the amount, and everybody else has what he had. */
  ghost predicate PaidTo(before: TM.TmState, after: TM.TmState, receiver: Address, amount: nat) {
    forall who :: TM.Balance(after.holders, who) == TM.Balance(before.holders, who) + if who == receiver then amount else 0
  }

  lemma RoleCall(tm: TM.TmState, own: Address, call: TM.Call, who: Address, role: Role)
    requires call.TransferMintership? || call.RemoveFlowLimiter? || call.AddFlowLimiter? || call.TransferOperatorship?
    ensures var r := TM.Apply(tm, 0, own, call);
      && (r.Some? <==> (if call.TransferMintership? then MINTER else OPERATOR) in RolesOf(tm.accounts, own))
      && (r.Some? ==>
            && r.value.supply == tm.supply && r.value.holders == tm.holders && r.value.locked == tm.locked
            && r.value.minter == (if call.TransferMintership? then Some(call.newMinter) else tm.minter)
            && (role in RolesOf(r.value.accounts, who) <==>
                  match call
                  case TransferMintership(to) =>
                    if role == MINTER then who == to || (role in RolesOf(tm.accounts, who) && who != own) else role in RolesOf(tm.accounts, who)
                  case TransferOperatorship(to) =>
                    if role == OPERATOR then who == to || (role in RolesOf(tm.accounts, who) && who != own) else role in RolesOf(tm.accounts, who)
                  case RemoveFlowLimiter(limiter) => role in RolesOf(tm.accounts, who) && !(role == FLOW_LIMITER && who == limiter)
                  case AddFlowLimiter(limiter) => role in RolesOf(tm.accounts, who) || (role == FLOW_LIMITER && who == limiter)
                  case _ => true))
  {
    hide TM.Give, TM.Take, TM.Sent, TM.Credit, TM.Debit, TM.Deploy;
  }

  /** The hand-over succeeds exactly for a token the service mints and operates. It pays the initial supply to the sender
      and to nobody else, gives the new minter every role, leaves the service none, and changes nobody else's. */
  lemma {:induction false} HandOverMeans(tm: TM.TmState, own: Address, sender: Address, supply: nat, minter: Address)
    ensures var r := CallAll(tm, own, HandOver(own, sender, supply, minter), 5);
      && (r.Some? <==> tm.kind.NativeInterchainToken? && tm.identifier.Some? && tm.identifier.value.Esdt?
                       && {MINTER, OPERATOR} <= RolesOf(tm.accounts, own))
      && (r.Some? ==>
            && r.value.supply == tm.supply + supply && r.value.locked == tm.locked && r.value.minter == Some(minter)
            && PaidTo(tm, r.value, sender, supply)
            && RolesOf(r.value.accounts, minter) == ALL_ROLES
            && (minter != own ==> RolesOf(r.value.accounts, own) == {})
            && (forall who, role :: who != own && who != minter ==>
                  (role in RolesOf(r.value.accounts, who) <==> role in RolesOf(tm.accounts, who))))
  {
    var calls := HandOver(own, sender, supply, minter);
    FiveSteps(tm, own, calls);
    hide CallAll, TM.Apply, RolesOf, TM.Balance;
    MintCall(tm, own, sender, supply);
    var r1 := TM.Apply(tm, 0, own, calls[0]);
    if r1.Some? {
      forall who, role { RoleCall(r1.value, own, calls[1], who, role); }
      var r2 := TM.Apply(r1.value, 0, own, calls[1]);
      if r2.Some? {
        forall who, role { RoleCall(r2.value, own, calls[2], who, role); }
        var r3 := TM.Apply(r2.value, 0, own, calls[2]);
        if r3.Some? {
          forall who, role { RoleCall(r3.value, own, calls[3], who, role); }
          var r4 := TM.Apply(r3.value, 0, own, calls[3]);
          if r4.Some? {
            forall who, role { RoleCall(r4.value, own, calls[4], who, role); }
            var r5 := TM.Apply(r4.value, 0, own, calls[4]);
            if r5.Some? {
              RolesComplete(RolesOf(r5.value.accounts, minter));
              if minter != own { RolesEmpty(RolesOf(r5.value.accounts, own)); }
            }
          }
        }
      }
    }
  }

  lemma RolesComplete(s: set<Role>)
    requires MINTER in s && OPERATOR in s && FLOW_LIMITER in s
    ensures s == ALL_ROLES
  {
    forall r: Role ensures r in s <==> r in ALL_ROLES { match r case MINTER => case OPERATOR => case FLOW_LIMITER => }
  }

  lemma RolesEmpty(s: set<Role>)
    requires MINTER !in s && OPERATOR !in s && FLOW_LIMITER !in s
    ensures s == {}
  {
    forall r: Role ensures r !in s { match r case MINTER => case OPERATOR => case FLOW_LIMITER => }
  }

  function NewMinter(c: Call): Address
    requires c.Deploy?
  {
    if c.minter.Some? then c.minter.value else ZERO_ADDRESS
  }

  /** Minting pays exactly the initial supply to the deployer and nothing to anybody else; the new minter gets all three
      roles, and the service keeps none exactly when the new minter is not the service itself. */
  lemma RolesAfterMinting(cfg: Config, f: FactoryState, c: Call, id: Hash)
    requires MintsNow(cfg, f, c, id)
    ensures id in Step(cfg, f, c).managers
    ensures var tm := Step(cfg, f, c).managers[id].tm;
      && tm.supply == f.managers[id].tm.supply + c.supply && tm.locked == f.managers[id].tm.locked
      && PaidTo(f.managers[id].tm, tm, c.sender, c.supply)
      && RolesOf(tm.accounts, NewMinter(c)) == ALL_ROLES
      && (RolesOf(tm.accounts, cfg.own) == {} <==> NewMinter(c) != cfg.own)
  {
    hide CallAll, TM.Init, TM.Apply, HandOver, InterchainTokenId, PaidTo;
    assert HandOver(cfg.own, c.sender, c.supply, NewMinter(c)) == HandOver(cfg.own, c.sender, c.supply,
      if c.minter.Some? then c.minter.value else ZERO_ADDRESS);
    HandOverMeans(f.managers[id].tm, cfg.own, c.sender, c.supply, NewMinter(c));
    FiveCalls(cfg.own, c.sender, c.supply, NewMinter(c));
  }

  /** The exception exists: with the service itself named as minter, the four transactions leave it all three roles. */
  lemma {:induction false} ServiceCanKeepRoles(cfg: Config, sender: Address, salt: Hash, address: Address, name: bytes)
    requires cfg.own != ZERO_ADDRESS && address != ZERO_ADDRESS && sender != cfg.own
    ensures var id := InterchainTokenId(cfg, sender, salt);
      var calls := [Deploy(sender, salt, true, true, 1, Some(cfg.own), 0, address),
                    Deploy(sender, salt, true, true, 1, Some(cfg.own), TM.ISSUE_COST, address),
                    CallManager(id, 0, sender, TM.IssueCallback(Some(name))),
                    Deploy(sender, salt, true, true, 1, Some(cfg.own), 0, address)];
      && MintsNow(cfg, After(cfg, EMPTY, calls, 3), calls[3], id)
      && id in After(cfg, EMPTY, calls, 4).managers
      && RolesOf(After(cfg, EMPTY, calls, 4).managers[id].tm.accounts, cfg.own) == ALL_ROLES
  {
    var id := InterchainTokenId(cfg, sender, salt);
    var calls := [Deploy(sender, salt, true, true, 1, Some(cfg.own), 0, address),
                  Deploy(sender, salt, true, true, 1, Some(cfg.own), TM.ISSUE_COST, address),
                  CallManager(id, 0, sender, TM.IssueCallback(Some(name))),
                  Deploy(sender, salt, true, true, 1, Some(cfg.own), 0, address)];
    hide InterchainTokenId, CallAll, HandOver, TM.Init, TM.Apply;
    FreshManagerIsOwn(cfg.own);
    var new1 := TM.Init(cfg.own, NativeInterchainToken, Some(cfg.own), None).value;
    IssuedManager(cfg.own, sender, name);
    var f1 := EMPTY.(status := map[id := NeedsMint], managers := map[id := Managed(address, new1)]);
    assert After(cfg, EMPTY, calls, 1) == f1;
    var new2 := TM.Apply(new1, 0, cfg.own, TM.DeployInterchainToken(Some(cfg.own), true, TM.ISSUE_COST)).value;
    var f2 := f1.(managers := map[id := Managed(address, new2)]);
    assert f1.managers[id := Managed(address, new2)] == f2.managers && f1.status[id := NeedsMint] == f1.status;
    assert After(cfg, EMPTY, calls, 2) == f2;
    var new3 := TM.Apply(new2, 0, sender, TM.IssueCallback(Some(name))).value;
    assert f2.managers[id := Managed(address, new3)] == map[id := Managed(address, new3)];
    assert After(cfg, EMPTY, calls, 3) == f2.(managers := map[id := Managed(address, new3)]);
    NextTransactionExactly(cfg, After(cfg, EMPTY, calls, 3), calls[3]);
    RolesAfterMinting(cfg, After(cfg, EMPTY, calls, 3), calls[3], id);
    assert After(cfg, EMPTY, calls, 4) == Step(cfg, After(cfg, EMPTY, calls, 3), calls[3]);
  }

  lemma IssuedManager(own: Address, caller: Address, name: bytes)
    requires own != ZERO_ADDRESS
    ensures TM.Init(own, NativeInterchainToken, Some(own), None).Some?
    ensures var new1 := TM.Init(own, NativeInterchainToken, Some(own), None).value;
      var r2 := TM.Apply(new1, 0, own, TM.DeployInterchainToken(Some(own), true, TM.ISSUE_COST));
      && r2.Some?
      && var r3 := TM.Apply(r2.value, 0, caller, TM.IssueCallback(Some(name)));
         && r3.Some? && r3.value.identifier == Some(Esdt(name)) && r3.value.kind.NativeInterchainToken?
         && {MINTER, OPERATOR} <= RolesOf(r3.value.accounts, own)
  {
  }

  lemma FiveCalls(own: Address, sender: Address, supply: nat, minter: Address)
    ensures |HandOver(own, sender, supply, minter)| == 5
  {
  }

  // ---------- the three transactions always go through ----------

  /** Only the service has roles, and it is to be the minter. */
  ghost predicate OwnManager(own: Address, tm: TM.TmState) {
    && tm.kind.NativeInterchainToken? && tm.service == own && tm.accounts.proposed == map[]
    && (forall who :: who != own ==> RolesOf(tm.accounts, who) == {})
    && OPERATOR in RolesOf(tm.accounts, own)
    && (tm.identifier.Some? || tm.issuing > 0 || tm.minter.Some? ==> tm.minter == Some(own) && MINTER in RolesOf(tm.accounts, own))
    && (tm.identifier.Some? ==> tm.identifier.value.Esdt?)
  }

  ghost predicate LocalToken(cfg: Config, f: FactoryState, id: Hash) {
    && (id in f.managers ==> id in f.status)
    && (StatusOf(f, id) == Some(NeedsMint) ==> id in f.managers && OwnManager(cfg.own, f.managers[id].tm))
  }

  /** No message from another chain claims the token id. */
  predicate Unclaimed(calls: seq<Call>, id: Hash) {
    forall c :: c in calls ==> !(c.DeployMessage? && c.id == id) && !(c.LinkMessage? && c.id == id)
  }

  lemma FreshManagerIsOwn(own: Address)
    requires own != ZERO_ADDRESS
    ensures TM.Init(own, NativeInterchainToken, Some(own), None).Some?
    ensures OwnManager(own, TM.Init(own, NativeInterchainToken, Some(own), None).value)
  {
  }

  lemma OthersCannotTouch(own: Address, tm: TM.TmState, now: nat, caller: Address, call: TM.Call)
    requires OwnManager(own, tm) && TM.Apply(tm, now, caller, call).Some?
    requires caller == own ==> call.GiveToken? || call.TakeToken? || call.SetFlowLimit?
    ensures OwnManager(own, TM.Apply(tm, now, caller, call).value)
  {
    hide FlowLimit.AddFlowIn, FlowLimit.AddFlowOut;
    assert TM.Has(tm, caller, OPERATOR) || TM.Has(tm, caller, MINTER) || TM.Has(tm, caller, FLOW_LIMITER) ==> caller == own;
    assert TM.Apply(tm, now, caller, call).value.accounts == tm.accounts;
  }

  /** The second transaction succeeds exactly with the issue cost attached and a proper name. */
  lemma SecondTransaction(own: Address, tm: TM.TmState, named: bool, egld: nat)
    requires OwnManager(own, tm) && tm.identifier.None?
    ensures var r := TM.Apply(tm, 0, own, TM.DeployInterchainToken(Some(own), named, egld));
      && (r.Some? <==> named && egld == TM.ISSUE_COST)
      && (r.Some? ==> OwnManager(own, r.value))
  {
    hide FlowLimit.AddFlowIn, FlowLimit.AddFlowOut;
    var r := TM.Apply(tm, 0, own, TM.DeployInterchainToken(Some(own), named, egld));
    if r.Some? {
      assert forall who :: who != own ==> RolesOf(r.value.accounts, who) == RolesOf(tm.accounts, who);
    }
  }

  lemma LocalDeploy(cfg: Config, f: FactoryState, c: Call, id: Hash)
    requires cfg.own != ZERO_ADDRESS && LocalToken(cfg, f, id)
    requires c.Deploy? && InterchainTokenId(cfg, c.sender, c.salt) == id && Apply(cfg, f, c).Some?
    ensures LocalToken(cfg, Apply(cfg, f, c).value, id)
  {
    hide TM.Apply, TM.Init, InterchainTokenId, CallAll, HandOver, OwnManager;
    FreshManagerIsOwn(cfg.own);
    if id in f.managers && f.managers[id].tm.identifier.None? && c.supply > 0 {
      SecondTransaction(cfg.own, f.managers[id].tm, c.named, c.egld);
    }
  }

  /** Canonical and linked tokens have other ids. */
  lemma OtherOrigin(cfg: Config, deployer: Address, salt: Hash, origin: TokenOrigin)
    requires !origin.Interchain?
    ensures TokenId(cfg.chainName, origin) != InterchainTokenId(cfg, deployer, salt)
  {
    if TokenId(cfg.chainName, origin) == InterchainTokenId(cfg, deployer, salt) {
      TokenIdInjective(cfg.chainName, origin, cfg.chainName, Interchain(deployer, salt));
    }
  }

  /** A call that neither deploys this token nor reaches its manager. */
  lemma LocalElsewhere(cfg: Config, f: FactoryState, c: Call, id: Hash)
    requires LocalToken(cfg, f, id) && !(c.Deploy? && InterchainTokenId(cfg, c.sender, c.salt) == id)
    requires !(c.CallManager? && c.id == id) && !(c.DeployMessage? && c.id == id)
    requires !(c.LinkMessage? && c.id == id) && !(c.Register? && TokenId(cfg.chainName, c.origin) == id)
    ensures LocalToken(cfg, Step(cfg, f, c), id)
  {
    hide TM.Apply, TM.Init, InterchainTokenId, TokenId, CallAll, DeployApprovalKey, HashOfMinter, HandOver, IsMinter,
      ChooseMinter, OwnManager;
  }

  lemma LocalStep(cfg: Config, f: FactoryState, c: Call, deployer: Address, salt: Hash)
    requires cfg.own != ZERO_ADDRESS && LocalToken(cfg, f, InterchainTokenId(cfg, deployer, salt))
    requires Unclaimed([c], InterchainTokenId(cfg, deployer, salt))
    ensures LocalToken(cfg, Step(cfg, f, c), InterchainTokenId(cfg, deployer, salt))
  {
    hide TM.Apply, InterchainTokenId, TokenId, DeployTokenManager, DeployInterchainToken, DeployApprovalKey, HashOfMinter, IsMinter, OwnManager;
    var id := InterchainTokenId(cfg, deployer, salt);
    assert c in [c];
    if c.Deploy? && InterchainTokenId(cfg, c.sender, c.salt) == id {
      if Apply(cfg, f, c).Some? { LocalDeploy(cfg, f, c, id); }
    } else if c.CallManager? && c.id == id {
      if Apply(cfg, f, c).Some? && StatusOf(f, id) == Some(NeedsMint) {
        OthersCannotTouch(cfg.own, f.managers[id].tm, c.now, c.caller, c.call);
      }
    } else if c.Register? && TokenId(cfg.chainName, c.origin) == id {
      if !c.origin.Interchain? { OtherOrigin(cfg, deployer, salt, c.origin); }
    } else {
      LocalElsewhere(cfg, f, c, id);
    }
  }

  lemma {:induction false} LocalAlways(cfg: Config, calls: seq<Call>, n: nat, deployer: Address, salt: Hash)
    requires cfg.own != ZERO_ADDRESS && n <= |calls| && Unclaimed(calls, InterchainTokenId(cfg, deployer, salt))
    ensures LocalToken(cfg, After(cfg, EMPTY, calls, n), InterchainTokenId(cfg, deployer, salt))
    decreases n
  {
    hide Step, OwnManager, InterchainTokenId;
    if n > 0 {
      LocalAlways(cfg, calls, n - 1, deployer, salt);
      assert calls[n - 1] in calls;
      LocalStep(cfg, After(cfg, EMPTY, calls, n - 1), calls[n - 1], deployer, salt);
    }
  }

  /** The call is formed as the second, or the third, transaction has to be. */
  predicate WellFormed(tm: TM.TmState, c: Call)
    requires c.Deploy?
  {
    c.namesOk && if tm.identifier.None? then c.named && c.egld == TM.ISSUE_COST else c.egld == 0
  }

  /** What the manager must allow the service. */
  predicate ServiceMay(own: Address, tm: TM.TmState) {
    && tm.kind.NativeInterchainToken?
    && if tm.identifier.None? then own == tm.service || TM.Has(tm, own, MINTER)
       else tm.identifier.value.Esdt? && {MINTER, OPERATOR} <= RolesOf(tm.accounts, own)
  }

  /** In any state whatever, the transaction after the first succeeds exactly if the service is not paused, the status
      admits minting, the call is well formed, and the manager lets the service do its part. */
  lemma {:induction false} NextTransactionExactly(cfg: Config, f: FactoryState, c: Call)
    requires c.Deploy? && c.supply > 0 && InterchainTokenId(cfg, c.sender, c.salt) in f.managers
    ensures var id := InterchainTokenId(cfg, c.sender, c.salt);
      Apply(cfg, f, c).Some? <==>
        !f.paused && MayBecome(f.status, id, NeedsMint) && WellFormed(f.managers[id].tm, c)
        && ServiceMay(cfg.own, f.managers[id].tm)
  {
    hide CallAll, TM.Init, HandOver, InterchainTokenId;
    var id := InterchainTokenId(cfg, c.sender, c.salt);
    HandOverMeans(f.managers[id].tm, cfg.own, c.sender, c.supply, NewMinter(c));
    FiveCalls(cfg.own, c.sender, c.supply, NewMinter(c));
  }

  /** For a token still to be minted the manager does let it, unless a message from another chain claimed the id:
      whoever else calls whatever, the deployer's next transaction is never stuck. */
  lemma {:induction false} NeverStuck(cfg: Config, calls: seq<Call>, n: nat, c: Call)
    requires cfg.own != ZERO_ADDRESS && n <= |calls|
    requires c.Deploy? && c.supply > 0 && Unclaimed(calls, InterchainTokenId(cfg, c.sender, c.salt))
    requires StatusOf(After(cfg, EMPTY, calls, n), InterchainTokenId(cfg, c.sender, c.salt)) == Some(NeedsMint)
    ensures var f := After(cfg, EMPTY, calls, n);
      var id := InterchainTokenId(cfg, c.sender, c.salt);
      && id in f.managers
      && (Apply(cfg, f, c).Some? <==> !f.paused && WellFormed(f.managers[id].tm, c))
  {
    hide After, Apply, InterchainTokenId;
    LocalAlways(cfg, calls, n, c.sender, c.salt);
    NextTransactionExactly(cfg, After(cfg, EMPTY, calls, n), c);
  }

  /** With such a message it can be: between the first transaction and the second, a deploy message for the same id
      makes somebody else the minter, and the third transaction fails however it is formed. */
  lemma {:induction false} ClaimedIdIsStuck(cfg: Config, sender: Address, salt: Hash, address: Address, minter: Address,
                                            name: bytes, c: Call)
    requires cfg.own != ZERO_ADDRESS && address != ZERO_ADDRESS && minter != cfg.own
    requires c.Deploy? && c.sender == sender && c.salt == salt && c.supply > 0
    ensures var id := InterchainTokenId(cfg, sender, salt);
      var calls := [Deploy(sender, salt, true, true, 1, None, 0, address),
                    DeployMessage(id, Some(minter), true, TM.ISSUE_COST, address),
                    CallManager(id, 0, minter, TM.IssueCallback(Some(name)))];
      var f := After(cfg, EMPTY, calls, 3);
      StatusOf(f, id) == Some(NeedsMint) && id in f.managers && f.managers[id].tm.identifier == Some(Esdt(name))
      && Apply(cfg, f, c).None?
  {
    var id := InterchainTokenId(cfg, sender, salt);
    var calls := [Deploy(sender, salt, true, true, 1, None, 0, address),
                  DeployMessage(id, Some(minter), true, TM.ISSUE_COST, address),
                  CallManager(id, 0, minter, TM.IssueCallback(Some(name)))];
    hide InterchainTokenId, CallAll, HandOver, TM.Init, TM.Apply;
    var new1 := TM.Init(cfg.own, NativeInterchainToken, Some(cfg.own), None).value;
    ClaimedManager(cfg.own, minter, name);
    var f1 := EMPTY.(status := map[id := NeedsMint], managers := map[id := Managed(address, new1)]);
    assert After(cfg, EMPTY, calls, 1) == f1;
    var new2 := TM.Apply(new1, 0, cfg.own, TM.DeployInterchainToken(Some(minter), true, TM.ISSUE_COST)).value;
    var f2 := f1.(managers := map[id := Managed(address, new2)]);
    assert f1.managers[id := Managed(address, new2)] == f2.managers;
    assert After(cfg, EMPTY, calls, 2) == f2;
    var new3 := TM.Apply(new2, 0, minter, TM.IssueCallback(Some(name))).value;
    assert f2.managers[id := Managed(address, new3)] == map[id := Managed(address, new3)];
    assert After(cfg, EMPTY, calls, 3) == f2.(managers := map[id := Managed(address, new3)]);
    NextTransactionExactly(cfg, After(cfg, EMPTY, calls, 3), c);
  }

  lemma ClaimedManager(own: Address, minter: Address, name: bytes)
    requires own != ZERO_ADDRESS && minter != own
    ensures TM.Init(own, NativeInterchainToken, Some(own), None).Some?
    ensures var new1 := TM.Init(own, NativeInterchainToken, Some(own), None).value;
      var r2 := TM.Apply(new1, 0, own, TM.DeployInterchainToken(Some(minter), true, TM.ISSUE_COST));
      && r2.Some?
      && var r3 := TM.Apply(r2.value, 0, minter, TM.IssueCallback(Some(name)));
         && r3.Some? && r3.value.identifier == Some(Esdt(name)) && MINTER !in RolesOf(r3.value.accounts, own)
  {
  }

  // ---------- approvals ----------

  predicate Approves(cfg: Config, f: FactoryState, c: Call, key: Hash, minter: Hash) {
    && c.ApproveRemote? && Apply(cfg, f, c).Some? && HashOfMinter(c.destinationMinter) == minter
    && DeployApprovalKey(ApprovalOf(cfg, c.caller, c.deployer, c.salt, c.chain)) == key
  }

  predicate Uses(cfg: Config, f: FactoryState, c: Call, key: Hash) {
    && c.DeployRemote? && c.minter.Some? && c.requestedMinter.Some? && Apply(cfg, f, c).Some?
    && DeployApprovalKey(ApprovalOf(cfg, c.minter.value, c.sender, c.salt, c.chain)) == key
  }

  predicate Revokes(cfg: Config, c: Call, key: Hash) {
    c.RevokeRemote? && DeployApprovalKey(ApprovalOf(cfg, c.caller, c.deployer, c.salt, c.chain)) == key
  }

  lemma ApprovalStep(cfg: Config, f: FactoryState, c: Call, key: Hash)
    ensures var g := Step(cfg, f, c);
      key in g.approvals ==>
        Approves(cfg, f, c, key, g.approvals[key])
        || (key in f.approvals && g.approvals[key] == f.approvals[key] && !Uses(cfg, f, c, key) && !Revokes(cfg, c, key))
  {
    hide TM.Apply, TM.Init, InterchainTokenId, CallAll, DeployApprovalKey, HashOfMinter, HandOver, TM.Has;
  }

  /** Since step i the approval was neither used nor revoked. */
  predicate KeptSince(cfg: Config, f: FactoryState, calls: seq<Call>, i: nat, n: nat, key: Hash)
    requires n <= |calls|
  {
    forall j | i < j < n :: !Uses(cfg, After(cfg, f, calls, j), calls[j], key) && !Revokes(cfg, calls[j], key)
  }

  lemma {:induction false} ApprovalHasOrigin(cfg: Config, calls: seq<Call>, n: nat, key: Hash) returns (i: nat)
    requires n <= |calls| && key in After(cfg, EMPTY, calls, n).approvals
    ensures i < n && KeptSince(cfg, EMPTY, calls, i, n, key)
    ensures Approves(cfg, After(cfg, EMPTY, calls, i), calls[i], key, After(cfg, EMPTY, calls, n).approvals[key])
    decreases n
  {
    hide Step, Approves, Uses, Revokes;
    var f := After(cfg, EMPTY, calls, n - 1);
    ApprovalStep(cfg, f, calls[n - 1], key);
    if Approves(cfg, f, calls[n - 1], key, After(cfg, EMPTY, calls, n).approvals[key]) {
      i := n - 1;
    } else {
      i := ApprovalHasOrigin(cfg, calls, n - 1, key);
    }
  }

  /** A remote deployment that names a destination minter was approved: by that token's minter, for that token, chain
      and destination minter, and that approval was not used or revoked in between. */
  lemma RemoteDeploymentApproved(cfg: Config, calls: seq<Call>, n: nat) returns (i: nat)
    requires n < |calls| && calls[n].DeployRemote? && calls[n].minter.Some? && calls[n].requestedMinter.Some?
    requires Apply(cfg, After(cfg, EMPTY, calls, n), calls[n]).Some?
    ensures i < n && calls[i].ApproveRemote? && Apply(cfg, After(cfg, EMPTY, calls, i), calls[i]).Some?
    ensures calls[i].caller == calls[n].minter.value && calls[i].chain == calls[n].chain
    ensures calls[i].deployer == calls[n].sender && calls[i].salt == calls[n].salt
    ensures calls[i].destinationMinter == calls[n].requestedMinter.value
    ensures KeptSince(cfg, EMPTY, calls, i, n, DeployApprovalKey(
              ApprovalOf(cfg, calls[n].minter.value, calls[n].sender, calls[n].salt, calls[n].chain)))
  {
    hide After, KeptSince, TM.Apply, TM.Init, CallAll, DeployApprovalKey, HandOver, TM.Has, TokenId;
    var c := calls[n];
    var used := ApprovalOf(cfg, c.minter.value, c.sender, c.salt, c.chain);
    i := ApprovalHasOrigin(cfg, calls, n, DeployApprovalKey(used));
    var a := calls[i];
    var given := ApprovalOf(cfg, a.caller, a.deployer, a.salt, a.chain);
    DeployApprovalKeyInjective(given, used);
    TokenIdInjective(cfg.chainName, Interchain(a.deployer, a.salt), cfg.chainName, Interchain(c.sender, c.salt));
    SameDigest(Raw(a.destinationMinter), Raw(c.requestedMinter.value));
    RawInjective(a.destinationMinter, c.requestedMinter.value);
  }
}
