/** Deploying interchain tokens from this chain, in three transactions per token, and approvals for remote deployments. */
module FactorySpec {
  import opened ByteStrings
  import opened ChainTypes
  import opened Keccak
  import opened TokenIds
  import opened TokenManagerTypes
  import TM = TokenManagerSpec

  datatype InterchainTokenStatus = NoMint | NeedsMint | AlreadyMinted

  /** The manager recorded for a token id: where it was deployed, and the state of that contract. */
  datatype Managed = Managed(address: Address, tm: TM.TmState)

  datatype Config = Config(own: Address, chainName: bytes)

  /** An absent status, manager or approval is an empty storage slot. */
  datatype FactoryState = FactoryState(
    paused: bool,
    status: map<Hash, InterchainTokenStatus>,
    managers: map<Hash, Managed>,
    approvals: map<Hash, Hash>)

  const EMPTY: FactoryState := FactoryState(false, map[], map[], map[])

  /** The two message calls are what the service carries out for other chains, for whatever token id they name.
      `namesOk`: name and symbol are in normal form. `named`: they are not empty. `address`: where a new contract is put. */
  datatype Call =
    | Deploy(sender: Address, salt: Hash, namesOk: bool, named: bool, supply: nat, minter: Option<Address>, egld: nat,
             address: Address)
    | DeployMessage(id: Hash, minter: Option<Address>, named: bool, egld: nat, address: Address)
    | Register(origin: TokenOrigin, kind: TokenManagerType, identifier: TokenIdentifier, operator: Option<Address>,
               address: Address)
    | LinkMessage(id: Hash, kind: TokenManagerType, identifier: TokenIdentifier, operator: Option<Address>, address: Address)
    | CallManager(id: Hash, now: nat, caller: Address, call: TM.Call)
    | ApproveRemote(caller: Address, deployer: Address, salt: Hash, chain: ManagedBuffer, trusted: bool, destinationMinter: bytes)
    | RevokeRemote(caller: Address, deployer: Address, salt: Hash, chain: ManagedBuffer)
    | DeployRemote(sender: Address, salt: Hash, minter: Option<Address>, chain: ManagedBuffer,
                   requestedMinter: Option<bytes>, sent: bool)
    | SetPaused(paused: bool)

  function InterchainTokenId(cfg: Config, deployer: Address, salt: Hash): Hash {
    TokenId(cfg.chainName, Interchain(deployer, salt))
  }

  predicate MayBecome(status: map<Hash, InterchainTokenStatus>, id: Hash, wanted: InterchainTokenStatus) {
    id !in status || status[id] == wanted
  }

  function DeployTokenManager(cfg: Config, f: FactoryState, id: Hash, kind: TokenManagerType,
                              identifier: Option<TokenIdentifier>, operator: Option<Address>, address: Address)
    : Option<FactoryState>
  {
    if id in f.managers || address == ZERO_ADDRESS then None
    else
      match TM.Init(cfg.own, kind, operator, identifier)
      case None => None
      case Some(tm) => Some(f.(managers := f.managers[id := Managed(address, tm)]))
  }

  /** Calls made on one manager within one transaction: all of them succeed, or none happens. */
  function CallAll(tm: TM.TmState, caller: Address, calls: seq<TM.Call>, n: nat): Option<TM.TmState>
    requires n <= |calls|
    decreases n
  {
    if n == 0 then Some(tm)
    else
      match CallAll(tm, caller, calls, n - 1)
      case None => None
      case Some(t) => TM.Apply(t, 0, caller, calls[n - 1])
  }

  /** Five calls, one after the other. */
  lemma {:induction false} FiveSteps(tm: TM.TmState, caller: Address, calls: seq<TM.Call>)
    requires |calls| == 5
    ensures CallAll(tm, caller, calls, 5) ==
      var t1 := TM.Apply(tm, 0, caller, calls[0]);
      if t1.None? then None else
      var t2 := TM.Apply(t1.value, 0, caller, calls[1]);
      if t2.None? then None else
      var t3 := TM.Apply(t2.value, 0, caller, calls[2]);
      if t3.None? then None else
      var t4 := TM.Apply(t3.value, 0, caller, calls[3]);
      if t4.None? then None else TM.Apply(t4.value, 0, caller, calls[4])
  {
    hide TM.Apply;
    assert CallAll(tm, caller, calls, 1) == TM.Apply(tm, 0, caller, calls[0]);
    assert CallAll(tm, caller, calls, 4) ==
      match CallAll(tm, caller, calls, 3)
      case None => None
      case Some(t) => TM.Apply(t, 0, caller, calls[3]);
  }

  function WithManager(f: FactoryState, id: Hash, tm: Option<TM.TmState>): Option<FactoryState>
    requires id in f.managers
  {
    match tm
    case None => None
    case Some(t) => Some(f.(managers := f.managers[id := f.managers[id].(tm := t)]))
  }

  /** Mint the initial supply, then hand every role over. */
  function HandOver(own: Address, sender: Address, supply: nat, minter: Address): seq<TM.Call> {
    [TM.Mint(sender, supply), TM.TransferMintership(minter), TM.RemoveFlowLimiter(own), TM.AddFlowLimiter(minter),
     TM.TransferOperatorship(minter)]
  }

  /** The status step and the minter the manager is set up with. */
  function ChooseMinter(own: Address, status: map<Hash, InterchainTokenStatus>, id: Hash, supply: nat, minter: Option<Address>)
    : Option<(InterchainTokenStatus, Address)>
  {
    if supply > 0 then (if MayBecome(status, id, NeedsMint) then Some((NeedsMint, own)) else None)
    else if minter.Some? && minter.value != own && MayBecome(status, id, NoMint) then Some((NoMint, minter.value))
    else None
  }

  function DeployInterchainToken(cfg: Config, f: FactoryState, c: Call): Option<FactoryState>
    requires c.Deploy?
  {
    var id := InterchainTokenId(cfg, c.sender, c.salt);
    var chosen := ChooseMinter(cfg.own, f.status, id, c.supply, c.minter);
    if f.paused || !c.namesOk || chosen.None? then None
    else
      var f1 := f.(status := f.status[id := chosen.value.0]);
      if id !in f.managers then
        (if c.egld != 0 then None
         else DeployTokenManager(cfg, f1, id, NativeInterchainToken, None, Some(chosen.value.1), c.address))
      else
        var tm := f.managers[id].tm;
        if tm.identifier.None? then
          WithManager(f1, id, TM.Apply(tm, 0, cfg.own, TM.DeployInterchainToken(Some(chosen.value.1), c.named, c.egld)))
        else if c.egld != 0 then None
        else if c.supply == 0 then Some(f1)
        else
          var calls := HandOver(cfg.own, c.sender, c.supply, if c.minter.Some? then c.minter.value else ZERO_ADDRESS);
          WithManager(f1.(status := f1.status[id := AlreadyMinted]), id, CallAll(tm, cfg.own, calls, |calls|))
  }

  predicate IsMinter(f: FactoryState, id: Hash, who: Address) {
    id in f.managers && TM.Has(f.managers[id].tm, who, TM.Roles.MINTER)
  }

  function ApprovalOf(cfg: Config, minter: Address, deployer: Address, salt: Hash, chain: ManagedBuffer): DeployApproval {
    DeployApproval(minter, InterchainTokenId(cfg, deployer, salt), chain)
  }

  function HashOfMinter(destinationMinter: bytes): Hash { Keccak256(Raw(destinationMinter)) }

  /** Besides its own endpoints, the service gives, takes, and sets limits. */
  predicate CallPossible(cfg: Config, caller: Address, call: TM.Call) {
    caller == cfg.own ==> call.GiveToken? || call.TakeToken? || call.SetFlowLimit?
  }

  function Apply(cfg: Config, f: FactoryState, c: Call): Option<FactoryState> {
    match c
    case Deploy(_, _, _, _, _, _, _, _) => DeployInterchainToken(cfg, f, c)
    case DeployMessage(id, minter, named, egld, address) =>
      if f.paused then None
      else if id !in f.managers then
        (if egld != 0 then None else DeployTokenManager(cfg, f, id, NativeInterchainToken, None, minter, address))
      else WithManager(f, id, TM.Apply(f.managers[id].tm, 0, cfg.own, TM.DeployInterchainToken(minter, named, egld)))
    case Register(origin, kind, identifier, operator, address) =>
      if f.paused || origin.Interchain? || kind.NativeInterchainToken? then None
      else DeployTokenManager(cfg, f, TokenId(cfg.chainName, origin), kind, Some(identifier), operator, address)
    case LinkMessage(id, kind, identifier, operator, address) =>
      if f.paused || kind.NativeInterchainToken? then None
      else DeployTokenManager(cfg, f, id, kind, Some(identifier), operator, address)
    case CallManager(id, now, caller, call) =>
      if id !in f.managers || !CallPossible(cfg, caller, call) then None
      else WithManager(f, id, TM.Apply(f.managers[id].tm, now, caller, call))
    case ApproveRemote(caller, deployer, salt, chain, trusted, destinationMinter) =>
      if !IsMinter(f, InterchainTokenId(cfg, deployer, salt), caller) || !trusted then None
      else
        var key := DeployApprovalKey(ApprovalOf(cfg, caller, deployer, salt, chain));
        Some(f.(approvals := f.approvals[key := HashOfMinter(destinationMinter)]))
    case RevokeRemote(caller, deployer, salt, chain) =>
      Some(f.(approvals := f.approvals - {DeployApprovalKey(ApprovalOf(cfg, caller, deployer, salt, chain))}))
    case DeployRemote(sender, salt, minter, chain, requestedMinter, sent) =>
      if f.paused || !sent then None
      else if minter.None? then (if requestedMinter.None? then Some(f) else None)
      else if !IsMinter(f, InterchainTokenId(cfg, sender, salt), minter.value) || minter.value == cfg.own then None
      else if requestedMinter.None? then Some(f)
      else
        var key := DeployApprovalKey(ApprovalOf(cfg, minter.value, sender, salt, chain));
        if key in f.approvals && f.approvals[key] == HashOfMinter(requestedMinter.value)
        then Some(f.(approvals := f.approvals - {key})) else None
    case SetPaused(paused) => Some(f.(paused := paused))
  }

  function Step(cfg: Config, f: FactoryState, c: Call): FactoryState {
    match Apply(cfg, f, c)
    case None => f
    case Some(g) => g
  }

  function After(cfg: Config, f: FactoryState, calls: seq<Call>, n: nat): FactoryState
    requires n <= |calls|
    decreases n
  {
    if n == 0 then f else Step(cfg, After(cfg, f, calls, n - 1), calls[n - 1])
  }
}

/** The factory's endpoints. What a failed transaction did to a manager is put back. */
module FactoryContract {
  import opened ByteStrings
  import opened ChainTypes
  import opened Keccak
  import opened TokenIds
  import opened TokenManagerTypes
  import opened FactorySpec
  import opened TokenManagerContract
  import TM = TokenManagerSpec

  /** The contract recorded for a token id. */
  datatype Deployed = Deployed(address: Address, contract: TokenManager)

  class Factory {
    const cfg: Config
    var paused: bool
    var status: map<Hash, InterchainTokenStatus>
    var managers: map<Hash, Deployed>
    var approvals: map<Hash, Hash>

    ghost function Contracts(): set<TokenManager>
      reads this`managers
    {
      set id | id in managers :: managers[id].contract
    }

    ghost function ManagedView(): map<Hash, Managed>
      reads this`managers, Contracts()
    {
      map id | id in managers :: Managed(managers[id].address, managers[id].contract.Storage())
    }

    ghost function View(): FactoryState
      reads this, Contracts()
    {
      FactoryState(paused, status, ManagedView(), approvals)
    }

    /** Different token ids have different contracts. */
    ghost predicate Valid()
      reads this`managers, Contracts()
    {
      && (forall a, b :: a in managers && b in managers && a != b ==> managers[a].contract != managers[b].contract)
      && (forall id :: id in managers ==> managers[id].contract.service == cfg.own)
    }

    constructor (cfg: Config)
      ensures Valid() && View() == EMPTY && this.cfg == cfg
    {
      this.cfg, paused, status, managers, approvals := cfg, false, map[], map[], map[];
    }

    /** The contract a call about this token touches, if there is one. */
    ghost function Touched(id: Hash): set<TokenManager>
      reads this`managers
    {
      if id in managers then {managers[id].contract} else {}
    }

    lemma OneChanged(id: Hash, before: map<Hash, Managed>)
      requires Valid() && id in managers && before.Keys == managers.Keys
      requires forall a :: a in managers ==> before[a].address == managers[a].address
      requires forall a :: a in managers && a != id ==> before[a].tm == managers[a].contract.Storage()
      ensures ManagedView() == before[id := before[id].(tm := managers[id].contract.Storage())]
    {
    }

    lemma ViewAt(id: Hash)
      ensures id in ManagedView() <==> id in managers
      ensures id in managers ==> ManagedView()[id] == Managed(managers[id].address, managers[id].contract.Storage())
    {
    }

    method Record(id: Hash, address: Address, contract: TokenManager)
      requires Valid() && id !in managers && contract !in Contracts() && contract.service == cfg.own
      modifies this`managers
      ensures Valid() && ManagedView() == old(ManagedView())[id := Managed(address, contract.Storage())]
    {
      hide TokenManager.Storage;
      managers := managers[id := Deployed(address, contract)];
    }

    method DeployTokenManagerRaw(id: Hash, kind: TokenManagerType, identifier: Option<TokenIdentifier>,
                                 operator: Option<Address>, address: Address) returns (ok: bool)
      requires Valid()
      modifies this`managers
      ensures Valid()
      ensures var r := DeployTokenManager(cfg, old(View()), id, kind, identifier, operator, address);
        && (ok <==> r.Some?)
        && ManagedView() == if ok then r.value.managers else old(ManagedView())
    {
      hide TM.Init, TokenManager.Storage, ManagedView;
      ViewAt(id);
      if id in managers || address == ZERO_ADDRESS || TM.Init(cfg.own, kind, operator, identifier).None? { return false; }
      InitService(cfg.own, kind, operator, identifier);
      var contract := new TokenManager(cfg.own, kind, operator, identifier);
      Record(id, address, contract);
      return true;
    }

    method SetStatus(newStatus: map<Hash, InterchainTokenStatus>)
      modifies this`status
      ensures status == newStatus && ManagedView() == old(ManagedView())
    {
      status := newStatus;
    }

    /** Writes the status, and says who is to be the minter. */
    method WriteStatus(id: Hash, supply: nat, minter: Option<Address>) returns (chosen: Option<Address>)
      modifies this`status
      ensures var r := ChooseMinter(cfg.own, old(status), id, supply, minter);
        if r.None? then chosen.None? && status == old(status)
        else chosen == Some(r.value.1) && status == old(status)[id := r.value.0]
      ensures ManagedView() == old(ManagedView())
    {
      if supply > 0 {
        if id in status && status[id] != NeedsMint { return None; }
        status := status[id := NeedsMint];
        return Some(cfg.own);
      } else if minter.Some? {
        if minter.value == cfg.own || (id in status && status[id] != NoMint) { return None; }
        status := status[id := NoMint];
        return minter;
      } else {
        return None;
      }
    }

    /** Five calls on the manager; the first that fails stops the transaction. */
    method HandOverTo(contract: TokenManager, sender: Address, supply: nat, minter: Address) returns (ok: bool)
      modifies contract
      ensures var r := CallAll(old(contract.Storage()), cfg.own, HandOver(cfg.own, sender, supply, minter), 5);
        (ok <==> r.Some?) && (ok ==> r == Some(contract.Storage()))
    {
      hide TM.Apply;
      ghost var tm := contract.Storage();
      ghost var calls := HandOver(cfg.own, sender, supply, minter);
      FiveSteps(tm, cfg.own, calls);
      ok := contract.MintTo(cfg.own, sender, supply);
      if !ok { return; }
      ok := contract.TransferMintershipTo(cfg.own, minter);
      if !ok { return; }
      ok := contract.RemoveFlowLimiterBy(cfg.own, cfg.own);
      if !ok { return; }
      ok := contract.AddFlowLimiterBy(cfg.own, minter);
      if !ok { return; }
      ok := contract.TransferOperatorshipTo(cfg.own, minter);
    }

    method SecondTransaction(id: Hash, minter: Address, named: bool, egld: nat) returns (ok: bool)
      requires Valid() && id in managers
      modifies managers[id].contract
      ensures Valid()
      ensures var r := TM.Apply(old(managers[id].contract.Storage()), 0, cfg.own, TM.DeployInterchainToken(Some(minter), named, egld));
        && (ok <==> r.Some?)
        && ManagedView() == if ok then old(ManagedView())[id := old(ManagedView())[id].(tm := r.value)] else old(ManagedView())
    {
      hide TM.Apply, TokenManager.Storage;
      ghost var view := ManagedView();
      ok := managers[id].contract.DeployToken(cfg.own, Some(minter), named, egld);
      OneChanged(id, view);
    }

    method ThirdTransaction(id: Hash, sender: Address, supply: nat, minter: Address) returns (ok: bool)
      requires Valid() && id in managers
      modifies managers[id].contract
      ensures Valid()
      ensures var r := CallAll(old(managers[id].contract.Storage()), cfg.own, HandOver(cfg.own, sender, supply, minter), 5);
        && (ok <==> r.Some?)
        && ManagedView() == if ok then old(ManagedView())[id := old(ManagedView())[id].(tm := r.value)] else old(ManagedView())
    {
      hide TM.Apply, CallAll;
      ghost var view := ManagedView();
      var contract := managers[id].contract;
      var saved := contract.Storage();
      ok := HandOverTo(contract, sender, supply, minter);
      if !ok { contract.Restore(saved); }
      OneChanged(id, view);
    }

    /** The status is written before anything else is known to succeed. */
    method DeployInterchainTokenBy(sender: Address, salt: Hash, namesOk: bool, named: bool, supply: nat,
                                   minter: Option<Address>, egld: nat, address: Address) returns (ok: bool)
      requires Valid()
      modifies this, Touched(InterchainTokenId(cfg, sender, salt))
      ensures Valid()
      ensures var r := DeployInterchainToken(cfg, old(View()), Deploy(sender, salt, namesOk, named, supply, minter, egld, address));
        && (ok <==> r.Some?)
        && View() == if ok then r.value else old(View())
    {
      hide TM.Apply, TM.Init, InterchainTokenId, CallAll, ChooseMinter, ManagedView;
      if paused || !namesOk { return false; }
      var id := InterchainTokenId(cfg, sender, salt);
      var before := status;
      ViewAt(id);
      var chosen := WriteStatus(id, supply, minter);
      if chosen.None? { return false; }
      if id !in managers {
        ok := egld == 0;
        if ok { ok := DeployTokenManagerRaw(id, NativeInterchainToken, None, chosen, address); }
      } else if managers[id].contract.identifier.None? {
        ok := SecondTransaction(id, chosen.value, named, egld);
      } else {
        ok := egld == 0;
        if ok && supply > 0 {
          ok := ThirdTransaction(id, sender, supply, if minter.Some? then minter.value else ZERO_ADDRESS);
          if ok { SetStatus(status[id := AlreadyMinted]); }
        }
      }
      if !ok { SetStatus(before); }
    }

    /** Taking the approval clears it; a mismatch undoes that. */
    method UseDeployApproval(approval: DeployApproval, destinationMinter: bytes) returns (ok: bool)
      modifies this`approvals
      ensures var key := DeployApprovalKey(approval);
        && (ok <==> key in old(approvals) && old(approvals)[key] == HashOfMinter(destinationMinter))
        && approvals == if ok then old(approvals) - {key} else old(approvals)
    {
      var key := DeployApprovalKey(approval);
      if key !in approvals { return false; }
      var taken := approvals[key];
      var before := approvals;
      approvals := approvals - {key};
      ok := taken == HashOfMinter(destinationMinter);
      if !ok { approvals := before; }
    }
  }

  lemma InitService(service: Address, kind: TokenManagerType, operator: Option<Address>, identifier: Option<TokenIdentifier>)
    requires TM.Init(service, kind, operator, identifier).Some?
    ensures TM.Init(service, kind, operator, identifier).value.service == service
  {
  }
}
