/** When the factory's calls succeed, and what they set up. */
module FactoryLaws {
  import opened ByteStrings
  import opened ChainTypes
  import opened Keccak
  import opened TokenIds
  import opened TokenManagerTypes
  import opened FactorySpec
  import opened FactoryRuns
  import opened Roles
  import TM = TokenManagerSpec
  import Laws = TokenManagerLaws

  // ---------- new managers ----------

  /** A manager is put exactly where none is yet, at a proper address, and in a form it can have: with a token exactly if
      it is not a native one, and with one it can mint if it has to. */
  predicate CanSetUp(cfg: Config, f: FactoryState, id: Hash, kind: TokenManagerType, identifier: Option<TokenIdentifier>,
                     address: Address)
  {
    && id !in f.managers && address != Zeros(32) && cfg.own != Zeros(32)
    && (kind.NativeInterchainToken? <==> identifier.None?)
    && (kind.MintBurn? || kind.MintBurnFrom? ==> Laws.IsEsdt(identifier))
  }

  /** The new manager belongs to the service; the service and the given operator operate it and limit its flow, nobody
      mints, and nothing has been issued, locked or paid. */
  ghost predicate SetUp(cfg: Config, g: FactoryState, id: Hash, kind: TokenManagerType, identifier: Option<TokenIdentifier>,
                        operator: Address, address: Address)
  {
    && id in g.managers && g.managers[id].address == address
    && var tm := g.managers[id].tm;
       && tm.service == cfg.own && tm.kind == kind && tm.identifier == identifier && tm.minter.None? && tm.issuing == 0
       && tm.locked == 0 && tm.supply == 0 && tm.flow.limit.None?
       && (forall who :: TM.Balance(tm.holders, who) == 0)
       && (forall who, role :: TM.Has(tm, who, role) <==> role != MINTER && (who == cfg.own || who == operator))
  }

  /** Nothing about any other token changes. */
  ghost predicate OthersSame(f: FactoryState, g: FactoryState, id: Hash) {
    && (forall other :: other != id ==> (other in f.managers <==> other in g.managers) && (other in f.status <==> other in g.status))
    && (forall other :: other != id && other in f.managers ==> g.managers[other] == f.managers[other])
    && (forall other :: other != id && other in f.status ==> g.status[other] == f.status[other])
    && g.approvals == f.approvals && g.paused == f.paused
  }

  lemma SetUpExactly(cfg: Config, f: FactoryState, id: Hash, kind: TokenManagerType, identifier: Option<TokenIdentifier>,
                     operator: Option<Address>, address: Address)
    ensures var r := DeployTokenManager(cfg, f, id, kind, identifier, operator, address);
      && (r.Some? <==> CanSetUp(cfg, f, id, kind, identifier, address))
      && (r.Some? ==>
            && SetUp(cfg, r.value, id, kind, identifier, if operator.Some? then operator.value else Zeros(32), address)
            && OthersSame(f, r.value, id) && r.value.status == f.status)
  {
    Laws.InitExactly(cfg.own, kind, operator, identifier);
    hide TM.Init, TM.Has, TM.Balance;
  }

  // ---------- the first two transactions of a token ----------

  /** With an initial supply the service is to mint it first; without one a minter must be named, other than the service. */
  function FirstMinter(cfg: Config, c: Call): Option<Address>
    requires c.Deploy?
  {
    if c.supply > 0 then Some(cfg.own) else if c.minter == Some(cfg.own) then None else c.minter
  }

  /** The status the token must have, if it has one, and then has. */
  function Waiting(c: Call): InterchainTokenStatus
    requires c.Deploy?
  {
    if c.supply > 0 then NeedsMint else NoMint
  }

  lemma MinterChosen(cfg: Config, f: FactoryState, c: Call, id: Hash)
    requires c.Deploy?
    ensures var r := ChooseMinter(cfg.own, f.status, id, c.supply, c.minter);
      && (r.Some? <==> FirstMinter(cfg, c).Some? && (id in f.status ==> f.status[id] == Waiting(c)))
      && (r.Some? ==> r.value == (Waiting(c), FirstMinter(cfg, c).value))
  {
  }

  /** The first transaction puts up the manager, exactly without payment and for a token still free; the minter to be
      operates it. */
  lemma FirstTransactionExactly(cfg: Config, f: FactoryState, c: Call)
    requires c.Deploy? && InterchainTokenId(cfg, c.sender, c.salt) !in f.managers
    ensures var id, r := InterchainTokenId(cfg, c.sender, c.salt), Apply(cfg, f, c);
      && (r.Some? <==>
            && !f.paused && c.namesOk && c.egld == 0 && FirstMinter(cfg, c).Some?
            && (id in f.status ==> f.status[id] == Waiting(c))
            && c.address != Zeros(32) && cfg.own != Zeros(32))
      && (r.Some? ==>
            && SetUp(cfg, r.value, id, NativeInterchainToken, None, FirstMinter(cfg, c).value, c.address)
            && OthersSame(f, r.value, id) && r.value.status == f.status[id := Waiting(c)])
  {
    hide InterchainTokenId, DeployTokenManager, ChooseMinter, FirstMinter, SetUp;
    var id := InterchainTokenId(cfg, c.sender, c.salt);
    MinterChosen(cfg, f, c, id);
    if FirstMinter(cfg, c).Some? {
      SetUpExactly(cfg, f.(status := f.status[id := Waiting(c)]), id, NativeInterchainToken, None, FirstMinter(cfg, c), c.address);
    }
  }

  /** The second transaction starts the issue, exactly with its cost and proper names, where the manager lets the service;
      a manager without a minter gets the one chosen. */
  lemma SecondTransactionExactly(cfg: Config, f: FactoryState, c: Call)
    requires c.Deploy? && InterchainTokenId(cfg, c.sender, c.salt) in f.managers
    requires f.managers[InterchainTokenId(cfg, c.sender, c.salt)].tm.identifier.None?
    ensures var id, r := InterchainTokenId(cfg, c.sender, c.salt), Apply(cfg, f, c);
      var tm := f.managers[id].tm;
      && (r.Some? <==>
            && !f.paused && c.namesOk && c.named && c.egld == 50000000000000000 && FirstMinter(cfg, c).Some?
            && (id in f.status ==> f.status[id] == Waiting(c))
            && tm.kind.NativeInterchainToken? && (cfg.own == tm.service || TM.Has(tm, cfg.own, MINTER)))
      && (r.Some? ==>
            && OthersSame(f, r.value, id) && r.value.status == f.status[id := Waiting(c)] && id in r.value.managers
            && var t := r.value.managers[id].tm;
               && t.issuing == tm.issuing + 1 && t.identifier.None?
               && t.minter == (if tm.minter.Some? then tm.minter else FirstMinter(cfg, c))
               && (forall who, role :: TM.Has(t, who, role) <==>
                     TM.Has(tm, who, role) || (tm.minter.None? && role == MINTER && Some(who) == FirstMinter(cfg, c))))
  {
    hide InterchainTokenId, ChooseMinter, FirstMinter, TM.Apply, TM.Has;
    var id := InterchainTokenId(cfg, c.sender, c.salt);
    var tm := f.managers[id].tm;
    MinterChosen(cfg, f, c, id);
    if FirstMinter(cfg, c).Some? {
      var call := TM.DeployInterchainToken(FirstMinter(cfg, c), c.named, c.egld);
      Laws.CallsExactly(tm, 0, cfg.own, call);
      if TM.Apply(tm, 0, cfg.own, call).Some? {
        Laws.FieldStep(tm, 0, cfg.own, call);
        forall who, role { Laws.RoleStep(tm, 0, cfg.own, call, who, role); }
      }
    }
  }

  /** Without a supply there is no third: once issued, the token is left as it is. */
  lemma NothingToMint(cfg: Config, f: FactoryState, c: Call)
    requires c.Deploy? && c.supply == 0 && InterchainTokenId(cfg, c.sender, c.salt) in f.managers
    requires f.managers[InterchainTokenId(cfg, c.sender, c.salt)].tm.identifier.Some?
    ensures Apply(cfg, f, c).Some? ==> Apply(cfg, f, c).value.managers == f.managers
    ensures Apply(cfg, f, c).Some? <==>
      && !f.paused && c.namesOk && c.egld == 0 && FirstMinter(cfg, c).Some?
      && (InterchainTokenId(cfg, c.sender, c.salt) in f.status ==> f.status[InterchainTokenId(cfg, c.sender, c.salt)] == NoMint)
  {
    hide InterchainTokenId, ChooseMinter, FirstMinter;
    MinterChosen(cfg, f, c, InterchainTokenId(cfg, c.sender, c.salt));
  }

  // ---------- messages and registrations ----------

  /** A token that exists can be registered and linked under any id but an interchain token's, for any kind but the
      native one; a deploy message puts up a native manager under the id it names. */
  lemma RegistersExactly(cfg: Config, f: FactoryState, c: Call)
    requires c.Register? || c.LinkMessage? || (c.DeployMessage? && c.id !in f.managers)
    ensures var id := if c.Register? then TokenId(cfg.chainName, c.origin) else c.id;
      var kind := if c.DeployMessage? then NativeInterchainToken else c.kind;
      var identifier := if c.DeployMessage? then None else Some(c.identifier);
      var operator := if c.DeployMessage? then c.minter else c.operator;
      var r := Apply(cfg, f, c);
      && (r.Some? <==>
            && !f.paused && (c.DeployMessage? ==> c.egld == 0) && (c.Register? ==> !c.origin.Interchain?)
            && CanSetUp(cfg, f, id, kind, identifier, c.address))
      && (r.Some? ==>
            && SetUp(cfg, r.value, id, kind, identifier, if operator.Some? then operator.value else Zeros(32), c.address)
            && OthersSame(f, r.value, id) && r.value.status == f.status)
  {
    hide TokenId, DeployTokenManager, SetUp, OthersSame;
    var id := if c.Register? then TokenId(cfg.chainName, c.origin) else c.id;
    var kind := if c.DeployMessage? then NativeInterchainToken else c.kind;
    var identifier := if c.DeployMessage? then None else Some(c.identifier);
    SetUpExactly(cfg, f, id, kind, identifier, if c.DeployMessage? then c.minter else c.operator, c.address);
  }

  // ---------- approvals of remote deployments ----------

  function KeyOf(cfg: Config, minter: Address, deployer: Address, salt: Hash, chain: ManagedBuffer): Hash {
    DeployApprovalKey(DeployApproval(minter, InterchainTokenId(cfg, deployer, salt), chain))
  }

  /** Exactly the token's minters approve, for trusted chains; an approval replaces an earlier one of the same minter for
      the same token and chain, and a revocation by its minter takes it away; neither does anything else. */
  lemma ApprovalsExactly(cfg: Config, f: FactoryState, c: Call)
    requires c.ApproveRemote? || c.RevokeRemote?
    ensures var r, key := Apply(cfg, f, c), KeyOf(cfg, c.caller, c.deployer, c.salt, c.chain);
      && (r.Some? <==> c.RevokeRemote? || (c.trusted && IsMinter(f, InterchainTokenId(cfg, c.deployer, c.salt), c.caller)))
      && (r.Some? ==>
            && r.value.(approvals := f.approvals) == f
            && (forall k :: k != key ==> (k in r.value.approvals <==> k in f.approvals))
            && (forall k :: k != key && k in f.approvals ==> r.value.approvals[k] == f.approvals[k])
            && (key in r.value.approvals <==> c.ApproveRemote?)
            && (c.ApproveRemote? ==> r.value.approvals[key] == Keccak256(Raw(c.destinationMinter))))
  {
    hide DeployApprovalKey, InterchainTokenId, IsMinter;
  }

  /** A remote deployment goes out exactly when the service is not paused and can send it, and: no minter is named and
      none is requested; or the minter is one of the token, is not the service, and approved the requested one, if one is
      requested. That approval is then used up. */
  lemma DeploysRemoteExactly(cfg: Config, f: FactoryState, c: Call)
    requires c.DeployRemote?
    ensures var r := Apply(cfg, f, c);
      && (r.Some? <==>
            && !f.paused && c.sent
            && (c.minter.None? ==> c.requestedMinter.None?)
            && (c.minter.Some? ==>
                  && c.minter.value != cfg.own && IsMinter(f, InterchainTokenId(cfg, c.sender, c.salt), c.minter.value)
                  && (c.requestedMinter.Some? ==>
                        ApprovedIs(f, KeyOf(cfg, c.minter.value, c.sender, c.salt, c.chain), c.requestedMinter.value))))
      && (r.Some? && c.requestedMinter.None? ==> r.value == f)
      && (r.Some? && c.requestedMinter.Some? ==>
            c.minter.Some?
            && r.value == f.(approvals := f.approvals - {KeyOf(cfg, c.minter.value, c.sender, c.salt, c.chain)}))
  {
    hide DeployApprovalKey, InterchainTokenId, IsMinter;
  }

  predicate ApprovedIs(f: FactoryState, key: Hash, destinationMinter: bytes) {
    key in f.approvals && f.approvals[key] == HashOfMinter(destinationMinter)
  }

  lemma ApprovalKept(cfg: Config, f: FactoryState, c: Call, key: Hash, destinationMinter: bytes)
    requires ApprovedIs(f, key, destinationMinter)
    requires !Uses(cfg, f, c, key) && !Revokes(cfg, c, key)
    requires c.ApproveRemote? && Apply(cfg, f, c).Some? && KeyOf(cfg, c.caller, c.deployer, c.salt, c.chain) == key
             ==> c.destinationMinter == destinationMinter
    ensures ApprovedIs(Step(cfg, f, c), key, destinationMinter)
  {
    hide TM.Apply, TM.Init, InterchainTokenId, CallAll, DeployApprovalKey, HashOfMinter, HandOver, TM.Has, ChooseMinter;
  }

  /** From transaction i to n the approval was neither used nor revoked, nor replaced by one for another minter. */
  predicate StillApproved(cfg: Config, calls: seq<Call>, i: nat, n: nat, key: Hash, destinationMinter: bytes)
    requires i < n <= |calls|
  {
    && calls[i].ApproveRemote? && Apply(cfg, After(cfg, EMPTY, calls, i), calls[i]).Some?
    && KeyOf(cfg, calls[i].caller, calls[i].deployer, calls[i].salt, calls[i].chain) == key
    && calls[i].destinationMinter == destinationMinter
    && (forall j :: i < j < n ==>
          && !Uses(cfg, After(cfg, EMPTY, calls, j), calls[j], key) && !Revokes(cfg, calls[j], key)
          && (calls[j].ApproveRemote? && Apply(cfg, After(cfg, EMPTY, calls, j), calls[j]).Some?
              && KeyOf(cfg, calls[j].caller, calls[j].deployer, calls[j].salt, calls[j].chain) == key
              ==> calls[j].destinationMinter == destinationMinter))
  }

  lemma {:induction false} ApprovalStands(cfg: Config, calls: seq<Call>, i: nat, n: nat, key: Hash, destinationMinter: bytes)
    requires i < n <= |calls| && StillApproved(cfg, calls, i, n, key, destinationMinter)
    ensures ApprovedIs(After(cfg, EMPTY, calls, n), key, destinationMinter)
    decreases n
  {
    hide Apply, Uses, Revokes, KeyOf;
    var f := After(cfg, EMPTY, calls, n - 1);
    if i < n - 1 {
      ApprovalStands(cfg, calls, i, n - 1, key, destinationMinter);
      ApprovalKept(cfg, f, calls[n - 1], key, destinationMinter);
    } else {
      ApprovalsExactly(cfg, f, calls[i]);
    }
  }

  /** What the minter approved can be deployed, once: whatever happened in between, as long as he is still a minter, the
      deployer's call with the approved minter goes out, and the same call again does not. */
  lemma {:induction false} ApprovedCanDeploy(cfg: Config, calls: seq<Call>, i: nat, n: nat, minter: Address)
    requires i < n < |calls| && calls[i].ApproveRemote? && calls[i].caller == minter && minter != cfg.own
    requires StillApproved(cfg, calls, i, n, KeyOf(cfg, minter, calls[i].deployer, calls[i].salt, calls[i].chain),
                           calls[i].destinationMinter)
    requires calls[n] == DeployRemote(calls[i].deployer, calls[i].salt, Some(minter), calls[i].chain,
                                      Some(calls[i].destinationMinter), true)
    requires var f := After(cfg, EMPTY, calls, n);
      !f.paused && IsMinter(f, InterchainTokenId(cfg, calls[i].deployer, calls[i].salt), minter)
    ensures Apply(cfg, After(cfg, EMPTY, calls, n), calls[n]).Some?
    ensures Apply(cfg, After(cfg, EMPTY, calls, n + 1), calls[n]).None?
  {
    hide Apply, After, KeyOf, StillApproved, IsMinter, InterchainTokenId, HashOfMinter;
    var f := After(cfg, EMPTY, calls, n);
    ApprovalStands(cfg, calls, i, n, KeyOf(cfg, minter, calls[i].deployer, calls[i].salt, calls[i].chain), calls[i].destinationMinter);
    DeploysRemoteExactly(cfg, f, calls[n]);
    NextState(cfg, calls, n);
    DeploysRemoteExactly(cfg, After(cfg, EMPTY, calls, n + 1), calls[n]);
  }

  lemma NextState(cfg: Config, calls: seq<Call>, n: nat)
    requires n < |calls|
    ensures After(cfg, EMPTY, calls, n + 1) == Step(cfg, After(cfg, EMPTY, calls, n), calls[n])
  {
    hide Step;
  }
}
