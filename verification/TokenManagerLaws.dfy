/** Every call of a token manager: who may make it, what has to be there for it, and what it changes. */
module TokenManagerLaws {
  import opened ByteStrings
  import opened ChainTypes
  import opened Keccak
  import opened TokenManagerTypes
  import opened FlowLimit
  import opened Roles
  import opened TokenManagerSpec
  import opened TokenManagerRuns

  // ---------- when a call is accepted ----------

  /** Only the service moves tokens across the bridge; the operator manages the flow limiters and hands on its role; the
      flow limiters set the limit; the minter mints, burns and hands on its role. */
  predicate MayCall(s: TmState, caller: Address, call: Call) {
    && (call.GiveToken? || call.TakeToken? ==> caller == s.service)
    && (call.AddFlowLimiter? || call.RemoveFlowLimiter? || call.TransferFlowLimiter? ==> Has(s, caller, OPERATOR))
    && (call.TransferOperatorship? || call.ProposeOperatorship? ==> Has(s, caller, OPERATOR))
    && (call.SetFlowLimit? ==> Has(s, caller, FLOW_LIMITER))
    && (call.Mint? || call.Burn? || call.TransferMintership? || call.ProposeMintership? ==> Has(s, caller, MINTER))
    && (call.DeployInterchainToken? ==> caller == s.service || Has(s, caller, MINTER))
    && (call.AcceptMintership? ==> Offered(s, call.fromMinter, caller, {MINTER}) && Has(s, call.fromMinter, MINTER))
    && (call.AcceptOperatorship? ==> Offered(s, call.fromOperator, caller, {OPERATOR}) && Has(s, call.fromOperator, OPERATOR))
  }

  predicate Offered(s: TmState, source: Address, target: Address, roles: set<Role>) {
    (source, target) in s.accounts.proposed && s.accounts.proposed[(source, target)] == roles
  }

  /** The caller's own tokens go into the call. */
  predicate Pays(call: Call) { call.TakeToken? || call.DonateTokens? || call.Burn? || call.SendTokens? }

  predicate Credits(call: Call) { call.GiveToken? || call.Mint? || call.SendTokens? || call.IssueElsewhere? }

  function AmountOf(call: Call): nat
    requires Pays(call) || Credits(call)
  {
    match call
    case GiveToken(_, amount) => amount
    case TakeToken(_, amount) => amount
    case DonateTokens(_, amount) => amount
    case Mint(_, amount) => amount
    case Burn(_, amount) => amount
    case SendTokens(_, amount) => amount
    case IssueElsewhere(_, amount) => amount
  }

  predicate Locking(kind: TokenManagerType) { kind.LockUnlock? || kind.LockUnlockFee? }

  /** Only a native manager issues its token and mints and burns for a minter; donations go to a lock/unlock manager. */
  predicate KindAllows(kind: TokenManagerType, call: Call) {
    && (call.Mint? || call.Burn? || call.DeployInterchainToken? ==> kind.NativeInterchainToken?)
    && (call.IssueElsewhere? ==> !kind.NativeInterchainToken?)
    && (call.DonateTokens? ==> kind.LockUnlock?)
  }

  predicate IsEsdt(identifier: Option<TokenIdentifier>) { identifier.Some? && identifier.value.Esdt? }

  /** The caller has what it pays, in the managed token; a locking manager has locked what it pays out; a minting one
      has a token that can be minted and burned; an issue pays the cost of 0.05 EGLD for a token not there yet. */
  predicate Covered(s: TmState, caller: Address, call: Call) {
    && (Pays(call) ==> AmountOf(call) <= Balance(s.holders, caller))
    && (call.TakeToken? || call.DonateTokens? || call.Burn? ==> s.identifier == Some(call.token))
    && (call.GiveToken? && Locking(s.kind) ==> call.amount <= s.locked)
    && ((call.GiveToken? || call.TakeToken?) && !Locking(s.kind) ==> IsEsdt(s.identifier))
    && (call.Mint? || call.Burn? ==> IsEsdt(s.identifier))
    && (call.DeployInterchainToken? ==> s.identifier.None? && call.named && call.egld == 50000000000000000)
    && (call.IssueCallback? ==> s.issuing > 0)
    && (call.TransferFlowLimiter? ==> Has(s, call.from, FLOW_LIMITER))
  }

  predicate WithinFlow(s: TmState, now: nat, call: Call) {
    && (call.GiveToken? ==> Allows(s.flow, now, In, call.amount))
    && (call.TakeToken? ==> Allows(s.flow, now, Out, call.amount))
  }

  /** A call succeeds exactly when its caller may make it, the manager is of the right kind, the tokens are there, and
      the flow limit allows it. */
  lemma CallsExactly(s: TmState, now: nat, caller: Address, call: Call)
    ensures Apply(s, now, caller, call).Some?
      <==> MayCall(s, caller, call) && KindAllows(s.kind, call) && Covered(s, caller, call) && WithinFlow(s, now, call)
  {
    if call.GiveToken? || call.TakeToken? {
      MovesExactly(s, now, caller, call);
    } else {
      hide Give, Take, Allows, AddFlow;
    }
  }

  lemma MovesExactly(s: TmState, now: nat, caller: Address, call: Call)
    requires call.GiveToken? || call.TakeToken?
    ensures Apply(s, now, caller, call).Some?
      <==> MayCall(s, caller, call) && KindAllows(s.kind, call) && Covered(s, caller, call) && WithinFlow(s, now, call)
  {
    MovedExactly(s.flow, now, if call.GiveToken? then In else Out, call.amount);
    hide AddFlowIn, AddFlowOut, Allows, Has;
  }

  // ---------- what a call changes ----------

  function Later(s: TmState, now: nat, caller: Address, call: Call): TmState
    requires Apply(s, now, caller, call).Some?
  {
    Apply(s, now, caller, call).value
  }

  /** Whose balance a call changes: the caller pays, the destination is credited, nobody else is touched. */
  lemma BalanceStep(s: TmState, now: nat, caller: Address, call: Call, who: Address)
    requires Apply(s, now, caller, call).Some?
    ensures Balance(Later(s, now, caller, call).holders, who)
         == Balance(s.holders, who)
            - (if Pays(call) && who == caller then AmountOf(call) else 0)
            + (if Credits(call) && who == call.destination then AmountOf(call) else 0)
  {
    hide AddFlowIn, AddFlowOut, Has, TransferRole, AcceptRole, ProposeRole;
  }

  /** Tokens that come from or go to the other chains are locked and unlocked by a locking manager, burned and minted by
      any other; a donation is locked; minting and burning by the minter change the supply. */
  lemma ReserveStep(s: TmState, now: nat, caller: Address, call: Call)
    requires Apply(s, now, caller, call).Some?
    ensures Later(s, now, caller, call).locked
         == s.locked
            + (if (call.TakeToken? && Locking(s.kind)) || call.DonateTokens? then AmountOf(call) else 0)
            - (if call.GiveToken? && Locking(s.kind) then AmountOf(call) else 0)
    ensures Later(s, now, caller, call).supply
         == s.supply
            + (if (call.GiveToken? && !Locking(s.kind)) || call.Mint? then AmountOf(call) else 0)
            - (if (call.TakeToken? && !Locking(s.kind)) || call.Burn? then AmountOf(call) else 0)
  {
    hide AddFlowIn, AddFlowOut, Has, TransferRole, AcceptRole, ProposeRole, Debit, Credit;
  }

  /** The flow is recorded by what crosses the bridge, and only the flow limiters change the limit. */
  lemma FlowChange(s: TmState, now: nat, caller: Address, call: Call)
    requires Apply(s, now, caller, call).Some?
    ensures var t := Later(s, now, caller, call);
      && (call.GiveToken? ==> Moved(s.flow, now, In, call.amount) == Some(t.flow))
      && (call.TakeToken? ==> Moved(s.flow, now, Out, call.amount) == Some(t.flow))
      && (call.SetFlowLimit? ==> t.flow == Flow(call.limit, s.flow.inflow, s.flow.outflow))
      && (!call.GiveToken? && !call.TakeToken? && !call.SetFlowLimit? ==> t.flow == s.flow)
  {
    hide AddFlowIn, AddFlowOut, Has, TransferRole, AcceptRole, ProposeRole, Debit, Credit;
  }

  /** Which role a call moves, and from whom to whom. */
  datatype Moving = NoMove | Move(role: Role, source: Address, target: Address)

  function RoleMove(caller: Address, call: Call): Moving {
    match call
    case TransferFlowLimiter(from, to) => Move(FLOW_LIMITER, from, to)
    case TransferMintership(to) => Move(MINTER, caller, to)
    case AcceptMintership(from) => Move(MINTER, from, caller)
    case TransferOperatorship(to) => Move(OPERATOR, caller, to)
    case AcceptOperatorship(from) => Move(OPERATOR, from, caller)
    case _ => NoMove
  }

  /** Who newly has a role without anybody losing it. */
  predicate Appointed(s: TmState, call: Call, who: Address, role: Role) {
    || (call.AddFlowLimiter? && who == call.limiter && role == FLOW_LIMITER)
    || (call.DeployInterchainToken? && s.minter.None? && role == MINTER
        && who == if call.firstMinter.Some? then call.firstMinter.value else ZERO_ADDRESS)
  }

  /** Who has which role after a call: a moved role is with its target and no longer with its source, an appointed one
      is added, a removed one is gone, and every other account and role is as before. */
  lemma RoleStep(s: TmState, now: nat, caller: Address, call: Call, who: Address, role: Role)
    requires Apply(s, now, caller, call).Some?
    ensures Has(Later(s, now, caller, call), who, role) <==>
      var m := RoleMove(caller, call);
      if m.Move? && m.role == role then who == m.target || (Has(s, who, role) && who != m.source)
      else if call.RemoveFlowLimiter? && role == FLOW_LIMITER then Has(s, who, role) && who != call.limiter
      else Has(s, who, role) || Appointed(s, call, who, role)
  {
    if RoleMove(caller, call).Move? {
      RoleMoved(s, now, caller, call, who, role);
    } else if call.AddFlowLimiter? || call.RemoveFlowLimiter? || call.DeployInterchainToken? {
      hide TransferRole, AcceptRole, ProposeRole;
    } else {
      hide AddFlowIn, AddFlowOut, Debit, Credit, AddRole, RemoveRole, TransferRole, AcceptRole, Has;
      assert Later(s, now, caller, call).accounts.roles == s.accounts.roles;
      assert Has(Later(s, now, caller, call), who, role) == Has(s, who, role) by { SameRoles(s, Later(s, now, caller, call), who, role); }
    }
  }

  lemma SameRoles(s: TmState, t: TmState, who: Address, role: Role)
    requires t.accounts.roles == s.accounts.roles
    ensures Has(t, who, role) == Has(s, who, role)
  {
  }

  lemma RoleMoved(s: TmState, now: nat, caller: Address, call: Call, who: Address, role: Role)
    requires Apply(s, now, caller, call).Some? && RoleMove(caller, call).Move?
    ensures var m := RoleMove(caller, call);
      Has(Later(s, now, caller, call), who, role) <==>
        if m.role == role then who == m.target || (Has(s, who, role) && who != m.source) else Has(s, who, role)
  {
    hide AddRole, RemoveRole;
    var m := RoleMove(caller, call);
    var a := if call.AcceptMintership? || call.AcceptOperatorship?
             then s.accounts.(proposed := s.accounts.proposed - {(m.source, m.target)}) else s.accounts;
    assert RolesOf(a, who) == RolesOf(s.accounts, who);
    assert TransferRole(a, m.source, m.target, {m.role}) == Some(Later(s, now, caller, call).accounts);
    TransferMeans(a, m.source, m.target, m.role, who, role);
  }

  /** A proposal is written by proposing, used up by accepting, and touched by nothing else. */
  lemma ProposalStep(s: TmState, now: nat, caller: Address, call: Call, source: Address, target: Address, roles: set<Role>)
    requires Apply(s, now, caller, call).Some?
    ensures Offered(Later(s, now, caller, call), source, target, roles) <==>
      if call.ProposeMintership? && source == caller && target == call.newMinter then roles == {MINTER}
      else if call.ProposeOperatorship? && source == caller && target == call.operator then roles == {OPERATOR}
      else
        && Offered(s, source, target, roles)
        && !(call.AcceptMintership? && source == call.fromMinter && target == caller)
        && !(call.AcceptOperatorship? && source == call.fromOperator && target == caller)
  {
    hide AddFlowIn, AddFlowOut, Debit, Credit;
    if call.ProposeMintership? || call.ProposeOperatorship? {
      OfferWritten(s, now, caller, call, source, target, roles);
    } else if call.AcceptMintership? || call.AcceptOperatorship? {
      OfferUsed(s, now, caller, call, source, target, roles);
    }
  }

  lemma OfferWritten(s: TmState, now: nat, caller: Address, call: Call, source: Address, target: Address, roles: set<Role>)
    requires Apply(s, now, caller, call).Some? && (call.ProposeMintership? || call.ProposeOperatorship?)
    ensures Offered(Later(s, now, caller, call), source, target, roles) <==>
      if source == caller && target == (if call.ProposeMintership? then call.newMinter else call.operator)
      then roles == (if call.ProposeMintership? then {MINTER} else {OPERATOR})
      else Offered(s, source, target, roles)
  {
  }

  lemma OfferUsed(s: TmState, now: nat, caller: Address, call: Call, source: Address, target: Address, roles: set<Role>)
    requires Apply(s, now, caller, call).Some? && (call.AcceptMintership? || call.AcceptOperatorship?)
    ensures Offered(Later(s, now, caller, call), source, target, roles) <==>
      && Offered(s, source, target, roles)
      && !(source == (if call.AcceptMintership? then call.fromMinter else call.fromOperator) && target == caller)
  {
  }

  /** The stored minter follows the role, the identifier comes from the first issue that succeeds, and the open issues
      are counted. */
  lemma FieldStep(s: TmState, now: nat, caller: Address, call: Call)
    requires Apply(s, now, caller, call).Some?
    ensures var t := Later(s, now, caller, call);
      && t.service == s.service && t.kind == s.kind
      && t.minter == (if call.TransferMintership? then Some(call.newMinter)
                      else if call.AcceptMintership? then Some(caller)
                      else if call.DeployInterchainToken? && s.minter.None?
                      then Some(if call.firstMinter.Some? then call.firstMinter.value else ZERO_ADDRESS)
                      else s.minter)
      && t.identifier == (if call.IssueCallback? && call.issued.Some? && s.identifier.None? then Some(Esdt(call.issued.value))
                          else s.identifier)
      && t.issuing == s.issuing + (if call.DeployInterchainToken? then 1 else 0) - (if call.IssueCallback? then 1 else 0)
  {
    hide AddFlowIn, AddFlowOut, Debit, Credit, AddRole, RemoveRole;
  }

  // ---------- the start ----------

  /** A manager can be set up exactly for a service, and for every kind but the native one with a token, which a minting
      kind must be able to mint. Its operators and flow limiters are the service and the given operator, or the zero
      address in place of that one; it has no minter, no limit and no tokens. */
  lemma InitExactly(service: Address, kind: TokenManagerType, operator: Option<Address>, identifier: Option<TokenIdentifier>)
    ensures Init(service, kind, operator, identifier).Some? <==>
      && service != ZERO_ADDRESS
      && (kind.NativeInterchainToken? <==> identifier.None?)
      && (kind.MintBurn? || kind.MintBurnFrom? ==> IsEsdt(identifier))
    ensures Init(service, kind, operator, identifier).Some? ==>
      var s := Init(service, kind, operator, identifier).value;
      && s.service == service && s.kind == kind && s.identifier == identifier && s.minter.None? && s.issuing == 0
      && s.flow == Flow(None, map[], map[]) && s.locked == 0 && s.supply == 0
      && (forall who :: Balance(s.holders, who) == 0)
      && (forall who, role :: Has(s, who, role) <==>
            role != MINTER && (who == service || Some(who) == operator || (operator.None? && who == ZERO_ADDRESS)))
      && (forall source, target, roles :: !Offered(s, source, target, roles))
  {
  }

  // ---------- two-step transfers ----------

  /** The call moves a role on the strength of a proposal from `source` to `target`. */
  predicate Accepts(tx: Tx, role: Role, source: Address, target: Address) {
    && tx.caller == target
    && ((role == MINTER && tx.call == AcceptMintership(source)) || (role == OPERATOR && tx.call == AcceptOperatorship(source)))
  }

  predicate Proposes(tx: Tx, role: Role, source: Address, target: Address) {
    && tx.caller == source
    && ((role == MINTER && tx.call == ProposeMintership(target)) || (role == OPERATOR && tx.call == ProposeOperatorship(target)))
  }

  predicate Works(s: TmState, txs: seq<Tx>, i: nat)
    requires i < |txs|
  {
    Apply(After(s, txs, i), txs[i].now, txs[i].caller, txs[i].call).Some?
  }

  /** Transaction i wrote the proposal, and up to n nobody used it or wrote another between the two. */
  predicate OpenOffer(s: TmState, txs: seq<Tx>, i: nat, n: nat, role: Role, source: Address, target: Address)
    requires i < n <= |txs|
  {
    && Works(s, txs, i) && Proposes(txs[i], role, source, target)
    && (forall k, any :: i < k < n && Works(s, txs, k) ==>
          !Accepts(txs[k], any, source, target) && !Proposes(txs[k], any, source, target))
  }

  lemma {:induction false} OfferHasProposal(s: TmState, txs: seq<Tx>, n: nat, role: Role, source: Address, target: Address)
      returns (i: nat)
    requires n <= |txs| && (role == MINTER || role == OPERATOR)
    requires forall roles :: !Offered(s, source, target, roles)
    requires Offered(After(s, txs, n), source, target, {role})
    ensures i < n && OpenOffer(s, txs, i, n, role, source, target)
    decreases n
  {
    hide Apply, Offered;
    var u, tx := After(s, txs, n - 1), txs[n - 1];
    if !Works(s, txs, n - 1) {
      i := OfferHasProposal(s, txs, n - 1, role, source, target);
    } else {
      ProposalStep(u, tx.now, tx.caller, tx.call, source, target, {role});
      assert {MINTER} != {OPERATOR} by { assert MINTER !in {OPERATOR}; }
      if Proposes(tx, role, source, target) {
        i := n - 1;
      } else {
        i := OfferHasProposal(s, txs, n - 1, role, source, target);
      }
    }
  }

  /** In every run, whoever accepts a role was offered that role by that account before, in a proposal that nobody had
      used or replaced since; and the account still had the role. */
  lemma {:induction false} AcceptedWasProposed(s: TmState, txs: seq<Tx>, n: nat, role: Role, source: Address, target: Address)
      returns (i: nat)
    requires n < |txs| && forall roles :: !Offered(s, source, target, roles)
    requires Works(s, txs, n) && Accepts(txs[n], role, source, target)
    ensures i < n && OpenOffer(s, txs, i, n, role, source, target)
    ensures Has(After(s, txs, n), source, role)
  {
    hide Apply, After;
    CallsExactly(After(s, txs, n), txs[n].now, txs[n].caller, txs[n].call);
    i := OfferHasProposal(s, txs, n, role, source, target);
  }

  lemma {:induction false} OfferStays(s: TmState, txs: seq<Tx>, i: nat, n: nat, role: Role, source: Address, target: Address)
    requires i < n <= |txs| && OpenOffer(s, txs, i, n, role, source, target)
    ensures Offered(After(s, txs, n), source, target, {role})
    decreases n
  {
    hide Apply, Offered;
    var u, tx := After(s, txs, n - 1), txs[n - 1];
    if i < n - 1 { OfferStays(s, txs, i, n - 1, role, source, target); }
    if Works(s, txs, n - 1) {
      ProposalStep(u, tx.now, tx.caller, tx.call, source, target, {role});
      assert i < n - 1 ==> !Accepts(tx, MINTER, source, target) && !Proposes(tx, MINTER, source, target);
      assert i < n - 1 ==> !Accepts(tx, OPERATOR, source, target) && !Proposes(tx, OPERATOR, source, target);
    }
  }

  /** And such an offer can be accepted as long as the account has the role, whatever else happened. */
  lemma {:induction false} OfferCanBeAccepted(s: TmState, txs: seq<Tx>, i: nat, n: nat, role: Role, source: Address, target: Address)
    requires i < n < |txs| && OpenOffer(s, txs, i, n, role, source, target)
    requires Accepts(txs[n], role, source, target) && Has(After(s, txs, n), source, role)
    ensures Works(s, txs, n)
  {
    hide Apply, After;
    OfferStays(s, txs, i, n, role, source, target);
    CallsExactly(After(s, txs, n), txs[n].now, txs[n].caller, txs[n].call);
  }
}
