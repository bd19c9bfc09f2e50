/** Role bits per account and two-step role transfers. */
module Roles {
  import opened ByteStrings
  import opened Keccak

  datatype Role = MINTER | OPERATOR | FLOW_LIMITER

  /** An absent account has no roles; an absent proposal is an empty slot. */
  datatype Accounts = Accounts(roles: map<Address, set<Role>>, proposed: map<(Address, Address), set<Role>>)

  function RolesOf(a: Accounts, who: Address): set<Role> {
    if who in a.roles then a.roles[who] else {}
  }

  function AddRole(a: Accounts, who: Address, roles: set<Role>): Accounts {
    a.(roles := a.roles[who := RolesOf(a, who) + roles])
  }

  function RemoveRole(a: Accounts, who: Address, roles: set<Role>): Accounts {
    a.(roles := a.roles[who := RolesOf(a, who) - roles])
  }

  function TransferRole(a: Accounts, source: Address, target: Address, roles: set<Role>): Option<Accounts> {
    if roles <= RolesOf(a, source) then Some(AddRole(RemoveRole(a, source, roles), target, roles)) else None
  }

  function ProposeRole(a: Accounts, source: Address, target: Address, roles: set<Role>): Option<Accounts> {
    if roles <= RolesOf(a, source) then Some(a.(proposed := a.proposed[(source, target) := roles])) else None
  }

  function AcceptRole(a: Accounts, source: Address, target: Address, roles: set<Role>): Option<Accounts> {
    if (source, target) in a.proposed && a.proposed[(source, target)] == roles
    then TransferRole(a.(proposed := a.proposed - {(source, target)}), source, target, roles)
    else None
  }

  /** What a transfer of one role does to who has which role. */
  lemma TransferMeans(a: Accounts, source: Address, target: Address, role: Role, who: Address, any: Role)
    requires TransferRole(a, source, target, {role}).Some?
    ensures any in RolesOf(TransferRole(a, source, target, {role}).value, who) <==>
      (if any != role then any in RolesOf(a, who) else who == target || (role in RolesOf(a, who) && who != source))
  {
  }
}

module TokenManagerSpec {
  import opened ByteStrings
  import opened ChainTypes
  import opened Keccak
  import opened TokenManagerTypes
  import opened FlowLimit
  import opened Roles

  const ISSUE_COST: nat := 50000000000000000

  /** `locked`: tokens the manager holds. `supply`: what it minted minus what it burned. `holders`: the managed token's
      balances everywhere else; that part of the ledger belongs to the chain, and it is kept here with the rest.
      `issuing`: issue calls whose callback has not arrived. */
  datatype TmState = TmState(
    service: Address,
    kind: TokenManagerType,
    identifier: Option<TokenIdentifier>,
    minter: Option<Address>,
    accounts: Accounts,
    flow: Flow,
    locked: nat,
    supply: int,
    holders: map<Address, nat>,
    issuing: nat)

  function Init(service: Address, kind: TokenManagerType, operator: Option<Address>, identifier: Option<TokenIdentifier>)
    : Option<TmState>
  {
    var operatorOrZero := if operator.None? then ZERO_ADDRESS else operator.value;
    var accounts := AddRole(AddRole(Accounts(map[], map[]), operatorOrZero, {FLOW_LIMITER, OPERATOR}),
                            service, {FLOW_LIMITER, OPERATOR});
    var identifierOk := match kind
      case NativeInterchainToken => identifier.None?
      case LockUnlock => identifier.Some?
      case LockUnlockFee => identifier.Some?
      case MintBurn => identifier.Some? && identifier.value.Esdt?
      case MintBurnFrom => identifier.Some? && identifier.value.Esdt?;
    if service == ZERO_ADDRESS || !identifierOk then None
    else Some(TmState(service, kind, identifier, None, accounts, Flow(None, map[], map[]), 0, 0, map[], 0))
  }

  /** `named`: name and symbol are not empty. `issued`: the identifier the system contract returned, if any.
      The last two are not endpoints: a holder sends tokens, and a token that others issue gets new units. */
  datatype Call =
    | AddFlowLimiter(limiter: Address)
    | RemoveFlowLimiter(limiter: Address)
    | TransferFlowLimiter(from: Address, to: Address)
    | SetFlowLimit(limit: Option<nat>)
    | GiveToken(destination: Address, amount: nat)
    | TakeToken(token: TokenIdentifier, amount: nat)
    | DonateTokens(token: TokenIdentifier, amount: nat)
    | DeployInterchainToken(firstMinter: Option<Address>, named: bool, egld: nat)
    | IssueCallback(issued: Option<bytes>)
    | Mint(destination: Address, amount: nat)
    | Burn(token: TokenIdentifier, amount: nat)
    | TransferMintership(newMinter: Address)
    | ProposeMintership(newMinter: Address)
    | AcceptMintership(fromMinter: Address)
    | TransferOperatorship(operator: Address)
    | ProposeOperatorship(operator: Address)
    | AcceptOperatorship(fromOperator: Address)
    | SendTokens(destination: Address, amount: nat)
    | IssueElsewhere(destination: Address, amount: nat)

  predicate Has(s: TmState, who: Address, role: Role) { role in RolesOf(s.accounts, who) }

  function WithAccounts(s: TmState, accounts: Option<Accounts>): Option<TmState> {
    match accounts
    case None => None
    case Some(a) => Some(s.(accounts := a))
  }

  function Balance(holders: map<Address, nat>, who: Address): nat { if who in holders then holders[who] else 0 }

  function Credit(holders: map<Address, nat>, who: Address, amount: nat): map<Address, nat> {
    holders[who := Balance(holders, who) + amount]
  }

  function Debit(holders: map<Address, nat>, who: Address, amount: nat): Option<map<Address, nat>> {
    if amount <= Balance(holders, who) then Some(holders[who := Balance(holders, who) - amount]) else None
  }

  function Sent(s: TmState, sender: Address, destination: Address, amount: nat): Option<TmState> {
    match Debit(s.holders, sender, amount)
    case None => None
    case Some(holders) => Some(s.(holders := Credit(holders, destination, amount)))
  }

  function Give(s: TmState, now: nat, caller: Address, destination: Address, amount: nat): Option<TmState> {
    if caller != s.service then None
    else
      match AddFlowIn(s.flow, now, amount)
      case None => None
      case Some(flow) =>
        if s.kind.Mints() then
          (if s.identifier.Some? && s.identifier.value.Esdt?
           then Some(s.(flow := flow, supply := s.supply + amount, holders := Credit(s.holders, destination, amount)))
           else None)
        else if amount <= s.locked
        then Some(s.(flow := flow, locked := s.locked - amount, holders := Credit(s.holders, destination, amount)))
        else None
  }

  function Take(s: TmState, now: nat, caller: Address, token: TokenIdentifier, amount: nat): Option<TmState> {
    if caller != s.service || s.identifier != Some(token) || Debit(s.holders, caller, amount).None? then None
    else
      var holders := Debit(s.holders, caller, amount).value;
      match AddFlowOut(s.flow, now, amount)
      case None => None
      case Some(flow) =>
        if s.kind.Mints() then
          (if token.Esdt? then Some(s.(flow := flow, supply := s.supply - amount, holders := holders)) else None)
        else Some(s.(flow := flow, locked := s.locked + amount, holders := holders))
  }

  function Deploy(s: TmState, caller: Address, newMinter: Option<Address>, named: bool, egld: nat): Option<TmState> {
    if !s.kind.NativeInterchainToken? || s.identifier.Some? || (caller != s.service && !Has(s, caller, MINTER))
       || !named || egld != ISSUE_COST then None
    else
      var first := if newMinter.Some? then newMinter.value else ZERO_ADDRESS;
      var s1 := if s.minter.Some? then s
                else s.(minter := Some(first), accounts := AddRole(s.accounts, first, {MINTER}));
      Some(s1.(issuing := s.issuing + 1))
  }

  function Apply(s: TmState, now: nat, caller: Address, call: Call): Option<TmState> {
    match call
    case AddFlowLimiter(limiter) =>
      if Has(s, caller, OPERATOR) then Some(s.(accounts := AddRole(s.accounts, limiter, {FLOW_LIMITER}))) else None
    case RemoveFlowLimiter(limiter) =>
      if Has(s, caller, OPERATOR) then Some(s.(accounts := RemoveRole(s.accounts, limiter, {FLOW_LIMITER}))) else None
    case TransferFlowLimiter(from, to) =>
      if Has(s, caller, OPERATOR) then WithAccounts(s, TransferRole(s.accounts, from, to, {FLOW_LIMITER})) else None
    case SetFlowLimit(limit) =>
      if Has(s, caller, FLOW_LIMITER) then Some(s.(flow := s.flow.(limit := limit))) else None
    case GiveToken(destination, amount) => Give(s, now, caller, destination, amount)
    case TakeToken(token, amount) => Take(s, now, caller, token, amount)
    case DonateTokens(token, amount) =>
      if s.kind.LockUnlock? && s.identifier == Some(token) && Debit(s.holders, caller, amount).Some?
      then Some(s.(locked := s.locked + amount, holders := Debit(s.holders, caller, amount).value)) else None
    case DeployInterchainToken(newMinter, named, egld) => Deploy(s, caller, newMinter, named, egld)
    case IssueCallback(issued) =>
      if s.issuing == 0 then None
      else if issued.Some? && s.identifier.None? then Some(s.(identifier := Some(Esdt(issued.value)), issuing := s.issuing - 1))
      else Some(s.(issuing := s.issuing - 1))
    case Mint(destination, amount) =>
      if s.kind.NativeInterchainToken? && Has(s, caller, MINTER) && s.identifier.Some? && s.identifier.value.Esdt?
      then Some(s.(supply := s.supply + amount, holders := Credit(s.holders, destination, amount))) else None
    case Burn(token, amount) =>
      if s.kind.NativeInterchainToken? && Has(s, caller, MINTER) && s.identifier == Some(token) && token.Esdt?
         && Debit(s.holders, caller, amount).Some?
      then Some(s.(supply := s.supply - amount, holders := Debit(s.holders, caller, amount).value)) else None
    case TransferMintership(newMinter) =>
      if Has(s, caller, MINTER)
      then WithAccounts(s.(minter := Some(newMinter)), TransferRole(s.accounts, caller, newMinter, {MINTER})) else None
    case ProposeMintership(newMinter) =>
      if Has(s, caller, MINTER) then WithAccounts(s, ProposeRole(s.accounts, caller, newMinter, {MINTER})) else None
    case AcceptMintership(fromMinter) =>
      WithAccounts(s.(minter := Some(caller)), AcceptRole(s.accounts, fromMinter, caller, {MINTER}))
    case TransferOperatorship(operator) =>
      if Has(s, caller, OPERATOR) then WithAccounts(s, TransferRole(s.accounts, caller, operator, {OPERATOR})) else None
    case ProposeOperatorship(operator) =>
      if Has(s, caller, OPERATOR) then WithAccounts(s, ProposeRole(s.accounts, caller, operator, {OPERATOR})) else None
    case AcceptOperatorship(fromOperator) =>
      WithAccounts(s, AcceptRole(s.accounts, fromOperator, caller, {OPERATOR}))
    case SendTokens(destination, amount) => Sent(s, caller, destination, amount)
    case IssueElsewhere(destination, amount) =>
      if s.kind.NativeInterchainToken? then None else Some(s.(holders := Credit(s.holders, destination, amount)))
  }

  /** A call that fails leaves the state alone. */
  function Step(s: TmState, now: nat, caller: Address, call: Call): TmState {
    match Apply(s, now, caller, call)
    case None => s
    case Some(t) => t
  }
}

module TokenManagerContract {
  import opened ByteStrings
  import opened ChainTypes
  import opened Keccak
  import opened TokenManagerTypes
  import opened FlowLimit
  import opened Roles
  import opened TokenManagerSpec

  class TokenManager {
    const service: Address
    const kind: TokenManagerType
    var identifier: Option<TokenIdentifier>
    var minter: Option<Address>
    var accountRoles: map<Address, set<Role>>
    var proposedRoles: map<(Address, Address), set<Role>>
    var flowLimit: Option<nat>
    var flowIn: map<nat, nat>
    var flowOut: map<nat, nat>
    var locked: nat
    var supply: int
    var holders: map<Address, nat>
    var issuing: nat

    function AccountState(): Accounts
      reads this
    {
      Accounts(accountRoles, proposedRoles)
    }

    function Storage(): TmState
      reads this
    {
      TmState(service, kind, identifier, minter, AccountState(), Flow(flowLimit, flowIn, flowOut), locked, supply,
              holders, issuing)
    }

    constructor (service: Address, kind: TokenManagerType, operator: Option<Address>, identifier: Option<TokenIdentifier>)
      requires Init(service, kind, operator, identifier).Some?
      ensures Init(service, kind, operator, identifier) == Some(Storage())
      ensures this.service == service && this.kind == kind
    {
      this.service, this.kind, this.identifier := service, kind, identifier;
      minter, flowLimit, flowIn, flowOut := None, None, map[], map[];
      accountRoles, proposedRoles := map[], map[];
      locked, supply, holders, issuing := 0, 0, map[], 0;
      new;
      AddRoleTo(if operator.None? then ZERO_ADDRESS else operator.value, {FLOW_LIMITER, OPERATOR});
      AddRoleTo(service, {FLOW_LIMITER, OPERATOR});
    }

    // ---------- roles ----------

    method AddRoleTo(who: Address, roles: set<Role>)
      modifies this`accountRoles
      ensures AccountState() == AddRole(old(AccountState()), who, roles)
    {
      accountRoles := accountRoles[who := (if who in accountRoles then accountRoles[who] else {}) + roles];
    }

    method RemoveRoleFrom(who: Address, roles: set<Role>)
      modifies this`accountRoles
      ensures AccountState() == RemoveRole(old(AccountState()), who, roles)
    {
      accountRoles := accountRoles[who := (if who in accountRoles then accountRoles[who] else {}) - roles];
    }

    method MoveRole(source: Address, target: Address, roles: set<Role>) returns (ok: bool)
      modifies this`accountRoles
      ensures ok <==> TransferRole(old(AccountState()), source, target, roles).Some?
      ensures ok ==> TransferRole(old(AccountState()), source, target, roles) == Some(AccountState())
      ensures !ok ==> AccountState() == old(AccountState())
    {
      if !(roles <= RolesOf(AccountState(), source)) { return false; }
      RemoveRoleFrom(source, roles);
      AddRoleTo(target, roles);
      return true;
    }

    method OfferRole(source: Address, target: Address, roles: set<Role>) returns (ok: bool)
      modifies this`proposedRoles
      ensures ok <==> ProposeRole(old(AccountState()), source, target, roles).Some?
      ensures ok ==> ProposeRole(old(AccountState()), source, target, roles) == Some(AccountState())
      ensures !ok ==> AccountState() == old(AccountState())
    {
      if !(roles <= RolesOf(AccountState(), source)) { return false; }
      proposedRoles := proposedRoles[(source, target) := roles];
      return true;
    }

    /** May leave the proposal cleared when it fails; the endpoint then restores it. */
    method TakeOfferedRole(source: Address, target: Address, roles: set<Role>) returns (ok: bool)
      modifies this`accountRoles, this`proposedRoles
      ensures ok <==> AcceptRole(old(AccountState()), source, target, roles).Some?
      ensures ok ==> AcceptRole(old(AccountState()), source, target, roles) == Some(AccountState())
    {
      if (source, target) !in proposedRoles || proposedRoles[(source, target)] != roles { return false; }
      proposedRoles := proposedRoles - {(source, target)};
      ok := MoveRole(source, target, roles);
    }

    method TransferMintershipTo(caller: Address, newMinter: Address) returns (ok: bool)
      modifies this
      ensures Storage() == Step(old(Storage()), 0, caller, TransferMintership(newMinter))
      ensures ok <==> Apply(old(Storage()), 0, caller, TransferMintership(newMinter)).Some?
    {
      if !Has(Storage(), caller, MINTER) { return false; }
      minter := Some(newMinter);
      ok := MoveRole(caller, newMinter, {MINTER});
    }

    method AcceptMintershipFrom(caller: Address, fromMinter: Address) returns (ok: bool)
      modifies this
      ensures Storage() == Step(old(Storage()), 0, caller, AcceptMintership(fromMinter))
      ensures ok <==> Apply(old(Storage()), 0, caller, AcceptMintership(fromMinter)).Some?
    {
      var pre := Storage();
      minter := Some(caller);
      ok := TakeOfferedRole(fromMinter, caller, {MINTER});
      if !ok {
        minter, accountRoles, proposedRoles := pre.minter, pre.accounts.roles, pre.accounts.proposed;
      }
    }

    method AcceptOperatorshipFrom(caller: Address, fromOperator: Address) returns (ok: bool)
      modifies this
      ensures Storage() == Step(old(Storage()), 0, caller, AcceptOperatorship(fromOperator))
      ensures ok <==> Apply(old(Storage()), 0, caller, AcceptOperatorship(fromOperator)).Some?
    {
      var pre := AccountState();
      ok := TakeOfferedRole(fromOperator, caller, {OPERATOR});
      if !ok {
        accountRoles, proposedRoles := pre.roles, pre.proposed;
      }
    }

    method AddFlowLimiterBy(caller: Address, limiter: Address) returns (ok: bool)
      modifies this
      ensures Storage() == Step(old(Storage()), 0, caller, AddFlowLimiter(limiter))
      ensures ok <==> Apply(old(Storage()), 0, caller, AddFlowLimiter(limiter)).Some?
    {
      if !Has(Storage(), caller, OPERATOR) { return false; }
      AddRoleTo(limiter, {FLOW_LIMITER});
      return true;
    }

    method RemoveFlowLimiterBy(caller: Address, limiter: Address) returns (ok: bool)
      modifies this
      ensures Storage() == Step(old(Storage()), 0, caller, RemoveFlowLimiter(limiter))
      ensures ok <==> Apply(old(Storage()), 0, caller, RemoveFlowLimiter(limiter)).Some?
    {
      if !Has(Storage(), caller, OPERATOR) { return false; }
      RemoveRoleFrom(limiter, {FLOW_LIMITER});
      return true;
    }

    method TransferOperatorshipTo(caller: Address, operator: Address) returns (ok: bool)
      modifies this
      ensures Storage() == Step(old(Storage()), 0, caller, TransferOperatorship(operator))
      ensures ok <==> Apply(old(Storage()), 0, caller, TransferOperatorship(operator)).Some?
    {
      if !Has(Storage(), caller, OPERATOR) { return false; }
      ok := MoveRole(caller, operator, {OPERATOR});
    }

    method TransferFlowLimiterBy(caller: Address, source: Address, target: Address) returns (ok: bool)
      modifies this
      ensures Storage() == Step(old(Storage()), 0, caller, TransferFlowLimiter(source, target))
      ensures ok <==> Apply(old(Storage()), 0, caller, TransferFlowLimiter(source, target)).Some?
    {
      if !Has(Storage(), caller, OPERATOR) { return false; }
      ok := MoveRole(source, target, {FLOW_LIMITER});
    }

    method ProposeMintershipTo(caller: Address, newMinter: Address) returns (ok: bool)
      modifies this
      ensures Storage() == Step(old(Storage()), 0, caller, ProposeMintership(newMinter))
      ensures ok <==> Apply(old(Storage()), 0, caller, ProposeMintership(newMinter)).Some?
    {
      if !Has(Storage(), caller, MINTER) { return false; }
      ok := OfferRole(caller, newMinter, {MINTER});
    }

    method ProposeOperatorshipTo(caller: Address, operator: Address) returns (ok: bool)
      modifies this
      ensures Storage() == Step(old(Storage()), 0, caller, ProposeOperatorship(operator))
      ensures ok <==> Apply(old(Storage()), 0, caller, ProposeOperatorship(operator)).Some?
    {
      if !Has(Storage(), caller, OPERATOR) { return false; }
      ok := OfferRole(caller, operator, {OPERATOR});
    }

    method SetFlowLimitTo(caller: Address, limit: Option<nat>) returns (ok: bool)
      modifies this
      ensures Storage() == Step(old(Storage()), 0, caller, SetFlowLimit(limit))
      ensures ok <==> Apply(old(Storage()), 0, caller, SetFlowLimit(limit)).Some?
    {
      if !Has(Storage(), caller, FLOW_LIMITER) { return false; }
      flowLimit := limit;
      return true;
    }

    /** A transaction that fails after this manager was called puts it back. */
    method Restore(s: TmState)
      requires s.service == service && s.kind == kind
      modifies this
      ensures Storage() == s
    {
      identifier, minter, accountRoles, proposedRoles := s.identifier, s.minter, s.accounts.roles, s.accounts.proposed;
      flowLimit, flowIn, flowOut := s.flow.limit, s.flow.inflow, s.flow.outflow;
      locked, supply, holders, issuing := s.locked, s.supply, s.holders, s.issuing;
    }

    // ---------- flow ----------

    method AddFlowInRaw(now: nat, amount: nat) returns (ok: bool)
      modifies this`flowIn
      ensures ok <==> AddFlowIn(old(Storage()).flow, now, amount).Some?
      ensures ok ==> AddFlowIn(old(Storage()).flow, now, amount) == Some(Storage().flow)
      ensures !ok ==> flowIn == old(flowIn)
    {
      if flowLimit.None? { return true; }
      var epoch := now / EPOCH_TIME;
      var total := AddFlow(flowLimit.value, Slot(flowIn, epoch), Slot(flowOut, epoch), amount);
      if total.None? { return false; }
      flowIn := flowIn[epoch := total.value];
      return true;
    }

    method AddFlowOutRaw(now: nat, amount: nat) returns (ok: bool)
      modifies this`flowOut
      ensures ok <==> AddFlowOut(old(Storage()).flow, now, amount).Some?
      ensures ok ==> AddFlowOut(old(Storage()).flow, now, amount) == Some(Storage().flow)
      ensures !ok ==> flowOut == old(flowOut)
    {
      if flowLimit.None? { return true; }
      var epoch := now / EPOCH_TIME;
      var total := AddFlow(flowLimit.value, Slot(flowOut, epoch), Slot(flowIn, epoch), amount);
      if total.None? { return false; }
      flowOut := flowOut[epoch := total.value];
      return true;
    }

    // ---------- tokens ----------

    /** The flow is recorded first; when paying out then fails, it is taken back. */
    method GiveTokenTo(now: nat, caller: Address, destination: Address, amount: nat) returns (ok: bool)
      modifies this
      ensures Storage() == Step(old(Storage()), now, caller, GiveToken(destination, amount))
      ensures ok <==> Apply(old(Storage()), now, caller, GiveToken(destination, amount)).Some?
    {
      if caller != service { return false; }
      var before := flowIn;
      ok := AddFlowInRaw(now, amount);
      if !ok { return; }
      if kind.Mints() {
        ok := identifier.Some? && identifier.value.Esdt?;
        if ok { supply := supply + amount; }
      } else {
        ok := amount <= locked;
        if ok { locked := locked - amount; }
      }
      if ok { holders := Credit(holders, destination, amount); } else { flowIn := before; }
    }

    /** A holder sends tokens; a call that carries a payment begins with it. */
    method SendFrom(sender: Address, destination: Address, amount: nat) returns (ok: bool)
      modifies this`holders
      ensures Storage() == Step(old(Storage()), 0, sender, SendTokens(destination, amount))
      ensures ok <==> Sent(old(Storage()), sender, destination, amount).Some?
    {
      var rest := Debit(holders, sender, amount);
      if rest.None? { return false; }
      holders := Credit(rest.value, destination, amount);
      return true;
    }

    /** The payment is the caller's, the identifier is checked, then the flow. */
    method TakeTokenFrom(now: nat, caller: Address, token: TokenIdentifier, amount: nat) returns (ok: bool)
      modifies this
      ensures Storage() == Step(old(Storage()), now, caller, TakeToken(token, amount))
      ensures ok <==> Apply(old(Storage()), now, caller, TakeToken(token, amount)).Some?
    {
      var paid := Debit(holders, caller, amount);
      if caller != service || identifier != Some(token) || paid.None? { return false; }
      var before := flowOut;
      ok := AddFlowOutRaw(now, amount);
      if !ok { return; }
      if kind.Mints() {
        ok := token.Esdt?;
        if ok { supply := supply - amount; } else { flowOut := before; }
      } else {
        locked := locked + amount;
      }
      if ok { holders := paid.value; }
    }

    method Donate(caller: Address, token: TokenIdentifier, amount: nat) returns (ok: bool)
      modifies this
      ensures Storage() == Step(old(Storage()), 0, caller, DonateTokens(token, amount))
      ensures ok <==> Apply(old(Storage()), 0, caller, DonateTokens(token, amount)).Some?
    {
      var paid := Debit(holders, caller, amount);
      if !kind.LockUnlock? || identifier != Some(token) || paid.None? { return false; }
      locked, holders := locked + amount, paid.value;
      return true;
    }

    method BurnFrom(caller: Address, token: TokenIdentifier, amount: nat) returns (ok: bool)
      modifies this
      ensures Storage() == Step(old(Storage()), 0, caller, Burn(token, amount))
      ensures ok <==> Apply(old(Storage()), 0, caller, Burn(token, amount)).Some?
    {
      var paid := Debit(holders, caller, amount);
      if !kind.NativeInterchainToken? || !Has(Storage(), caller, MINTER) { return false; }
      if identifier != Some(token) || token.Egld? || paid.None? { return false; }
      supply, holders := supply - amount, paid.value;
      return true;
    }

    method MintTo(caller: Address, destination: Address, amount: nat) returns (ok: bool)
      modifies this
      ensures Storage() == Step(old(Storage()), 0, caller, Mint(destination, amount))
      ensures ok <==> Apply(old(Storage()), 0, caller, Mint(destination, amount)).Some?
    {
      if !kind.NativeInterchainToken? || !Has(Storage(), caller, MINTER) { return false; }
      if identifier.None? || identifier.value.Egld? { return false; }
      supply, holders := supply + amount, Credit(holders, destination, amount);
      return true;
    }

    method DeployToken(caller: Address, newMinter: Option<Address>, named: bool, egld: nat) returns (ok: bool)
      modifies this
      ensures Storage() == Step(old(Storage()), 0, caller, DeployInterchainToken(newMinter, named, egld))
      ensures ok <==> Apply(old(Storage()), 0, caller, DeployInterchainToken(newMinter, named, egld)).Some?
    {
      if !kind.NativeInterchainToken? || identifier.Some? { return false; }
      if caller != service && !Has(Storage(), caller, MINTER) { return false; }
      if !named || egld != ISSUE_COST { return false; }
      if minter.None? {
        var first := if newMinter.Some? then newMinter.value else ZERO_ADDRESS;
        minter := Some(first);
        AddRoleTo(first, {MINTER});
      }
      issuing := issuing + 1;
      return true;
    }

    /** `returned`: the issue cost that came back with a failure; the user who paid it gets it. */
    method DeployTokenCallback(user: Address, issued: Option<bytes>, returned: nat) returns (refund: Option<(Address, nat)>)
      requires issuing > 0
      modifies this
      ensures Storage() == Step(old(Storage()), 0, ZERO_ADDRESS, IssueCallback(issued))
      ensures refund == if issued.None? then Some((user, returned)) else None
    {
      issuing := issuing - 1;
      if issued.None? { return Some((user, returned)); }
      if identifier.None? {
        identifier := Some(Esdt(issued.value));
      }
      return None;
    }
  }
}

/** Who may mint and who operates, in every reachable state of a token manager. */
module TokenManagerRuns {
  import opened ByteStrings
  import opened ChainTypes
  import opened Keccak
  import opened TokenManagerTypes
  import opened FlowLimit
  import opened Roles
  import opened TokenManagerSpec
  import Sums

  datatype Tx = Tx(now: nat, caller: Address, call: Call)

  function After(s: TmState, txs: seq<Tx>, n: nat): TmState
    requires n <= |txs|
  {
    if n == 0 then s else Step(After(s, txs, n - 1), txs[n - 1].now, txs[n - 1].caller, txs[n - 1].call)
  }

  /** The stored minter address is the one and only holder of the minter role. */
  ghost predicate SingleMinter(s: TmState) {
    forall who :: Has(s, who, MINTER) <==> s.minter == Some(who)
  }

  function Operators(s: TmState): set<Address> {
    set who | who in s.accounts.roles && OPERATOR in s.accounts.roles[who]
  }

  predicate FewOperators(s: TmState) { 1 <= |Operators(s)| <= 2 }

  /** Moving tokens touches no role and no minter. */
  lemma RolesUntouched(s: TmState, now: nat, caller: Address, call: Call)
    requires call.GiveToken? || call.TakeToken? || call.SendTokens?
    ensures Step(s, now, caller, call).accounts == s.accounts && Step(s, now, caller, call).minter == s.minter
  {
    hide AddFlowIn, AddFlowOut, Debit, Credit;
  }

  lemma StepKeepsSingleMinter(s: TmState, now: nat, caller: Address, call: Call)
    requires SingleMinter(s)
    ensures SingleMinter(Step(s, now, caller, call))
  {
    hide AddFlowIn, AddFlowOut, Give, Take, Debit, Credit, Sent;
    if call.GiveToken? || call.TakeToken? || call.SendTokens? { RolesUntouched(s, now, caller, call); }
    var t := Step(s, now, caller, call);
    forall who ensures Has(t, who, MINTER) <==> t.minter == Some(who) {
      assert Has(s, who, MINTER) <==> s.minter == Some(who);
      assert Has(s, caller, MINTER) <==> s.minter == Some(caller);
      if call.AcceptMintership? {
        assert Has(s, call.fromMinter, MINTER) <==> s.minter == Some(call.fromMinter);
      }
    }
  }

  lemma OperatorsUnchanged(s: TmState, t: TmState)
    requires forall who :: Has(t, who, OPERATOR) <==> Has(s, who, OPERATOR)
    ensures Operators(t) == Operators(s)
  {
    forall who ensures who in Operators(t) <==> who in Operators(s) {
      assert Has(t, who, OPERATOR) <==> Has(s, who, OPERATOR);
    }
  }

  lemma OperatorMoved(s: TmState, t: TmState, source: Address, target: Address)
    requires FewOperators(s) && Has(s, source, OPERATOR)
    requires forall who :: Has(t, who, OPERATOR) <==> who == target || (Has(s, who, OPERATOR) && who != source)
    ensures FewOperators(t)
  {
    assert Operators(t) == Operators(s) - {source} + {target} by {
      forall who ensures who in Operators(t) <==> who in Operators(s) - {source} + {target} {
        assert Has(t, who, OPERATOR) <==> who == target || (Has(s, who, OPERATOR) && who != source);
      }
    }
    assert source in Operators(s);
    assert |Operators(s) - {source}| == |Operators(s)| - 1;
    assert target in Operators(t);
  }

  lemma TransferKeepsOperators(s: TmState, t: TmState, source: Address, target: Address)
    requires FewOperators(s) && TransferRole(s.accounts, source, target, {OPERATOR}) == Some(t.accounts)
    ensures FewOperators(t)
  {
    forall who ensures Has(t, who, OPERATOR) <==> who == target || (Has(s, who, OPERATOR) && who != source) {
      TransferMeans(s.accounts, source, target, OPERATOR, who, OPERATOR);
    }
    OperatorMoved(s, t, source, target);
  }

  lemma OtherCallsKeepOperators(s: TmState, now: nat, caller: Address, call: Call, who: Address)
    requires !call.TransferOperatorship? && !call.AcceptOperatorship?
    ensures Has(Step(s, now, caller, call), who, OPERATOR) <==> Has(s, who, OPERATOR)
  {
    hide AddFlowIn, AddFlowOut, Give, Take, Debit, Credit, Sent;
    if call.GiveToken? || call.TakeToken? || call.SendTokens? { RolesUntouched(s, now, caller, call); }
  }

  lemma OperatorCalls(s: TmState, now: nat, caller: Address, call: Call)
    requires FewOperators(s) && (call.TransferOperatorship? || call.AcceptOperatorship?)
    ensures FewOperators(Step(s, now, caller, call))
  {
    hide FewOperators, Operators, TransferRole;
    var t := Step(s, now, caller, call);
    if t == s {
    } else if call.TransferOperatorship? {
      TransferKeepsOperators(s, t, caller, call.operator);
    } else {
      var u := s.(accounts := s.accounts.(proposed := s.accounts.proposed - {(call.fromOperator, caller)}));
      SameOperators(s, u);
      TransferKeepsOperators(u, t, call.fromOperator, caller);
    }
  }

  lemma StepKeepsFewOperators(s: TmState, now: nat, caller: Address, call: Call)
    requires FewOperators(s)
    ensures FewOperators(Step(s, now, caller, call))
  {
    hide *;
    if call.TransferOperatorship? || call.AcceptOperatorship? {
      OperatorCalls(s, now, caller, call);
    } else {
      forall who { OtherCallsKeepOperators(s, now, caller, call, who); }
      SameOperators(s, Step(s, now, caller, call));
    }
  }

  lemma SameOperators(s: TmState, t: TmState)
    requires FewOperators(s) && forall who :: Has(t, who, OPERATOR) <==> Has(s, who, OPERATOR)
    ensures FewOperators(t)
  {
    OperatorsUnchanged(s, t);
  }

  /** At most one minter, it is the stored address, and it exists exactly when the address is set: through failed
      issues, stale proposals, self-transfers and repeated acceptance. One or two operators, never none. */
  lemma {:induction false} MinterAndOperators(service: Address, kind: TokenManagerType, operator: Option<Address>,
                                              identifier: Option<TokenIdentifier>, txs: seq<Tx>, n: nat)
    requires Init(service, kind, operator, identifier).Some? && n <= |txs|
    ensures var s := After(Init(service, kind, operator, identifier).value, txs, n);
            SingleMinter(s) && FewOperators(s)
  {
    var s := Init(service, kind, operator, identifier).value;
    if n == 0 {
      var operatorOrZero := if operator.None? then ZERO_ADDRESS else operator.value;
      assert Operators(s) == {operatorOrZero, service};
    } else {
      MinterAndOperators(service, kind, operator, identifier, txs, n - 1);
      hide SingleMinter, FewOperators, Step, Init;
      var tx := txs[n - 1];
      StepKeepsSingleMinter(After(s, txs, n - 1), tx.now, tx.caller, tx.call);
      StepKeepsFewOperators(After(s, txs, n - 1), tx.now, tx.caller, tx.call);
    }
  }

  lemma StepKeepsIdentifier(s: TmState, now: nat, caller: Address, call: Call)
    ensures var t := Step(s, now, caller, call);
      && (s.identifier.Some? ==> t.identifier == s.identifier)
      && (s.minter.Some? ==> t.minter.Some?)
      && t.kind == s.kind && t.service == s.service
  {
    hide AddFlowIn, AddFlowOut, TransferRole, AcceptRole, ProposeRole;
  }

  /** The token identifier and the minter, once there, stay: the identifier for good, the minter until it hands over. */
  lemma {:induction false} IdentifierWrittenOnce(s: TmState, txs: seq<Tx>, n: nat)
    requires n <= |txs|
    ensures s.identifier.Some? ==> After(s, txs, n).identifier == s.identifier
    ensures s.minter.Some? ==> After(s, txs, n).minter.Some?
    ensures After(s, txs, n).kind == s.kind && After(s, txs, n).service == s.service
  {
    if n > 0 {
      hide Step;
      IdentifierWrittenOnce(s, txs, n - 1);
      StepKeepsIdentifier(After(s, txs, n - 1), txs[n - 1].now, txs[n - 1].caller, txs[n - 1].call);
    }
  }

  // ---------- tokens ----------

  function Amount(): nat -> int { (n: nat) => n }

  /** What all others hold of the token. */
  ghost function Held(s: TmState): int { Sums.OverMap<Address, nat>(Amount(), s.holders) }

  /** New units of a token that others issue. */
  function IssuedBy(s: TmState, now: nat, caller: Address, call: Call): nat {
    if call.IssueElsewhere? && Apply(s, now, caller, call).Some? then call.amount else 0
  }

  function IssuedElsewhere(s: TmState, txs: seq<Tx>, n: nat): nat
    requires n <= |txs|
    decreases n
  {
    if n == 0 then 0
    else IssuedElsewhere(s, txs, n - 1) + IssuedBy(After(s, txs, n - 1), txs[n - 1].now, txs[n - 1].caller, txs[n - 1].call)
  }

  lemma {:induction false} CreditHeld(holders: map<Address, nat>, who: Address, amount: nat)
    ensures Sums.OverMap<Address, nat>(Amount(), Credit(holders, who, amount)) == Sums.OverMap<Address, nat>(Amount(), holders) + amount
  {
    Sums.PutIn<Address, nat>(Amount(), holders, who, Balance(holders, who) + amount);
  }

  lemma {:induction false} DebitHeld(holders: map<Address, nat>, who: Address, amount: nat)
    requires Debit(holders, who, amount).Some?
    ensures Sums.OverMap<Address, nat>(Amount(), Debit(holders, who, amount).value) == Sums.OverMap<Address, nat>(Amount(), holders) - amount
  {
    Sums.PutIn<Address, nat>(Amount(), holders, who, Balance(holders, who) - amount);
  }

  lemma SentHeld(s: TmState, sender: Address, destination: Address, amount: nat)
    requires Sent(s, sender, destination, amount).Some?
    ensures Held(Sent(s, sender, destination, amount).value) == Held(s)
  {
    hide Debit, Credit, Sums.OverMap;
    DebitHeld(s.holders, sender, amount);
    CreditHeld(Debit(s.holders, sender, amount).value, destination, amount);
  }

  lemma StepTokens(s: TmState, now: nat, caller: Address, call: Call)
    ensures var t := Step(s, now, caller, call);
      Held(t) + t.locked - t.supply == Held(s) + s.locked - s.supply + IssuedBy(s, now, caller, call)
  {
    hide AddFlowIn, AddFlowOut, TransferRole, AcceptRole, ProposeRole, Debit, Credit, Sums.OverMap;
    if call.SendTokens? && Sent(s, caller, call.destination, call.amount).Some? {
      SentHeld(s, caller, call.destination, call.amount);
    } else if call.TakeToken? || call.DonateTokens? || call.Burn? {
      if Debit(s.holders, caller, call.amount).Some? { DebitHeld(s.holders, caller, call.amount); }
    } else if call.GiveToken? || call.Mint? || call.IssueElsewhere? {
      CreditHeld(s.holders, call.destination, call.amount);
    }
  }

  /** In every run what others hold and what the manager locks is what it minted net of burning, plus what was issued
      elsewhere: no call makes or destroys tokens besides. */
  lemma {:induction false} TokensConserved(service: Address, kind: TokenManagerType, operator: Option<Address>,
                                           identifier: Option<TokenIdentifier>, txs: seq<Tx>, n: nat)
    requires Init(service, kind, operator, identifier).Some? && n <= |txs|
    ensures var start := Init(service, kind, operator, identifier).value;
      var s := After(start, txs, n);
      Held(s) + s.locked == s.supply + IssuedElsewhere(start, txs, n)
    decreases n
  {
    hide Step, Init;
    var start := Init(service, kind, operator, identifier).value;
    if n == 0 {
      NothingHeld(service, kind, operator, identifier);
    } else {
      TokensConserved(service, kind, operator, identifier, txs, n - 1);
      StepTokens(After(start, txs, n - 1), txs[n - 1].now, txs[n - 1].caller, txs[n - 1].call);
    }
  }

  /** Of a native token others hold exactly what the manager put into circulation, so that is never negative. */
  lemma {:induction false} NativeSupplyIsHeld(service: Address, operator: Option<Address>, txs: seq<Tx>, n: nat)
    requires Init(service, NativeInterchainToken, operator, None).Some? && n <= |txs|
    ensures var s := After(Init(service, NativeInterchainToken, operator, None).value, txs, n);
      s.kind.NativeInterchainToken? && s.locked == 0 && s.supply == Held(s) && s.supply >= 0
    decreases n
  {
    hide Step, Init, Held;
    var start := Init(service, NativeInterchainToken, operator, None).value;
    if n == 0 {
      NothingHeld(service, NativeInterchainToken, operator, None);
      NativeFromStart(service, operator);
    } else {
      NativeSupplyIsHeld(service, operator, txs, n - 1);
      var s, tx := After(start, txs, n - 1), txs[n - 1];
      StepTokens(s, tx.now, tx.caller, tx.call);
      NativeStep(s, tx.now, tx.caller, tx.call);
    }
    HeldNonNegative(After(start, txs, n));
  }

  lemma NativeFromStart(service: Address, operator: Option<Address>)
    requires Init(service, NativeInterchainToken, operator, None).Some?
    ensures Init(service, NativeInterchainToken, operator, None).value.kind.NativeInterchainToken?
  {
  }

  lemma NativeStep(s: TmState, now: nat, caller: Address, call: Call)
    requires s.kind.NativeInterchainToken?
    ensures var t := Step(s, now, caller, call);
      t.kind == s.kind && t.locked == s.locked && IssuedBy(s, now, caller, call) == 0
  {
    hide AddFlowIn, AddFlowOut, TransferRole, AcceptRole, ProposeRole, Debit, Credit;
  }

  lemma HeldNonNegative(s: TmState)
    ensures Held(s) >= 0
  {
    Sums.OverMapNonNegative<Address, nat>(Amount(), s.holders);
  }

  lemma NothingHeld(service: Address, kind: TokenManagerType, operator: Option<Address>, identifier: Option<TokenIdentifier>)
    requires Init(service, kind, operator, identifier).Some?
    ensures var s := Init(service, kind, operator, identifier).value; Held(s) == 0 && s.locked == 0 && s.supply == 0
  {
  }
}
