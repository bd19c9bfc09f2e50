/** The token service's transfer path out of a chain and into a chain, over one token's manager and the gateway. */
module TokenServiceSpec {
  import opened ByteStrings
  import opened ChainTypes
  import opened Keccak
  import opened Preimages
  import opened Abi
  import opened Payloads
  import opened GatewaySpec
  import TM = TokenManagerSpec
  import FlowLimit

  /** "axelar" and "EGLD-000000" */
  const ITS_HUB_CHAIN_NAME: ManagedBuffer := [97, 120, 101, 108, 97, 114]
  const ESDT_EGLD_IDENTIFIER: bytes := [69, 71, 76, 68, 45, 48, 48, 48, 48, 48, 48]

  /** One chain's service, its gateway messages, and the manager of the token `tokenId`. */
  datatype Chain = Chain(
    name: bytes,
    service: Address,
    hubAddress: ManagedBuffer,
    tokenId: Word,
    trusted: set<bytes>,
    paused: bool,
    messages: map<CrossChainId, MessageState>,
    tm: TM.TmState)

  datatype TransferAndGas = TransferAndGas(token: TokenIdentifier, amount: nat, gas: nat)

  function GetTransferAndGasTokens(payments: Payments, gas: nat): Option<TransferAndGas> {
    match payments
    case EgldPayment(value) =>
      if value > gas then Some(TransferAndGas(Egld, value - gas, gas)) else None
    case EsdtPayments(list) =>
      if list == [] || |list| > 2 || list[0].nonce != 0 then None
      else if |list| == 1 then
        (if gas == 0 then Some(TransferAndGas(Esdt(list[0].identifier), list[0].amount, gas)) else None)
      else if list[1].nonce != 0 || list[1].amount != gas || list[1].identifier != ESDT_EGLD_IDENTIFIER then None
      else Some(TransferAndGas(Esdt(list[0].identifier), list[0].amount, gas))
  }

  /** The bytes handed to the gateway for the hub. Buffers of 4 GiB cannot be built. */
  function RouteMessage(c: Chain, destinationChain: bytes, command: Payload): Option<bytes> {
    if destinationChain == ITS_HUB_CHAIN_NAME || destinationChain !in c.trusted then None
    else
      match AbiEncode(command)
      case None => None
      case Some(inner) =>
        var outer := SendToHub(SEND_TO_HUB, destinationChain, inner);
        if Sendable(outer) then AbiEncode(outer) else None
  }

  /** The caller's payment reaches the service, and from there the manager. */
  function Taken(s: TM.TmState, now: nat, service: Address, caller: Address, split: TransferAndGas): Option<TM.TmState> {
    match TM.Sent(s, caller, service, split.amount)
    case None => None
    case Some(tm) => TM.Take(tm, now, service, split.token, split.amount)
  }

  /** The manager pays the destination; a transfer with data is paid to the service, which calls the destination with it. */
  function Given(s: TM.TmState, now: nat, service: Address, destination: Address, amount: nat, withData: bool)
    : Option<TM.TmState>
  {
    if !withData then TM.Give(s, now, service, destination, amount)
    else
      match TM.Give(s, now, service, service, amount)
      case None => None
      case Some(tm) => TM.Sent(tm, service, destination, amount)
  }

  /** The chain after an outgoing transfer, and the payload sent to the hub. */
  function InterchainTransferred(c: Chain, now: nat, caller: Address, destinationChain: bytes, destinationAddress: bytes,
                                 data: bytes, gas: nat, payments: Payments): Option<(Chain, bytes)>
  {
    match GetTransferAndGasTokens(payments, gas)
    case None => None
    case Some(split) =>
      match Taken(c.tm, now, c.service, caller, split)
      case None => None
      case Some(tm) =>
        if c.paused || destinationAddress == [] || split.amount == 0 then None
        else
          match RouteMessage(c, destinationChain,
                  InterchainTransfer(INTERCHAIN_TRANSFER, c.tokenId, caller, destinationAddress, split.amount, data))
          case None => None
          case Some(payload) => Some((c.(tm := tm), payload))
  }

  function ApprovalHash(c: Chain, id: CrossChainId, payload: bytes): Hash {
    MessageHash(id, c.hubAddress, c.service, Keccak256(Raw(payload)))
  }

  /** The transfer a message from the hub carries, if it is one. */
  function IncomingTransfer(trusted: set<bytes>, payload: bytes): (r: Option<Payload>)
    ensures r.Some? ==> r.value.InterchainTransfer?
  {
    match GetExecuteParams(trusted, payload)
    case None => None
    case Some(params) =>
      if params.0 != INTERCHAIN_TRANSFER then None
      else
        match AbiDecode(TransferKind, params.2)
        case None => None
        case Some(p) => if p.InterchainTransfer? then Some(p) else None
  }

  /** The chain after executing a transfer message. `delivered` is the outcome of what lies outside this model: the
      called contract when the transfer carries data, or the manager of another token. */
  function ExecutedTransfer(c: Chain, now: nat, sourceChain: ManagedBuffer, messageId: ManagedBuffer,
                            sourceAddress: ManagedBuffer, payload: bytes, egld: nat, delivered: bool): Option<Chain>
  {
    var id := CrossChainId(sourceChain, messageId);
    if c.paused || sourceChain != ITS_HUB_CHAIN_NAME || sourceAddress != c.hubAddress || egld != 0 then None
    else
      match IncomingTransfer(c.trusted, payload)
      case None => None
      case Some(p) =>
        if StateOf(c.messages, id) != Approved(ApprovalHash(c, id, payload)) || |p.destinationAddress| != 32 then None
        else
          var c1 := c.(messages := c.messages[id := MessageState.Executed]);
          if p.tokenId != c.tokenId then (if delivered then Some(c1) else None)
          else
            match Given(c.tm, now, c.service, p.destinationAddress, p.amount, p.data != [])
            case None => None
            case Some(tm) => if p.data != [] && !delivered then None else Some(c1.(tm := tm))
  }

  // ---------- who pays and who is paid ----------

  lemma GivenIsHeld(s: TM.TmState, now: nat, caller: Address, destination: Address, amount: nat)
    requires TM.Give(s, now, caller, destination, amount).Some?
    ensures TM.Balance(TM.Give(s, now, caller, destination, amount).value.holders, destination)
         == TM.Balance(s.holders, destination) + amount
    ensures forall who :: who != destination ==>
      TM.Balance(TM.Give(s, now, caller, destination, amount).value.holders, who) == TM.Balance(s.holders, who)
    ensures forall to :: TM.Sent(TM.Give(s, now, caller, destination, amount).value, destination, to, amount).Some?
  {
    hide FlowLimit.AddFlowIn;
  }

  /** An executed transfer of the token gives the destination exactly the amount, and nobody else anything. */
  lemma DestinationIsPaid(c: Chain, now: nat, sourceChain: ManagedBuffer, messageId: ManagedBuffer, sourceAddress: ManagedBuffer,
                          payload: bytes, egld: nat, delivered: bool, who: Address)
    requires ExecutedTransfer(c, now, sourceChain, messageId, sourceAddress, payload, egld, delivered).Some?
    ensures IncomingTransfer(c.trusted, payload).Some?
    ensures var p := IncomingTransfer(c.trusted, payload).value;
      var d := ExecutedTransfer(c, now, sourceChain, messageId, sourceAddress, payload, egld, delivered).value;
      TM.Balance(d.tm.holders, who)
      == TM.Balance(c.tm.holders, who) + if p.tokenId == c.tokenId && who == p.destinationAddress then p.amount else 0
  {
    hide IncomingTransfer, MessageHash, StateOf, TM.Give;
    var p := IncomingTransfer(c.trusted, payload).value;
    if p.tokenId == c.tokenId {
      var first := if p.data == [] then p.destinationAddress else c.service;
      GivenIsHeld(c.tm, now, c.service, first, p.amount);
      if p.data != [] {
        SentMoves(TM.Give(c.tm, now, c.service, c.service, p.amount).value, c.service, p.destinationAddress, p.amount, who);
      }
    }
  }

  lemma SentMoves(s: TM.TmState, sender: Address, destination: Address, amount: nat, who: Address)
    requires TM.Sent(s, sender, destination, amount).Some?
    ensures TM.Balance(TM.Sent(s, sender, destination, amount).value.holders, who)
         == TM.Balance(s.holders, who) - (if who == sender then amount else 0) + if who == destination then amount else 0
  {
  }

  // ---------- payment splitting ----------

  /** EGLD has two names. */
  function Canonical(token: TokenIdentifier): TokenIdentifier {
    if token == Esdt(ESDT_EGLD_IDENTIFIER) then Egld else token
  }

  function Attached(list: seq<EsdtPayment>, token: TokenIdentifier): nat {
    if list == [] then 0
    else (if Canonical(Esdt(list[0].identifier)) == token then list[0].amount else 0) + Attached(list[1..], token)
  }

  /** What the payments hold of a token. */
  function AmountAttached(payments: Payments, token: TokenIdentifier): nat {
    match payments
    case EgldPayment(value) => if token == Egld then value else 0
    case EsdtPayments(list) => Attached(list, token)
  }

  /** What a split holds of a token: the transferred part, and the gas, which is EGLD. */
  function AmountUsed(split: TransferAndGas, token: TokenIdentifier): nat {
    (if Canonical(split.token) == token then split.amount else 0) + (if token == Egld then split.gas else 0)
  }

  /** Everything attached is either transferred or paid as gas, token by token. */
  lemma SplitLosesNothing(payments: Payments, gas: nat, token: TokenIdentifier)
    requires GetTransferAndGasTokens(payments, gas).Some? && Canonical(token) == token
    ensures AmountUsed(GetTransferAndGasTokens(payments, gas).value, token) == AmountAttached(payments, token)
  {
    if payments.EsdtPayments? {
      var list := payments.list;
      assert Attached(list, token)
          == (if Canonical(Esdt(list[0].identifier)) == token then list[0].amount else 0) + Attached(list[1..], token);
      if |list| == 1 {
        assert list[1..] == [];
      } else {
        assert list[1..][1..] == [] && list[1..][0] == list[1];
        assert Attached(list[1..], token) == if Canonical(Esdt(list[1].identifier)) == token then list[1].amount else 0;
      }
    }
  }

  /** The token of the first payment is the one that is transferred. */
  function TokenSent(payments: Payments): TokenIdentifier {
    match payments
    case EgldPayment(_) => Egld
    case EsdtPayments(list) => if list == [] then Egld else Esdt(list[0].identifier)
  }

  /** What is attached of that token, less the gas when that is paid in the same token. */
  function AmountSent(payments: Payments, gas: nat): int {
    var token := Canonical(TokenSent(payments));
    AmountAttached(payments, token) - if token == Egld then gas else 0
  }

  /** EGLD must exceed the gas. Of ESDT payments, all fungible, the first is transferred; a second one must be EGLD and
      exactly the gas, and without one there is no gas. */
  predicate Splittable(payments: Payments, gas: nat) {
    match payments
    case EgldPayment(value) => value > gas
    case EsdtPayments(list) =>
      && 1 <= |list| <= 2 && (forall i :: 0 <= i < |list| ==> list[i].nonce == 0)
      && (if |list| == 2 then Canonical(Esdt(list[1].identifier)) == Egld && list[1].amount == gas else gas == 0)
  }

  /** The requested gas is paid as gas, and the rest of what is attached is transferred. */
  lemma SplitExactly(payments: Payments, gas: nat)
    ensures GetTransferAndGasTokens(payments, gas).Some? <==> Splittable(payments, gas)
    ensures Splittable(payments, gas) ==>
      var split := GetTransferAndGasTokens(payments, gas).value;
      split.token == TokenSent(payments) && split.amount == AmountSent(payments, gas) && split.gas == gas
  {
    if GetTransferAndGasTokens(payments, gas).Some? {
      SplitLosesNothing(payments, gas, Canonical(TokenSent(payments)));
    }
  }

  /** An outgoing transfer takes from the caller exactly what is attached of the token less the gas, and from nobody else
      anything. */
  lemma CallerPays(c: Chain, now: nat, caller: Address, destinationChain: bytes, destinationAddress: bytes, data: bytes,
                   gas: nat, payments: Payments, who: Address)
    requires InterchainTransferred(c, now, caller, destinationChain, destinationAddress, data, gas, payments).Some?
    ensures Splittable(payments, gas)
    ensures var d := InterchainTransferred(c, now, caller, destinationChain, destinationAddress, data, gas, payments).value.0;
      TM.Balance(d.tm.holders, who) == TM.Balance(c.tm.holders, who) - if who == caller then AmountSent(payments, gas) else 0
  {
    hide RouteMessage, FlowLimit.AddFlowOut, GetTransferAndGasTokens, Splittable, AmountSent, TokenSent;
    SplitExactly(payments, gas);
    var split := GetTransferAndGasTokens(payments, gas).value;
    SentMoves(c.tm, caller, c.service, split.amount, who);
  }
}

/** The service calling its token manager and the gateway; if a later step fails, the earlier calls are undone. */
module TokenServiceContract {
  import opened ByteStrings
  import opened ChainTypes
  import opened Keccak
  import opened Preimages
  import opened Abi
  import opened Payloads
  import opened GatewaySpec
  import opened GatewayContract
  import TM = TokenManagerSpec
  import opened TokenManagerContract
  import opened TokenServiceSpec

  class TokenService {
    const name: bytes
    const address: Address
    const hubAddress: ManagedBuffer
    const tokenId: Word
    const gateway: Gateway
    const manager: TokenManager
    var trusted: set<bytes>
    var paused: bool

    function View(): Chain
      reads this, gateway, manager
    {
      Chain(name, address, hubAddress, tokenId, trusted, paused, gateway.Storage().messages, manager.Storage())
    }

    ghost predicate Valid()
      reads this, gateway
    {
      gateway.Valid()
    }

    constructor (name: bytes, address: Address, hubAddress: ManagedBuffer, tokenId: Word, gateway: Gateway, manager: TokenManager)
      requires gateway.Valid()
      ensures Valid()
      ensures View() == Chain(name, address, hubAddress, tokenId, {}, false, gateway.Storage().messages, manager.Storage())
      ensures this.gateway == gateway && this.manager == manager
    {
      this.name, this.address, this.hubAddress, this.tokenId := name, address, hubAddress, tokenId;
      this.gateway, this.manager, trusted, paused := gateway, manager, {}, false;
    }

    method RouteThroughHub(destinationChain: bytes, command: Payload) returns (payload: Option<bytes>)
      ensures payload == RouteMessage(View(), destinationChain, command)
    {
      if destinationChain == ITS_HUB_CHAIN_NAME || destinationChain !in trusted { return None; }
      var inner := RawAbiEncode(TokensOf(command));
      if inner.None? { return None; }
      var outer := SendToHub(SEND_TO_HUB, destinationChain, inner.value);
      if !Sendable(outer) { return None; }
      payload := RawAbiEncode(TokensOf(outer));
    }

    method TakeFrom(now: nat, caller: Address, split: TransferAndGas) returns (ok: bool)
      modifies manager
      ensures var r := Taken(old(manager.Storage()), now, address, caller, split);
        (ok <==> r.Some?) && manager.Storage() == if ok then r.value else old(manager.Storage())
    {
      hide TM.Take, TM.Sent;
      var before := manager.Storage();
      ok := manager.SendFrom(caller, address, split.amount);
      if !ok { return; }
      ok := manager.TakeTokenFrom(now, address, split.token, split.amount);
      if !ok { manager.Restore(before); }
    }

    /** Takes the tokens first; when sending then fails, the manager is as before. */
    method InterchainTransfer(now: nat, caller: Address, destinationChain: bytes, destinationAddress: bytes, data: bytes,
                              gas: nat, payments: Payments) returns (sent: Option<bytes>)
      requires Valid()
      modifies manager
      ensures Valid()
      ensures var r := InterchainTransferred(old(View()), now, caller, destinationChain, destinationAddress, data, gas, payments);
        && (sent.Some? <==> r.Some?)
        && (r.Some? ==> r.value == (View(), sent.value))
        && (r.None? ==> View() == old(View()))
    {
      hide AbiEncode, Sendable, Taken, RouteMessage, GetTransferAndGasTokens;
      if paused { return None; }
      var split := GetTransferAndGasTokens(payments, gas);
      if split.None? { return None; }
      var before := manager.Storage();
      var ok := TakeFrom(now, caller, split.value);
      if !ok { return None; }
      if destinationAddress != [] && split.value.amount > 0 {
        sent := RouteThroughHub(destinationChain,
          Payload.InterchainTransfer(INTERCHAIN_TRANSFER, tokenId, caller, destinationAddress, split.value.amount, data));
        SameRoute(old(View()), View(), destinationChain,
          Payload.InterchainTransfer(INTERCHAIN_TRANSFER, tokenId, caller, destinationAddress, split.value.amount, data));
      } else {
        sent := None;
      }
      if sent.None? {
        manager.Restore(before);
      }
    }

    /** Sending on what was just received cannot fail. */
    method GiveTo(now: nat, destination: Address, amount: nat, withData: bool) returns (ok: bool)
      modifies manager
      ensures var r := Given(old(manager.Storage()), now, address, destination, amount, withData);
        (ok <==> r.Some?) && manager.Storage() == if ok then r.value else old(manager.Storage())
    {
      hide TM.Give, TM.Sent;
      ghost var before := manager.Storage();
      ok := manager.GiveTokenTo(now, address, if withData then address else destination, amount);
      if ok && withData {
        GivenIsHeld(before, now, address, address, amount);
        ok := manager.SendFrom(address, destination, amount);
      }
    }

    /** Validates at the gateway, then pays out; when paying out fails, the message is approved again. */
    method Execute(now: u64, sourceChain: ManagedBuffer, messageId: ManagedBuffer, sourceAddress: ManagedBuffer,
                   payload: bytes, egld: nat, delivered: bool) returns (ok: bool)
      requires Valid()
      modifies gateway, manager
      ensures Valid()
      ensures var r := ExecutedTransfer(old(View()), now, sourceChain, messageId, sourceAddress, payload, egld, delivered);
        && (ok <==> r.Some?)
        && (r.Some? ==> r.value == View())
        && (r.None? ==> View() == old(View()))
    {
      hide IncomingTransfer, MessageHash, RegistryOk, Given;
      if paused || sourceChain != ITS_HUB_CHAIN_NAME || sourceAddress != hubAddress || egld != 0 { return false; }
      var payloadHash := Keccak256(Raw(payload));
      var incoming := IncomingTransfer(trusted, payload);
      if incoming.None? { return false; }
      var p := incoming.value;
      var before := gateway.Storage();
      var valid := gateway.ValidateMessage(now, address, CrossChainId(sourceChain, messageId), sourceAddress, payloadHash);
      if valid != Done(true) { return false; }
      ok := |p.destinationAddress| == 32 && (delivered || (p.tokenId == tokenId && p.data == []));
      if ok && p.tokenId == tokenId {
        ok := GiveTo(now, p.destinationAddress, p.amount, p.data != []);
      }
      if !ok {
        gateway.Restore(before);
      }
    }
  }

  /** Routing looks at the trusted chains only. */
  lemma SameRoute(c: Chain, d: Chain, destinationChain: bytes, command: Payload)
    requires c.trusted == d.trusted
    ensures RouteMessage(c, destinationChain, command) == RouteMessage(d, destinationChain, command)
  {
  }
}
