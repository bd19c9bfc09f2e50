/** Chains running the same contracts, and the hub between them, as one system moving one token. Each event is one
    transaction on one chain or one step of the hub; an event whose guard fails changes nothing. */
module BridgeSpec {
  import opened ByteStrings
  import opened ChainTypes
  import opened Keccak
  import opened Preimages
  import opened Abi
  import opened Payloads
  import opened GatewaySpec
  import opened TokenManagerTypes
  import opened TokenServiceSpec
  import TM = TokenManagerSpec
  import Roles
  import Sums

  /** A call to a gateway. The hub looks only at those made by the chain's token service. */
  datatype Outgoing = Outgoing(source: nat, fromService: bool, payload: bytes)

  /** A message the hub has sent on, approved at the destination and not executed. */
  datatype InTransit = InTransit(dest: nat, id: CrossChainId, payload: bytes)

  datatype World = World(tokenId: Word, chains: seq<Chain>, outbox: seq<Outgoing>, transit: seq<InTransit>, donated: nat)

  datatype Event =
    | Transfer(i: nat, now: nat, caller: Address, destinationChain: bytes, destinationAddress: bytes, data: bytes,
               gas: nat, payments: Payments)
    | SendCommand(i: nat, destinationChain: bytes, command: Payload)
    | SendMetadata(i: nat, tokenIdentifier: bytes, decimals: byte)
    | CallGateway(i: nat, caller: Address, payload: bytes)
    | Relay(k: nat, dest: nat, messageId: ManagedBuffer)
    | ApproveOther(i: nat, m: Message)
    | ValidateOther(i: nat, caller: Address, id: CrossChainId, sourceAddress: ManagedBuffer, payloadHash: Hash)
    | ExecuteTransfer(i: nat, now: nat, messageId: ManagedBuffer, sourceAddress: ManagedBuffer,
                      payload: bytes, egld: nat, delivered: bool)
    | ExecuteCommand(i: nat, messageId: ManagedBuffer, payload: bytes)
    | CallManager(i: nat, now: nat, caller: Address, call: TM.Call)
    | SetPaused(i: nat, paused: bool)
    | SetTrusted(i: nat, trusted: set<bytes>)

  function Origin(e: Event): nat { if e.Relay? then e.dest else e.i }

  /** What the service sends besides transfers of this token. */
  predicate OtherCommand(tokenId: Word, command: Payload) {
    match command
    case InterchainTransfer(t, id, _, _, _, _) => t == INTERCHAIN_TRANSFER && id != tokenId
    case DeployInterchainToken(t, _, _, _, _, _) => t == DEPLOY_INTERCHAIN_TOKEN
    case LinkToken(t, _, _, _, _, _) => t == LINK_TOKEN
    case _ => false
  }

  /** The hub takes the inner command out of what it receives and wraps the very same bytes for the destination. */
  function HubForwards(payload: bytes): (r: Option<Payload>)
    ensures r.Some? ==> r.value.SendToHub?
  {
    if GetMessageType(payload) != Some(SEND_TO_HUB) then None
    else
      match AbiDecode(SendKind, payload)
      case None => None
      case Some(p) => if p.SendToHub? then Some(p) else None
  }

  function Forwarded(w: World, o: Outgoing, dest: nat): Option<bytes>
    requires o.source < |w.chains| && dest < |w.chains|
  {
    match HubForwards(o.payload)
    case None => None
    case Some(p) =>
      var wrapped := ReceiveFromHub(RECEIVE_FROM_HUB, w.chains[o.source].name, p.payload);
      if o.fromService && p.destinationChain == w.chains[dest].name && Sendable(wrapped) then AbiEncode(wrapped) else None
  }

  /** A message the hub sends to this chain's service. */
  predicate FromHub(c: Chain, m: Message) {
    m.id.sourceChain == ITS_HUB_CHAIN_NAME && m.sourceAddress == c.hubAddress && m.contract == c.service
  }

  /** Deploy and link messages change no balance here. */
  predicate CommandApproved(c: Chain, id: CrossChainId, payload: bytes) {
    && !c.paused
    && StateOf(c.messages, id) == Approved(ApprovalHash(c, id, payload))
    && GetExecuteParams(c.trusted, payload).Some?
    && GetExecuteParams(c.trusted, payload).value.0 in {DEPLOY_INTERCHAIN_TOKEN, LINK_TOKEN}
  }

  /** Nobody calls from the zero address, and the service moves tokens only in transfers. */
  predicate CallPossible(c: Chain, caller: Address, call: TM.Call) {
    caller != ZERO_ADDRESS && (caller == c.service ==> !call.GiveToken? && !call.TakeToken?)
  }

  function Next(w: World, e: Event): World {
    if Origin(e) >= |w.chains| then w
    else
      var c := w.chains[Origin(e)];
      match e
      case Transfer(i, now, caller, destinationChain, destinationAddress, data, gas, payments) =>
        (match InterchainTransferred(c, now, caller, destinationChain, destinationAddress, data, gas, payments)
         case None => w
         case Some(r) => w.(chains := w.chains[i := r.0], outbox := w.outbox + [Outgoing(i, true, r.1)]))
      case SendCommand(i, destinationChain, command) =>
        if c.paused || !OtherCommand(w.tokenId, command) || RouteMessage(c, destinationChain, command).None? then w
        else w.(outbox := w.outbox + [Outgoing(i, true, RouteMessage(c, destinationChain, command).value)])
      case SendMetadata(i, tokenIdentifier, decimals) =>
        var p := RegisterTokenMetadata(REGISTER_TOKEN_METADATA, tokenIdentifier, decimals);
        if c.paused || !Sendable(p) then w else w.(outbox := w.outbox + [Outgoing(i, true, AbiEncode(p).value)])
      case CallGateway(i, caller, payload) =>
        if caller == c.service then w else w.(outbox := w.outbox + [Outgoing(i, false, payload)])
      case Relay(k, dest, messageId) =>
        var id := CrossChainId(ITS_HUB_CHAIN_NAME, messageId);
        if k >= |w.outbox| || w.outbox[k].source >= |w.chains| || Forwarded(w, w.outbox[k], dest).None?
           || !StateOf(c.messages, id).NonExistent? then w
        else
          var payload := Forwarded(w, w.outbox[k], dest).value;
          var m := Message(id, c.hubAddress, c.service, Keccak256(Raw(payload)));
          w.(chains := w.chains[dest := c.(messages := ApproveOne(c.messages, m))],
             outbox := Sums.Without(w.outbox, k),
             transit := w.transit + [InTransit(dest, id, payload)])
      case ApproveOther(i, m) =>
        if FromHub(c, m) then w else w.(chains := w.chains[i := c.(messages := ApproveOne(c.messages, m))])
      case ValidateOther(i, caller, id, sourceAddress, payloadHash) =>
        if caller == c.service || StateOf(c.messages, id) != Approved(MessageHash(id, sourceAddress, caller, payloadHash)) then w
        else w.(chains := w.chains[i := c.(messages := c.messages[id := MessageState.Executed])])
      case ExecuteTransfer(i, now, messageId, sourceAddress, payload, egld, delivered) =>
        (match ExecutedTransfer(c, now, ITS_HUB_CHAIN_NAME, messageId, sourceAddress, payload, egld, delivered)
         case None => w
         case Some(c1) => Consumed(w, i, c1, CrossChainId(ITS_HUB_CHAIN_NAME, messageId), payload))
      case ExecuteCommand(i, messageId, payload) =>
        var id := CrossChainId(ITS_HUB_CHAIN_NAME, messageId);
        if !CommandApproved(c, id, payload) then w
        else Consumed(w, i, c.(messages := c.messages[id := MessageState.Executed]), id, payload)
      case CallManager(i, now, caller, call) =>
        if !CallPossible(c, caller, call) then w
        else
          (match TM.Apply(c.tm, now, caller, call)
           case None => w
           case Some(tm) =>
             w.(chains := w.chains[i := c.(tm := tm)],
                donated := w.donated + (if call.DonateTokens? then call.amount else 0)))
      case SetPaused(i, paused) => w.(chains := w.chains[i := c.(paused := paused)])
      case SetTrusted(i, trusted) => w.(chains := w.chains[i := c.(trusted := trusted)])
  }

  /** The message is no longer in transit. */
  function Consumed(w: World, i: nat, c: Chain, id: CrossChainId, payload: bytes): World
    requires i < |w.chains|
  {
    var w1 := w.(chains := w.chains[i := c]);
    if InTransit(i, id, payload) in w.transit
    then w1.(transit := Sums.Without(w.transit, IndexOf(w.transit, InTransit(i, id, payload)))) else w1
  }

  function IndexOf(s: seq<InTransit>, x: InTransit): (k: nat)
    requires x in s
    ensures k < |s| && s[k] == x
  {
    if s[0] == x then 0 else 1 + IndexOf(s[1..], x)
  }

  function After(w: World, events: seq<Event>, n: nat): World
    requires n <= |events|
  {
    if n == 0 then w else Next(After(w, events, n - 1), events[n - 1])
  }

  // ---------- what is owed ----------

  /** The amount of this token that a command moves. */
  function TransferAmount(tokenId: Word, inner: bytes): nat {
    if GetMessageType(inner) != Some(INTERCHAIN_TRANSFER) then 0
    else
      match AbiDecode(TransferKind, inner)
      case None => 0
      case Some(p) => if p.InterchainTransfer? && p.tokenId == tokenId then p.amount else 0
  }

  function SentAmount(tokenId: Word, o: Outgoing): nat {
    if o.fromService && HubForwards(o.payload).Some? then TransferAmount(tokenId, HubForwards(o.payload).value.payload) else 0
  }

  function TransitAmount(tokenId: Word, m: InTransit): nat {
    match AbiDecode(ReceiveKind, m.payload)
    case None => 0
    case Some(p) => if p.ReceiveFromHub? then TransferAmount(tokenId, p.payload) else 0
  }

  /** What a chain has put into circulation; a home chain takes out what it locks. */
  function Circulating(c: Chain): int {
    if c.tm.kind.LockUnlock? then 0 - c.tm.locked else c.tm.supply
  }

  function SentOf(tokenId: Word): Outgoing -> int { (o: Outgoing) => SentAmount(tokenId, o) }
  function TransitOf(tokenId: Word): InTransit -> int { (m: InTransit) => TransitAmount(tokenId, m) }
  function CirculatingIn(): Chain -> int { (c: Chain) => Circulating(c) }

  function SentTotal(w: World): int { Sums.Sum(SentOf(w.tokenId), w.outbox) }
  function TransitTotal(w: World): int { Sums.Sum(TransitOf(w.tokenId), w.transit) }
  function CirculatingTotal(w: World): int { Sums.Sum(CirculatingIn(), w.chains) }

  /** Chain 0 is the home, all others are remotes. */
  function SupplyIn(): Chain -> int { (c: Chain) => c.tm.supply }

  function RemoteSupply(w: World): int
    requires w.chains != []
  {
    Sums.Sum(SupplyIn(), w.chains[1..])
  }

  function ToHomeOf(tokenId: Word): InTransit -> int { (m: InTransit) => if m.dest == 0 then TransitAmount(tokenId, m) else 0 }

  function ToHomeTotal(w: World): int { Sums.Sum(ToHomeOf(w.tokenId), w.transit) }

  predicate Conserved(w: World) {
    CirculatingTotal(w) + SentTotal(w) + TransitTotal(w) + w.donated == 0
  }

  /** The home can pay every transfer on its way to it, on top of what circulates elsewhere. */
  predicate CanPayAll(w: World) {
    w.chains != [] && ToHomeTotal(w) + w.donated + RemoteSupply(w) <= w.chains[0].tm.locked
  }
}
