/** The kinds of token manager and their one-byte codes, shared with the other chains. */
module TokenManagerTypes {
  import opened ByteStrings

  datatype TokenManagerType = NativeInterchainToken | MintBurnFrom | LockUnlock | LockUnlockFee | MintBurn
  {
    predicate Mints() { NativeInterchainToken? || MintBurnFrom? || MintBurn? }

    function Code(): byte {
      match this
      case NativeInterchainToken => 0
      case MintBurnFrom => 1
      case LockUnlock => 2
      case LockUnlockFee => 3
      case MintBurn => 4
    }
  }

  function FromCode(code: byte): (r: Option<TokenManagerType>)
    ensures r.Some? <==> code <= 4
    ensures r.Some? ==> r.value.Code() == code
  {
    if code == 0 then Some(NativeInterchainToken)
    else if code == 1 then Some(MintBurnFrom)
    else if code == 2 then Some(LockUnlock)
    else if code == 3 then Some(LockUnlockFee)
    else if code == 4 then Some(MintBurn)
    else None
  }
}

/** The six payloads exchanged between token services, their wrapping for the hub, and the
    unwrapping at the start of `execute`. */
module Payloads {
  import opened ByteStrings
  import opened Abi
  import opened AbiTheorems
  import opened TokenManagerTypes

  const INTERCHAIN_TRANSFER: nat := 0
  const DEPLOY_INTERCHAIN_TOKEN: nat := 1
  const SEND_TO_HUB: nat := 3
  const RECEIVE_FROM_HUB: nat := 4
  const LINK_TOKEN: nat := 5
  const REGISTER_TOKEN_METADATA: nat := 6

  datatype Payload =
    | InterchainTransfer(messageType: nat, tokenId: Word, sourceAddress: bytes, destinationAddress: bytes,
                         amount: nat, data: bytes)
    | DeployInterchainToken(messageType: nat, tokenId: Word, name: bytes, symbol: bytes, decimals: byte, minter: bytes)
    | SendToHub(messageType: nat, destinationChain: bytes, payload: bytes)
    | ReceiveFromHub(messageType: nat, originalSourceChain: bytes, payload: bytes)
    | RegisterTokenMetadata(messageType: nat, tokenIdentifier: bytes, decimals: byte)
    | LinkToken(messageType: nat, tokenId: Word, managerType: TokenManagerType, sourceTokenAddress: bytes,
                destinationTokenAddress: bytes, linkParams: bytes)

  datatype Kind = TransferKind | DeployKind | SendKind | ReceiveKind | MetadataKind | LinkKind

  function KindOf(p: Payload): Kind {
    match p
    case InterchainTransfer(_, _, _, _, _, _) => TransferKind
    case DeployInterchainToken(_, _, _, _, _, _) => DeployKind
    case SendToHub(_, _, _) => SendKind
    case ReceiveFromHub(_, _, _) => ReceiveKind
    case RegisterTokenMetadata(_, _, _) => MetadataKind
    case LinkToken(_, _, _, _, _, _) => LinkKind
  }

  function TokensOf(p: Payload): (tokens: seq<Token>)
    ensures |tokens| > 0 && tokens[0] == Uint256(p.messageType)
  {
    match p
    case InterchainTransfer(t, id, source, destination, amount, data) =>
      [Uint256(t), Bytes32(id), Bytes(source), Bytes(destination), Uint256(amount), Bytes(data)]
    case DeployInterchainToken(t, id, name, symbol, decimals, minter) =>
      [Uint256(t), Bytes32(id), String(name), String(symbol), Uint8(decimals), Bytes(minter)]
    case SendToHub(t, chain, payload) => [Uint256(t), String(chain), Bytes(payload)]
    case ReceiveFromHub(t, chain, payload) => [Uint256(t), String(chain), Bytes(payload)]
    case RegisterTokenMetadata(t, identifier, decimals) => [Uint256(t), Bytes(identifier), Uint8(decimals)]
    case LinkToken(t, id, managerType, source, destination, params) =>
      [Uint256(t), Bytes32(id), Uint8(managerType.Code()), Bytes(source), Bytes(destination), Bytes(params)]
  }

  function ParamTypes(kind: Kind): seq<ParamType> {
    match kind
    case TransferKind => [Uint256Type, Bytes32Type, BytesType, BytesType, Uint256Type, BytesType]
    case DeployKind => [Uint256Type, Bytes32Type, StringType, StringType, Uint8Type, BytesType]
    case SendKind => [Uint256Type, StringType, BytesType]
    case ReceiveKind => [Uint256Type, StringType, BytesType]
    case MetadataKind => [Uint256Type, BytesType, Uint8Type]
    case LinkKind => [Uint256Type, Bytes32Type, Uint8Type, BytesType, BytesType, BytesType]
  }

  /** Pops the decoded tokens into the fields of the payload. */
  function FromTokens(kind: Kind, ts: seq<Token>): Option<Payload>
    requires TypesOf(ts) == ParamTypes(kind)
  {
    assert forall i :: 0 <= i < |ts| ==> TypesOf(ts)[i] == ts[i].Type();
    match kind
    case TransferKind =>
      Some(InterchainTransfer(ts[0].number, ts[1].word, ts[2].data, ts[3].data, ts[4].number, ts[5].data))
    case DeployKind =>
      Some(DeployInterchainToken(ts[0].number, ts[1].word, ts[2].text, ts[3].text, ts[4].small, ts[5].data))
    case SendKind => Some(SendToHub(ts[0].number, ts[1].text, ts[2].data))
    case ReceiveKind => Some(ReceiveFromHub(ts[0].number, ts[1].text, ts[2].data))
    case MetadataKind => Some(RegisterTokenMetadata(ts[0].number, ts[1].data, ts[2].small))
    case LinkKind =>
      match FromCode(ts[2].small)
      case None => None
      case Some(managerType) =>
        Some(LinkToken(ts[0].number, ts[1].word, managerType, ts[3].data, ts[4].data, ts[5].data))
  }

  function AbiEncode(p: Payload): Option<bytes> {
    if Encodable(TokensOf(p)) then Some(Encode(TokensOf(p))) else None
  }

  function AbiDecode(kind: Kind, data: bytes): (r: Option<Payload>) {
    match Decode(ParamTypes(kind), data)
    case None => None
    case Some(tokens) =>
      assert TypesOf(tokens) == ParamTypes(kind);
      FromTokens(kind, tokens)
  }

  /** Numbers fit uint256 and sizes fit u32. */
  predicate Sendable(p: Payload) {
    Encodable(TokensOf(p)) && Fits(TokensOf(p))
  }

  lemma TokensMatchKind(p: Payload)
    ensures TypesOf(TokensOf(p)) == ParamTypes(KindOf(p))
    ensures FromTokens(KindOf(p), TokensOf(p)) == Some(p)
  {
    assert forall t: TokenManagerType :: FromCode(t.Code()) == Some(t);
  }

  /** Decoding a payload as its own kind gives back every field. */
  lemma PayloadRoundTrip(p: Payload)
    requires Sendable(p)
    ensures AbiEncode(p).Some? && AbiDecode(KindOf(p), AbiEncode(p).value) == Some(p)
  {
    hide Encodable, Fits, Encode, Decode, TokensOf, FromTokens, ParamTypes, KindOf;
    RoundTrip(TokensOf(p));
    TokensMatchKind(p);
  }

  // ---------- unwrapping ----------

  function GetMessageType(payload: bytes): Option<nat> {
    match DecodeParam(Uint256Type, payload, 0)
    case None => None
    case Some(token) => if token.number < U64_RANGE then Some(token.number) else None
  }

  /** (original message type, original source chain, inner payload) of a message from the hub. */
  function GetExecuteParams(trusted: set<bytes>, payload: bytes): Option<(nat, bytes, bytes)> {
    if GetMessageType(payload) != Some(RECEIVE_FROM_HUB) then None
    else
      match AbiDecode(ReceiveKind, payload)
      case None => None
      case Some(data) =>
        if !data.ReceiveFromHub? || data.originalSourceChain !in trusted then None
        else
          match GetMessageType(data.payload)
          case None => None
          case Some(messageType) => Some((messageType, data.originalSourceChain, data.payload))
  }

  /** Which of the three inbound commands a message type selects. */
  function Dispatch(messageType: nat): Option<Kind> {
    if messageType == INTERCHAIN_TRANSFER then Some(TransferKind)
    else if messageType == DEPLOY_INTERCHAIN_TOKEN then Some(DeployKind)
    else if messageType == LINK_TOKEN then Some(LinkKind)
    else None
  }

  /** The command `execute` carries out and the chain it came from. */
  function Unwrap(trusted: set<bytes>, payload: bytes): Option<(bytes, Payload)> {
    match GetExecuteParams(trusted, payload)
    case None => None
    case Some(params) =>
      match Dispatch(params.0)
      case None => None
      case Some(kind) =>
        match AbiDecode(kind, params.2)
        case None => None
        case Some(command) => Some((params.1, command))
  }

  /** A command carries the message type its kind is dispatched on. */
  predicate WellTyped(p: Payload) {
    Dispatch(p.messageType) == Some(KindOf(p))
  }

  lemma MessageTypeOfEncoding(p: Payload)
    requires Sendable(p) && p.messageType < U64_RANGE
    ensures GetMessageType(AbiEncode(p).value) == Some(p.messageType)
  {
    hide Encode, Fits, Encodable, DecodeParam;
    ParamRoundTrip(TokensOf(p), 0);
  }

  /** What is small enough inside a wrapper is small enough by itself. */
  lemma InnerFits(outer: Payload, p: Payload)
    requires Sendable(outer) && Encodable(TokensOf(p))
    requires outer.SendToHub? || outer.ReceiveFromHub?
    requires outer.payload == Encode(TokensOf(p))
    ensures Sendable(p)
  {
    hide Encode, Encodable, Token.TailLen, TailStart;
    var tokens := TokensOf(outer);
    assert tokens[2] == Bytes(outer.payload);
    LengthOfEncoding(TokensOf(p));
    TailStartWithin(tokens, 3, 3);
    assert TailStart(tokens, 3) == TailStart(tokens, 2) + tokens[2].TailLen() by { TailStartNext(tokens, 2); }
  }

  lemma TailStartNext(tokens: seq<Token>, i: nat)
    requires i < |tokens|
    ensures TailStart(tokens, i + 1) == TailStart(tokens, i) + tokens[i].TailLen()
  {
  }

  lemma ExecuteParamsOfWrapped(trusted: set<bytes>, chain: bytes, p: Payload)
    requires p.messageType < U64_RANGE && AbiEncode(p).Some?
    requires Sendable(ReceiveFromHub(RECEIVE_FROM_HUB, chain, AbiEncode(p).value))
    ensures Sendable(p)
    ensures var wrapped := AbiEncode(ReceiveFromHub(RECEIVE_FROM_HUB, chain, AbiEncode(p).value)).value;
            GetExecuteParams(trusted, wrapped)
            == if chain in trusted then Some((p.messageType, chain, AbiEncode(p).value)) else None
  {
    var outer := ReceiveFromHub(RECEIVE_FROM_HUB, chain, AbiEncode(p).value);
    InnerFits(outer, p);
    hide Sendable, TokensOf, AbiEncode, AbiDecode, GetMessageType;
    PayloadRoundTrip(outer);
    MessageTypeOfEncoding(outer);
    MessageTypeOfEncoding(p);
  }

  /** Wrapping a command for this chain and running the execute path recovers the command and its origin,
      exactly when the origin is a trusted chain. */
  lemma InboundWrapping(trusted: set<bytes>, chain: bytes, p: Payload)
    requires WellTyped(p) && AbiEncode(p).Some?
    requires Sendable(ReceiveFromHub(RECEIVE_FROM_HUB, chain, AbiEncode(p).value))
    ensures var wrapped := AbiEncode(ReceiveFromHub(RECEIVE_FROM_HUB, chain, AbiEncode(p).value)).value;
            Unwrap(trusted, wrapped) == if chain in trusted then Some((chain, p)) else None
  {
    hide Sendable, TokensOf, AbiEncode, AbiDecode, GetExecuteParams, KindOf;
    ExecuteParamsOfWrapped(trusted, chain, p);
    PayloadRoundTrip(p);
  }

  /** Decoding an outbound message twice, first as a hub message, recovers destination and command. */
  lemma OutboundWrapping(chain: bytes, p: Payload)
    requires AbiEncode(p).Some? && Sendable(SendToHub(SEND_TO_HUB, chain, AbiEncode(p).value))
    ensures var outer := SendToHub(SEND_TO_HUB, chain, AbiEncode(p).value);
            AbiEncode(outer).Some?
            && AbiDecode(SendKind, AbiEncode(outer).value) == Some(outer)
            && AbiDecode(KindOf(p), outer.payload) == Some(p)
  {
    var outer := SendToHub(SEND_TO_HUB, chain, AbiEncode(p).value);
    InnerFits(outer, p);
    PayloadRoundTrip(outer);
    PayloadRoundTrip(p);
  }

  /** Two different commands never travel as the same bytes. */
  lemma InboundUnambiguous(chain1: bytes, p1: Payload, chain2: bytes, p2: Payload)
    requires WellTyped(p1) && AbiEncode(p1).Some? && WellTyped(p2) && AbiEncode(p2).Some?
    requires Sendable(ReceiveFromHub(RECEIVE_FROM_HUB, chain1, AbiEncode(p1).value))
    requires Sendable(ReceiveFromHub(RECEIVE_FROM_HUB, chain2, AbiEncode(p2).value))
    requires AbiEncode(ReceiveFromHub(RECEIVE_FROM_HUB, chain1, AbiEncode(p1).value))
          == AbiEncode(ReceiveFromHub(RECEIVE_FROM_HUB, chain2, AbiEncode(p2).value))
    ensures chain1 == chain2 && p1 == p2
  {
    hide *;
    InboundWrapping({chain1, chain2}, chain1, p1);
    InboundWrapping({chain1, chain2}, chain2, p2);
  }
}
