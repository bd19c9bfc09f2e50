/** The hand-written Solidity ABI codec (Solidity Contract ABI Specification, section
    "Formal Specification of the Encoding"), restricted as in the service to tuples of
    uint256, bytes32, bytes, string and uint8. A panic is `None`. */
module Abi {
  import opened ByteStrings
  import Slices

  const WORD: nat := 32

  type Word = w: bytes | |w| == WORD witness Zeros(WORD)

  datatype Token =
    | Uint256(number: nat)
    | Bytes32(word: Word)
    | Bytes(data: bytes)
    | String(text: bytes)
    | Uint8(small: byte)
  {
    predicate Dynamic() { Bytes? || String? }

    function Content(): bytes {
      if Bytes? then data else if String? then text else []
    }

    function HeadLen(): nat { WORD }

    function TailLen(): (len: nat)
      ensures Dynamic() ==> 32 + |Content()| <= len
    {
      if Dynamic() then PadBytesLen(Content()) * 32 else 0
    }

    /** A uint256 argument must fit 32 bytes; every other token always has a head. */
    predicate HasHead() {
      Uint256? ==> PadBigUint(number).Some?
    }

    function Head(suffixOffset: nat): Word
      requires suffixOffset < U32_RANGE
      requires HasHead()
    {
      match this
      case Uint256(n) => PadBigUint(n).value
      case Bytes32(w) => w
      case Bytes(_) => PadU32(suffixOffset)
      case String(_) => PadU32(suffixOffset)
      case Uint8(b) => PadU32(b)
    }

    function Tail(): (r: bytes)
      ensures |r| == TailLen()
    {
      if Dynamic() then PadU32(U32(|Content()|)) + Padded(Content()) else []
    }

    function Type(): ParamType {
      match this
      case Uint256(_) => Uint256Type
      case Bytes32(_) => Bytes32Type
      case Bytes(_) => BytesType
      case String(_) => StringType
      case Uint8(_) => Uint8Type
    }
  }

  datatype ParamType = Uint256Type | Bytes32Type | BytesType | StringType | Uint8Type

  predicate Encodable(tokens: seq<Token>) {
    forall i :: 0 <= i < |tokens| ==> tokens[i].HasHead()
  }

  /** u32 arithmetic wraps around. */
  function U32(value: nat): (r: nat)
    ensures r < U32_RANGE
    ensures value < U32_RANGE ==> r == value
  {
    value % 0x1_0000_0000
  }

  // ---------- padding ----------

  function PadBytesLen(b: bytes): nat { (|b| + 31) / 32 + 1 }

  function PadU32(value: nat): Word
    requires value < U32_RANGE
  {
    Zeros(28) + Be(value, 4)
  }

  function PadBigUint(value: nat): Option<Word> {
    var b := MinBe(value);
    if |b| > WORD then None else Some(Zeros(WORD - |b|) + b)
  }

  /** The content filled up with zeros to whole words. */
  function Padded(b: bytes): (r: bytes)
    ensures |r| == (|b| + 31) / 32 * 32
  {
    b + Zeros((|b| + 31) / 32 * 32 - |b|)
  }

  /** Appends `data` in batches of 32 bytes, each filled up with zeros. */
  method FixedBytesAppend(acc: bytes, data: bytes) returns (r: bytes)
    ensures r == acc + Padded(data)
  {
    r := acc;
    var done := 0;
    while done < |data|
      invariant done <= |data|
      invariant done < |data| ==> done % 32 == 0 && r == acc + data[..done]
      invariant done == |data| ==> r == acc + Padded(data)
    {
      var batch := data[done..if |data| - done < 32 then |data| else done + 32];
      r := r + (batch + Zeros(32 - |batch|));
      done := done + |batch|;
      assert data[..done - |batch|] + batch == data[..done];
      if done == |data| {
        assert (|data| + 31) / 32 * 32 - |data| == 32 - |batch|;
        assert acc + Padded(data) == acc + data[..done - |batch|] + (batch + Zeros(32 - |batch|));
      }
    }
    assert data == [] ==> Padded(data) == [];
  }

  // ---------- encoding ----------

  /** Where the tail of token `i` starts, counted from the start of the encoding. */
  function TailStart(tokens: seq<Token>, i: nat): nat
    requires i <= |tokens|
  {
    if i == 0 then 32 * |tokens| else TailStart(tokens, i - 1) + tokens[i - 1].TailLen()
  }

  /** All heads in order, then all tails in order. */
  function Block(tokens: seq<Token>, i: nat): bytes
    requires Encodable(tokens) && i < 2 * |tokens|
  {
    if i < |tokens| then tokens[i].Head(U32(TailStart(tokens, i))) else tokens[i - |tokens|].Tail()
  }

  function Blocks(tokens: seq<Token>): (blocks: seq<bytes>)
    requires Encodable(tokens)
    ensures |blocks| == 2 * |tokens|
    ensures forall i {:trigger blocks[i]} :: 0 <= i < |blocks| ==> blocks[i] == Block(tokens, i)
  {
    seq(2 * |tokens|, i requires 0 <= i < 2 * |tokens| => Block(tokens, i))
  }

  function Encode(tokens: seq<Token>): bytes
    requires Encodable(tokens)
  {
    Slices.Flat(Blocks(tokens))
  }

  /** The sizes the codec can express: u32 offsets do not wrap. */
  predicate Fits(tokens: seq<Token>) {
    TailStart(tokens, |tokens|) < U32_RANGE
  }

  lemma WrapOfSum(x: nat, y: nat)
    ensures U32(U32(x) + y) == U32(x + y)
  {
  }

  method HeadAppend(acc: bytes, token: Token, suffixOffset: nat) returns (r: Option<bytes>)
    requires suffixOffset < U32_RANGE
    ensures r.Some? <==> token.HasHead()
    ensures r.Some? ==> r.value == acc + token.Head(suffixOffset)
  {
    match token {
      case Uint256(n) =>
        var padded := PadBigUint(n);
        if padded.None? { return None; }
        r := Some(acc + padded.value);
      case Bytes32(w) => r := Some(acc + w);
      case Bytes(_) => r := Some(acc + PadU32(suffixOffset));
      case String(_) => r := Some(acc + PadU32(suffixOffset));
      case Uint8(b) => r := Some(acc + PadU32(b));
    }
  }

  method TailAppend(acc: bytes, token: Token) returns (r: bytes)
    ensures r == acc + token.Tail()
  {
    if token.Dynamic() {
      r := FixedBytesAppend(acc + PadU32(U32(|token.Content()|)), token.Content());
    } else {
      r := acc;
    }
  }

  method HeadsLen(tokens: seq<Token>) returns (len: nat)
    ensures len == U32(32 * |tokens|)
  {
    len := 0;
    for i := 0 to |tokens|
      invariant len == U32(32 * i)
    {
      WrapOfSum(32 * i, 32);
      len := U32(len + tokens[i].HeadLen());
    }
  }

  method AppendHeads(tokens: seq<Token>, headsLen: nat) returns (r: Option<bytes>)
    requires headsLen == U32(32 * |tokens|)
    ensures r.Some? <==> Encodable(tokens)
    ensures r.Some? ==> r.value == Slices.Flat(Blocks(tokens)[..|tokens|])
  {
    var acc: bytes := [];
    var offset := headsLen;
    for i := 0 to |tokens|
      invariant forall j :: 0 <= j < i ==> tokens[j].HasHead()
      invariant offset == U32(TailStart(tokens, i))
      invariant Encodable(tokens) ==> acc == Slices.Flat(Blocks(tokens)[..i])
    {
      var next := HeadAppend(acc, tokens[i], offset);
      if next.None? { return None; }
      if Encodable(tokens) { Slices.FlatNext(Blocks(tokens), i); }
      acc := next.value;
      WrapOfSum(TailStart(tokens, i), tokens[i].TailLen());
      offset := U32(offset + tokens[i].TailLen());
    }
    r := Some(acc);
  }

  /** Heads with a running u32 offset, then tails. */
  method RawAbiEncode(tokens: seq<Token>) returns (r: Option<bytes>)
    ensures r.Some? <==> Encodable(tokens)
    ensures r.Some? ==> r.value == Encode(tokens)
  {
    hide Token.Head, Token.Tail, Token.HasHead, Slices.Flat;
    var headsLen := HeadsLen(tokens);
    var heads := AppendHeads(tokens, headsLen);
    if heads.None? { return None; }
    var acc := heads.value;
    ghost var blocks := Blocks(tokens);
    for i := 0 to |tokens|
      invariant acc == Slices.Flat(blocks[..|tokens| + i])
    {
      acc := TailAppend(acc, tokens[i]);
      Slices.FlatNext(blocks, |tokens| + i);
    }
    assert blocks[..2 * |tokens|] == blocks;
    r := Some(acc);
  }

  // ---------- decoding ----------

  function PeekWord(data: bytes, offset: nat): Option<Word> {
    if offset + WORD <= |data| then Some(data[offset..offset + WORD]) else None
  }

  function TakeBytes(data: bytes, offset: nat, len: nat): Option<bytes> {
    if offset + len <= |data| then Some(data[offset..offset + len]) else None
  }

  function TakeUsize(w: Word): Option<nat> {
    if w[..28] == Zeros(28) then Some(FromBe(w[28..])) else None
  }

  function TakeU8(w: Word): Option<byte> {
    if w[..31] == Zeros(31) then Some(w[31]) else None
  }

  /** The length-prefixed content a dynamic head at `offset` points to. */
  function DecodeDynamic(data: bytes, offset: nat): Option<bytes> {
    match PeekWord(data, offset)
    case None => None
    case Some(head) =>
      match TakeUsize(head)
      case None => None
      case Some(start) =>
        match PeekWord(data, start)
        case None => None
        case Some(lenWord) =>
          match TakeUsize(lenWord)
          case None => None
          case Some(len) => TakeBytes(data, start + WORD, len)
  }

  function DecodeParam(param: ParamType, data: bytes, offset: nat): (r: Option<Token>)
    ensures r.Some? ==> r.value.Type() == param
  {
    match param
    case Uint256Type =>
      (match PeekWord(data, offset) case None => None case Some(w) => Some(Uint256(FromBe(w))))
    case Bytes32Type =>
      (match PeekWord(data, offset) case None => None case Some(w) => Some(Bytes32(w)))
    case BytesType =>
      (match DecodeDynamic(data, offset) case None => None case Some(b) => Some(Bytes(b)))
    case StringType =>
      (match DecodeDynamic(data, offset) case None => None case Some(b) => Some(String(b)))
    case Uint8Type =>
      match PeekWord(data, offset)
      case None => None
      case Some(w) => match TakeU8(w) case None => None case Some(b) => Some(Uint8(b))
  }

  function DecodeUpTo(types: seq<ParamType>, data: bytes, i: nat): (r: Option<seq<Token>>)
    requires i <= |types|
    ensures r.Some? ==> |r.value| == i
    ensures r.Some? ==> forall j :: 0 <= j < i ==> r.value[j].Type() == types[j]
  {
    if i == 0 then Some([])
    else
      match DecodeUpTo(types, data, i - 1)
      case None => None
      case Some(tokens) =>
        match DecodeParam(types[i - 1], data, 32 * (i - 1))
        case None => None
        case Some(token) => Some(tokens + [token])
  }

  function Decode(types: seq<ParamType>, data: bytes): (r: Option<seq<Token>>)
    ensures r.Some? ==> |r.value| == |types|
    ensures r.Some? ==> forall j :: 0 <= j < |types| ==> r.value[j].Type() == types[j]
  {
    DecodeUpTo(types, data, |types|)
  }

  method RawAbiDecode(types: seq<ParamType>, data: bytes) returns (r: Option<seq<Token>>)
    ensures r == Decode(types, data)
  {
    var result: seq<Token> := [];
    var offset := 0;
    for i := 0 to |types|
      invariant offset == 32 * i
      invariant DecodeUpTo(types, data, i) == Some(result)
    {
      var token := DecodeParam(types[i], data, offset);
      if token.None? {
        DecodeFailureSticks(types, data, i + 1, |types|);
        return None;
      }
      offset := offset + 32;
      result := result + [token.value];
    }
    r := Some(result);
  }

  lemma DecodeNext(types: seq<ParamType>, data: bytes, i: nat, tokens: seq<Token>, token: Token)
    requires i < |types|
    requires DecodeUpTo(types, data, i) == Some(tokens)
    requires DecodeParam(types[i], data, 32 * i) == Some(token)
    ensures DecodeUpTo(types, data, i + 1) == Some(tokens + [token])
  {
  }

  lemma {:induction false} DecodeFailureSticks(types: seq<ParamType>, data: bytes, i: nat, k: nat)
    requires i <= k <= |types|
    requires DecodeUpTo(types, data, i).None?
    ensures DecodeUpTo(types, data, k).None?
  {
    if i < k { DecodeFailureSticks(types, data, i, k - 1); }
  }
}
