/** The six payloads on the wire, byte by byte: which word holds which field, and where each string lies. */
module PayloadWire {
  import opened ByteStrings
  import opened Abi
  import opened AbiTheorems
  import opened TokenManagerTypes
  import opened Payloads

  /** Word i of the buffer. */
  predicate WordIs(e: bytes, i: nat, w: bytes) {
    32 * i + 32 <= |e| && e[32 * i..32 * i + 32] == w
  }

  /** Length of a string on the wire: a word for its length, then whole words. */
  function Span(content: bytes): nat { 32 + (|content| + 31) / 32 * 32 }

  /** Word i points to the string: its length as a 32-byte big-endian number, its bytes, zeros up to the next word. */
  predicate PointsTo(e: bytes, i: nat, start: nat, content: bytes) {
    && WordIs(e, i, Be(start, 32))
    && start + Span(content) <= |e|
    && e[start..start + Span(content)] == Be(|content|, 32) + content + Zeros(Span(content) - 32 - |content|)
  }

  /** A 32-byte big-endian number: byte k counts multiples of 256 to the power 31 - k. */
  lemma {:induction false} BigEndian(n: nat, width: nat, k: nat)
    requires k < width
    ensures Be(n, width)[k] as int == n / Pow256(width - 1 - k) % 256
    decreases width
  {
    if k < width - 1 {
      BigEndian(n / 256, width - 1, k);
      DivTwice(n, Pow256(width - 2 - k));
    }
  }

  lemma DivTwice(n: nat, d: nat)
    requires d > 0
    ensures n / 256 / d == n / (256 * d)
  {
    var m := n / 256;
    var q, r := m / d, m % d;
    assert q * (256 * d) == 256 * (q * d);
    QuotientIs(n, 256 * d, q, 256 * r + n % 256);
  }

  lemma QuotientIs(n: nat, d: nat, q: nat, r: nat)
    requires n == q * d + r && r < d
    ensures n / d == q
  {
    var p, s := n / d, n % d;
    assert n == p * d + s;
    if p < q { Multiples(p, q, d); }
    if q < p { Multiples(q, p, d); }
  }

  lemma {:induction false} Multiples(a: nat, b: nat, d: nat)
    requires a < b
    ensures a * d + d <= b * d
    decreases b
  {
    assert b * d == (b - 1) * d + d;
    if a < b - 1 { Multiples(a, b - 1, d); }
  }

  lemma {:induction false} PaddedNumber(n: nat)
    requires n < U32_RANGE
    ensures PadU32(n) == Be(n, 32)
  {
    Pow256Small();
    BeWiden(n, 4, 28);
  }

  /** Any tuple: a number, a word or a small number is its own word; a string is behind the offset in its word. */
  lemma {:induction false} FieldOnWire(tokens: seq<Token>, i: nat)
    requires Encodable(tokens) && Fits(tokens) && i < |tokens|
    ensures tokens[i].Uint256? ==> WordIs(Encode(tokens), i, Be(tokens[i].number, 32))
    ensures tokens[i].Bytes32? ==> WordIs(Encode(tokens), i, tokens[i].word)
    ensures tokens[i].Uint8? ==> WordIs(Encode(tokens), i, Be(tokens[i].small, 32))
    ensures tokens[i].Dynamic() ==> PointsTo(Encode(tokens), i, TailStart(tokens, i), tokens[i].Content())
  {
    hide Encode, Encodable, Fits, Zeros, Be;
    Layout(tokens, i);
    TailStartWithin(tokens, i + 1, |tokens|);
    assert TailStart(tokens, |tokens|) < U32_RANGE by { FitsMeans(tokens); }
    assert tokens[i].HasHead() by { EncodableMeans(tokens, i); }
    if tokens[i].Uint256? {
      WordOfBigUint(tokens[i].number);
    } else if tokens[i].Uint8? {
      PaddedNumber(tokens[i].small);
    } else if tokens[i].Dynamic() {
      StringOnWire(tokens[i], TailStart(tokens, i));
    }
  }

  lemma {:induction false} FitsMeans(tokens: seq<Token>)
    requires Fits(tokens)
    ensures TailStart(tokens, |tokens|) < U32_RANGE
  {
  }

  lemma EncodableMeans(tokens: seq<Token>, i: nat)
    requires Encodable(tokens) && i < |tokens|
    ensures tokens[i].HasHead()
  {
  }

  lemma {:induction false} StringOnWire(token: Token, start: nat)
    requires token.Dynamic() && start + token.TailLen() < U32_RANGE
    ensures token.TailLen() == Span(token.Content()) && PadU32(start) == Be(start, 32)
    ensures token.Tail() == Be(|token.Content()|, 32) + token.Content() + Zeros(Span(token.Content()) - 32 - |token.Content()|)
  {
    PaddedNumber(start);
    PaddedNumber(|token.Content()|);
  }

  // ---------- everything that decodes ----------

  /** At `offset` the start of a string is given in 32 bytes, there its length in 32 bytes, and behind that its bytes; both
      numbers are below 2^32. Where the string lies, and what is around it, does not matter. */
  predicate StringAt(data: bytes, offset: nat, start: nat, content: bytes) {
    && start < 0x1_0000_0000 && |content| < 0x1_0000_0000
    && offset + 32 <= |data| && data[offset..offset + 32] == Be(start, 32)
    && start + 32 + |content| <= |data| && data[start..start + 32] == Be(|content|, 32)
    && data[start + 32..start + 32 + |content|] == content
  }

  lemma {:induction false} UsizeExactly(w: Word, n: nat)
    ensures TakeUsize(w) == Some(n) <==> n < 0x1_0000_0000 && w == Be(n, 32)
  {
    hide TakeUsize, PadU32, Be;
    if TakeUsize(w) == Some(n) {
      WordOfUsize(w);
      PaddedNumber(n);
    }
    if n < 0x1_0000_0000 {
      PaddedNumber(n);
      UsizeOfWord(n);
    }
  }

  lemma StringExactly(data: bytes, offset: nat, content: bytes)
    ensures DecodeDynamic(data, offset) == Some(content) <==> exists start: nat :: StringAt(data, offset, start, content)
  {
    hide TakeUsize, Be;
    if DecodeDynamic(data, offset) == Some(content) {
      var head := PeekWord(data, offset).value;
      var start := TakeUsize(head).value;
      UsizeExactly(head, start);
      UsizeExactly(PeekWord(data, start).value, |content|);
      assert StringAt(data, offset, start, content);
    }
    forall start: nat | StringAt(data, offset, start, content) ensures DecodeDynamic(data, offset) == Some(content) {
      UsizeExactly(data[offset..offset + 32], start);
      UsizeExactly(data[start..start + 32], |content|);
    }
  }

  /** The token is read at `offset`: a number or a word as it stands, a small number if the rest of its word is zero, and a
      string through its pointer. */
  ghost predicate HoldsAt(data: bytes, offset: nat, token: Token) {
    && offset + 32 <= |data|
    && (token.Uint256? ==> FromBe(data[offset..offset + 32]) == token.number)
    && (token.Bytes32? ==> data[offset..offset + 32] == token.word)
    && (token.Uint8? ==> data[offset..offset + 32] == Zeros(31) + [token.small])
    && (token.Dynamic() ==> exists start: nat :: StringAt(data, offset, start, token.Content()))
  }

  lemma ParamExactly(param: ParamType, data: bytes, offset: nat, token: Token)
    ensures DecodeParam(param, data, offset) == Some(token) <==> token.Type() == param && HoldsAt(data, offset, token)
  {
    hide StringAt;
    if token.Dynamic() {
      StringExactly(data, offset, token.Content());
      hide DecodeDynamic;
      assert (exists start: nat :: StringAt(data, offset, start, token.Content())) ==> offset + 32 <= |data| by {
        StringHasHead(data, offset, token.Content());
      }
    } else if token.Uint8? && offset + 32 <= |data| {
      hide DecodeDynamic;
      var w := data[offset..offset + 32];
      assert w == w[..31] + [w[31]];
      assert (Zeros(31) + [token.small])[..31] == Zeros(31);
    } else {
      hide DecodeDynamic;
    }
  }

  lemma StringHasHead(data: bytes, offset: nat, content: bytes)
    ensures (exists start: nat :: StringAt(data, offset, start, content)) ==> offset + 32 <= |data|
  {
  }

  /** A buffer decodes to a list of tokens exactly when they have the types asked for and each is held at its word. */
  lemma {:induction false} DecodesExactly(types: seq<ParamType>, data: bytes, tokens: seq<Token>)
    ensures Decode(types, data) == Some(tokens) <==>
      |tokens| == |types| && forall i :: 0 <= i < |types| ==> tokens[i].Type() == types[i] && HoldsAt(data, 32 * i, tokens[i])
  {
    if |tokens| == |types| { PrefixExactly(types, data, tokens, |types|); }
    assert |tokens| == |types| ==> tokens[..|types|] == tokens;
  }

  lemma {:induction false} PrefixExactly(types: seq<ParamType>, data: bytes, tokens: seq<Token>, n: nat)
    requires n <= |types| == |tokens|
    ensures DecodeUpTo(types, data, n) == Some(tokens[..n]) <==>
      forall i :: 0 <= i < n ==> tokens[i].Type() == types[i] && HoldsAt(data, 32 * i, tokens[i])
    decreases n
  {
    hide HoldsAt, DecodeParam;
    if n > 0 {
      PrefixExactly(types, data, tokens, n - 1);
      ParamExactly(types[n - 1], data, 32 * (n - 1), tokens[n - 1]);
      assert tokens[..n] == tokens[..n - 1] + [tokens[n - 1]];
      if DecodeUpTo(types, data, n) == Some(tokens[..n]) {
        var before := DecodeUpTo(types, data, n - 1).value;
        var last := DecodeParam(types[n - 1], data, 32 * (n - 1)).value;
        assert before + [last] == tokens[..n];
        assert before == (before + [last])[..n - 1] && last == (before + [last])[n - 1];
      }
    }
  }

  // ---------- the payloads ----------

  /** InterchainTransfer: type, token id, source, destination, amount, data. */
  lemma TransferOnWire(p: Payload)
    requires Sendable(p) && p.InterchainTransfer?
    ensures var e := AbiEncode(p).value;
      var second := 192 + Span(p.sourceAddress);
      var third := second + Span(p.destinationAddress);
      && WordIs(e, 0, Be(p.messageType, 32)) && WordIs(e, 1, p.tokenId) && WordIs(e, 4, Be(p.amount, 32))
      && PointsTo(e, 2, 192, p.sourceAddress) && PointsTo(e, 3, second, p.destinationAddress)
      && PointsTo(e, 5, third, p.data) && |e| == third + Span(p.data)
  {
    hide Encode, Encodable, Fits, WordIs, PointsTo;
    var ts := TokensOf(p);
    SixStarts(ts);
    FieldOnWire(ts, 0);
    FieldOnWire(ts, 1);
    FieldOnWire(ts, 2);
    FieldOnWire(ts, 3);
    FieldOnWire(ts, 4);
    FieldOnWire(ts, 5);
  }

  /** DeployInterchainToken: type, token id, name, symbol, decimals, minter. */
  lemma DeployOnWire(p: Payload)
    requires Sendable(p) && p.DeployInterchainToken?
    ensures var e := AbiEncode(p).value;
      var second := 192 + Span(p.name);
      var third := second + Span(p.symbol);
      && WordIs(e, 0, Be(p.messageType, 32)) && WordIs(e, 1, p.tokenId) && WordIs(e, 4, Be(p.decimals, 32))
      && PointsTo(e, 2, 192, p.name) && PointsTo(e, 3, second, p.symbol)
      && PointsTo(e, 5, third, p.minter) && |e| == third + Span(p.minter)
  {
    hide Encode, Encodable, Fits, WordIs, PointsTo;
    var ts := TokensOf(p);
    SixStarts(ts);
    FieldOnWire(ts, 0);
    FieldOnWire(ts, 1);
    FieldOnWire(ts, 2);
    FieldOnWire(ts, 3);
    FieldOnWire(ts, 4);
    FieldOnWire(ts, 5);
  }

  const KINDS: seq<TokenManagerType> := [NativeInterchainToken, MintBurnFrom, LockUnlock, LockUnlockFee, MintBurn]

  /** The codes are the positions in this list. */
  lemma KindCodes(code: byte)
    ensures FromCode(code) == if code < 5 then Some(KINDS[code]) else None
    ensures code < 5 ==> KINDS[code].Code() == code
  {
  }

  /** LinkToken: type, token id, the code of the manager kind, source token, destination token, parameters. */
  lemma LinkOnWire(p: Payload)
    requires Sendable(p) && p.LinkToken?
    ensures var e := AbiEncode(p).value;
      var second := 192 + Span(p.sourceTokenAddress);
      var third := second + Span(p.destinationTokenAddress);
      && WordIs(e, 0, Be(p.messageType, 32)) && WordIs(e, 1, p.tokenId) && WordIs(e, 2, Be(p.managerType.Code(), 32))
      && PointsTo(e, 3, 192, p.sourceTokenAddress) && PointsTo(e, 4, second, p.destinationTokenAddress)
      && PointsTo(e, 5, third, p.linkParams) && |e| == third + Span(p.linkParams)
  {
    hide Encode, Encodable, Fits, WordIs, PointsTo, TokenManagerType.Code;
    var ts := TokensOf(p);
    SixStarts(ts);
    FieldOnWire(ts, 0);
    FieldOnWire(ts, 1);
    FieldOnWire(ts, 2);
    FieldOnWire(ts, 3);
    FieldOnWire(ts, 4);
    FieldOnWire(ts, 5);
  }

  /** The two hub messages alike: type, chain, the wrapped bytes. */
  lemma HubMessageOnWire(p: Payload)
    requires Sendable(p) && (p.SendToHub? || p.ReceiveFromHub?)
    ensures var e := AbiEncode(p).value;
      var chain := if p.SendToHub? then p.destinationChain else p.originalSourceChain;
      && WordIs(e, 0, Be(p.messageType, 32)) && PointsTo(e, 1, 96, chain) && PointsTo(e, 2, 96 + Span(chain), p.payload)
      && |e| == 96 + Span(chain) + Span(p.payload)
  {
    hide Encode, Encodable, Fits, WordIs, PointsTo;
    var ts := TokensOf(p);
    ThreeStarts(ts);
    FieldOnWire(ts, 0);
    FieldOnWire(ts, 1);
    FieldOnWire(ts, 2);
  }

  /** RegisterTokenMetadata: type, token identifier, decimals. */
  lemma MetadataOnWire(p: Payload)
    requires Sendable(p) && p.RegisterTokenMetadata?
    ensures var e := AbiEncode(p).value;
      && WordIs(e, 0, Be(p.messageType, 32)) && PointsTo(e, 1, 96, p.tokenIdentifier) && WordIs(e, 2, Be(p.decimals, 32))
      && |e| == 96 + Span(p.tokenIdentifier)
  {
    hide Encode, Encodable, Fits, WordIs, PointsTo;
    var ts := TokensOf(p);
    ThreeStarts(ts);
    FieldOnWire(ts, 0);
    FieldOnWire(ts, 1);
    FieldOnWire(ts, 2);
  }

  lemma LengthIs(token: Token)
    ensures token.TailLen() == if token.Dynamic() then Span(token.Content()) else 0
  {
  }

  lemma {:induction false} ThreeStarts(ts: seq<Token>)
    requires |ts| == 3 && Encodable(ts)
    ensures TailStart(ts, 0) == 96 && TailStart(ts, 1) == 96 + ts[0].TailLen()
    ensures TailStart(ts, 2) == TailStart(ts, 1) + ts[1].TailLen()
    ensures |Encode(ts)| == TailStart(ts, 2) + ts[2].TailLen()
    ensures forall t :: t in ts ==> t.TailLen() == if t.Dynamic() then Span(t.Content()) else 0
  {
    hide Encode, Encodable, Token.TailLen;
    LengthOfEncoding(ts);
    TailStartNext(ts, 0);
    TailStartNext(ts, 1);
    TailStartNext(ts, 2);
    forall t | t in ts ensures t.TailLen() == if t.Dynamic() then Span(t.Content()) else 0 { LengthIs(t); }
  }

  lemma {:induction false} SixStarts(ts: seq<Token>)
    requires |ts| == 6 && Encodable(ts)
    ensures TailStart(ts, 0) == 192 && TailStart(ts, 1) == 192 + ts[0].TailLen()
    ensures TailStart(ts, 2) == TailStart(ts, 1) + ts[1].TailLen() && TailStart(ts, 3) == TailStart(ts, 2) + ts[2].TailLen()
    ensures TailStart(ts, 4) == TailStart(ts, 3) + ts[3].TailLen() && TailStart(ts, 5) == TailStart(ts, 4) + ts[4].TailLen()
    ensures |Encode(ts)| == TailStart(ts, 5) + ts[5].TailLen()
    ensures forall t :: t in ts ==> t.TailLen() == if t.Dynamic() then Span(t.Content()) else 0
  {
    hide Encode, Encodable, Token.TailLen;
    LengthOfEncoding(ts);
    TailStartNext(ts, 0);
    TailStartNext(ts, 1);
    TailStartNext(ts, 2);
    TailStartNext(ts, 3);
    TailStartNext(ts, 4);
    TailStartNext(ts, 5);
    forall t | t in ts ensures t.TailLen() == if t.Dynamic() then Span(t.Content()) else 0 { LengthIs(t); }
  }

  /** The type of any buffer is its first word as a number, if there is one and it fits 64 bits. */
  lemma MessageTypeExactly(payload: bytes)
    ensures GetMessageType(payload)
         == if |payload| >= 32 && FromBe(payload[..32]) < 0x1_0000_0000_0000_0000 then Some(FromBe(payload[..32])) else None
  {
    assert |payload| >= 32 ==> payload[0..32] == payload[..32];
  }

  /** Received commands are told apart by these numbers. */
  lemma MessageTypes(messageType: nat)
    ensures Dispatch(messageType) == Some(TransferKind) <==> messageType == 0
    ensures Dispatch(messageType) == Some(DeployKind) <==> messageType == 1
    ensures Dispatch(messageType) == Some(LinkKind) <==> messageType == 5
    ensures Dispatch(messageType).Some? ==> messageType in {0, 1, 5}
  {
  }
}
