/** What the codec promises: where every head and tail lies, that decoding undoes encoding for tuples
    of any length, and exactly which accepted inputs are encodings. */
module AbiTheorems {
  import opened ByteStrings
  import opened Abi
  import Slices

  function TypesOf(tokens: seq<Token>): (types: seq<ParamType>)
    ensures |types| == |tokens|
    ensures forall i :: 0 <= i < |tokens| ==> types[i] == tokens[i].Type()
  {
    seq(|tokens|, i requires 0 <= i < |tokens| => tokens[i].Type())
  }

  // ---------- layout ----------

  lemma {:induction false} StartOfHead(tokens: seq<Token>, i: nat)
    requires Encodable(tokens) && i <= |tokens|
    ensures Slices.Start(Blocks(tokens), i) == 32 * i
  {
    if i > 0 { StartOfHead(tokens, i - 1); }
  }

  lemma {:induction false} StartOfTail(tokens: seq<Token>, i: nat)
    requires Encodable(tokens) && i <= |tokens|
    ensures Slices.Start(Blocks(tokens), |tokens| + i) == TailStart(tokens, i)
  {
    hide Token.Head, Token.Tail, Token.TailLen, Token.HasHead;
    if i == 0 { StartOfHead(tokens, |tokens|); } else { StartOfTail(tokens, i - 1); }
  }

  lemma {:induction false} LengthOfEncoding(tokens: seq<Token>)
    requires Encodable(tokens)
    ensures |Encode(tokens)| == TailStart(tokens, |tokens|)
  {
    hide Token.Head, Token.Tail, Token.TailLen, Token.HasHead, Slices.Start, Slices.Flat;
    StartOfTail(tokens, |tokens|);
    assert Blocks(tokens)[..2 * |tokens|] == Blocks(tokens);
    Slices.FlatLength(Blocks(tokens), 2 * |tokens|);
  }

  lemma {:induction false} TailStartWithin(tokens: seq<Token>, i: nat, k: nat)
    requires i <= k <= |tokens|
    ensures TailStart(tokens, i) <= TailStart(tokens, k)
  {
    if i < k { TailStartWithin(tokens, i, k - 1); }
  }

  /** Head `i` is word `i`; tail `i` occupies its own block right after tail `i - 1`; nothing else is in the buffer. */
  lemma Layout(tokens: seq<Token>, i: nat)
    requires Encodable(tokens) && i < |tokens|
    ensures 32 * |tokens| <= TailStart(tokens, i)
    ensures TailStart(tokens, i + 1) == TailStart(tokens, i) + tokens[i].TailLen() <= |Encode(tokens)|
    ensures |Encode(tokens)| == TailStart(tokens, |tokens|)
    ensures Encode(tokens)[32 * i..32 * i + 32] == tokens[i].Head(U32(TailStart(tokens, i)))
    ensures Encode(tokens)[TailStart(tokens, i)..TailStart(tokens, i) + tokens[i].TailLen()] == tokens[i].Tail()
  {
    hide Token.Head, Token.Tail, Token.TailLen, Token.HasHead, Slices.Start, Slices.Flat;
    var blocks := Blocks(tokens);
    LengthOfEncoding(tokens);
    StartOfHead(tokens, i);
    StartOfHead(tokens, |tokens|);
    StartOfTail(tokens, i);
    Slices.StartsWithin(blocks, |tokens|, |tokens| + i);
    Slices.BlockAt(blocks, i);
    Slices.BlockAt(blocks, |tokens| + i);
  }

  // ---------- words ----------

  lemma {:induction false} WordOfBigUint(n: nat)
    ensures PadBigUint(n).Some? <==> n < Pow256(32)
    ensures n < Pow256(32) ==> PadBigUint(n).value == Be(n, 32) && FromBe(PadBigUint(n).value) == n
  {
    MinBeFits(n, 32);
    if n < Pow256(32) { FromBeBe(n, 32); }
  }

  lemma {:induction false} BigUintOfWord(w: Word)
    ensures PadBigUint(FromBe(w)) == Some(w)
  {
    BeFromBe(w);
    WordOfBigUint(FromBe(w));
  }

  lemma UsizeOfWord(n: nat)
    requires n < U32_RANGE
    ensures TakeUsize(PadU32(n)) == Some(n)
  {
    Pow256Small();
    FromBeBe(n, 4);
    assert PadU32(n)[..28] == Zeros(28) && PadU32(n)[28..] == Be(n, 4);
  }

  lemma WordOfUsize(w: Word)
    requires TakeUsize(w).Some?
    ensures TakeUsize(w).value < U32_RANGE
    ensures PadU32(TakeUsize(w).value) == w
  {
    Pow256Small();
    BeFromBe(w[28..]);
    assert w == w[..28] + w[28..];
  }

  lemma WordOfU8(b: byte)
    ensures PadU32(b) == Zeros(31) + [b]
    ensures TakeU8(PadU32(b)) == Some(b)
  {
    Pow256Small();
    assert Be(b, 1) == [b];
    BeWiden(b, 1, 3);
    assert Zeros(28) + (Zeros(3) + [b]) == Zeros(31) + [b];
  }

  // ---------- round trip ----------

  /** A tail holds its length word, then the content. */
  lemma TailParts(token: Token)
    requires token.Dynamic() && |token.Content()| < U32_RANGE
    ensures 32 + |token.Content()| <= token.TailLen()
    ensures token.Tail()[0..32] == PadU32(|token.Content()|)
    ensures token.Tail()[32..32 + |token.Content()|] == token.Content()
    ensures token.Tail()[32 + |token.Content()|..token.TailLen()] == Zeros(token.TailLen() - 32 - |token.Content()|)
  {
  }

  lemma DynamicFollowsHead(tokens: seq<Token>, i: nat)
    requires Encodable(tokens) && Fits(tokens) && i < |tokens| && tokens[i].Dynamic()
    ensures DecodeDynamic(Encode(tokens), 32 * i) == Some(tokens[i].Content())
  {
    hide Token.Tail, Token.HasHead, Encode, Encodable, TakeUsize, PadU32;
    var data, start, content := Encode(tokens), TailStart(tokens, i), tokens[i].Content();
    TailStartWithin(tokens, i + 1, |tokens|);
    Layout(tokens, i);
    assert start + tokens[i].TailLen() < U32_RANGE;
    UsizeOfWord(start);
    UsizeOfWord(|content|);
    TailParts(tokens[i]);
    Slices.OfSlice(data, start, start + tokens[i].TailLen(), 0, 32);
    Slices.OfSlice(data, start, start + tokens[i].TailLen(), 32, 32 + |content|);
  }

  lemma ParamRoundTrip(tokens: seq<Token>, i: nat)
    requires Encodable(tokens) && Fits(tokens) && i < |tokens|
    ensures DecodeParam(tokens[i].Type(), Encode(tokens), 32 * i) == Some(tokens[i])
  {
    hide Encode, Fits, TakeUsize, TakeU8, PadU32, PadBigUint, Token.Tail, Token.TailLen;
    Layout(tokens, i);
    match tokens[i]
    case Uint256(n) => WordOfBigUint(n);
    case Bytes32(_) =>
    case Bytes(_) => DynamicFollowsHead(tokens, i);
    case String(_) => DynamicFollowsHead(tokens, i);
    case Uint8(b) => WordOfU8(b);
  }

  lemma {:induction false} RoundTripUpTo(tokens: seq<Token>, i: nat)
    requires Encodable(tokens) && Fits(tokens) && i <= |tokens|
    ensures DecodeUpTo(TypesOf(tokens), Encode(tokens), i) == Some(tokens[..i])
  {
    hide Encode, Encodable, Fits;
    if i > 0 {
      RoundTripUpTo(tokens, i - 1);
      ParamRoundTrip(tokens, i - 1);
      assert tokens[..i - 1] + [tokens[i - 1]] == tokens[..i];
      DecodeNext(TypesOf(tokens), Encode(tokens), i - 1, tokens[..i - 1], tokens[i - 1]);
    }
  }

  /** Decoding undoes encoding, for a tuple of any length. */
  lemma RoundTrip(tokens: seq<Token>)
    requires Encodable(tokens) && Fits(tokens)
    ensures Decode(TypesOf(tokens), Encode(tokens)) == Some(tokens)
  {
    RoundTripUpTo(tokens, |tokens|);
    assert tokens[..|tokens|] == tokens;
  }

  /** So two tuples of the same shape never share an encoding. */
  lemma {:induction false} EncodeInjective(xs: seq<Token>, ys: seq<Token>)
    requires Encodable(xs) && Fits(xs) && Encodable(ys) && Fits(ys)
    requires TypesOf(xs) == TypesOf(ys) && Encode(xs) == Encode(ys)
    ensures xs == ys
  {
    RoundTrip(xs);
    RoundTrip(ys);
  }

  // ---------- the converse ----------

  /** Decoding accepts junk behind the encoding, so encoding does not undo decoding. */
  lemma ConverseFails()
    ensures var data := Zeros(32) + [1];
            Decode([Uint256Type], data) == Some([Uint256(0)])
            && Encodable([Uint256(0)]) && Encode([Uint256(0)]) != data
  {
    var data := Zeros(32) + [1];
    assert data[0..32] == Zeros(32);
    BeOfZero(32);
    BigUintOfWord(Zeros(32));
    WordOfBigUint(0);
    FromBeBe(0, 32);
    DecodeNext([Uint256Type], data, 0, [], Uint256(0));
    assert [] + [Uint256(0)] == [Uint256(0)];
    LengthOfEncoding([Uint256(0)]);
    assert TailStart([Uint256(0)], 1) == 32;
  }

  /** Canonical data: each dynamic head holds the running offset, contents are filled up with zeros, and the
      last tail ends the buffer. `tokens` is what the decoder returned, used only for the content lengths. */
  predicate Canonical(data: bytes, tokens: seq<Token>) {
    && |data| == TailStart(tokens, |tokens|)
    && forall i :: 0 <= i < |tokens| && tokens[i].Dynamic() ==> CanonicalAt(data, tokens, i)
  }

  predicate CanonicalAt(data: bytes, tokens: seq<Token>, i: nat)
    requires i < |tokens| && tokens[i].Dynamic()
  {
    var start, len := TailStart(tokens, i), |tokens[i].Content()|;
    && PeekWord(data, 32 * i).Some? && TakeUsize(PeekWord(data, 32 * i).value) == Some(start)
    && start + tokens[i].TailLen() <= |data|
    && data[start + 32 + len..start + tokens[i].TailLen()] == Zeros(tokens[i].TailLen() - 32 - len)
  }

  lemma {:induction false} DecodedAt(types: seq<ParamType>, data: bytes, i: nat, k: nat)
    requires i < k <= |types| && DecodeUpTo(types, data, k).Some?
    ensures DecodeParam(types[i], data, 32 * i) == Some(DecodeUpTo(types, data, k).value[i])
  {
    if i + 1 < k { DecodedAt(types, data, i, k - 1); }
  }

  /** A decoded static token is its word, whatever the surroundings. */
  lemma StaticIsItsWord(data: bytes, offset: nat, token: Token, suffixOffset: nat)
    requires DecodeParam(token.Type(), data, offset) == Some(token)
    requires suffixOffset < U32_RANGE
    ensures token.HasHead() && offset + 32 <= |data|
    ensures !token.Dynamic() ==> data[offset..offset + 32] == token.Head(suffixOffset)
  {
    var w := PeekWord(data, offset).value;
    match token
    case Uint256(_) => BigUintOfWord(w);
    case Bytes32(_) =>
    case Uint8(b) =>
      WordOfU8(b);
      assert w == w[..31] + [w[31]];
    case _ =>
  }

  /** What a successful decoding established about token `i`. */
  predicate Reads(data: bytes, tokens: seq<Token>, i: nat)
    requires i < |tokens|
  {
    DecodeParam(tokens[i].Type(), data, 32 * i) == Some(tokens[i])
  }

  lemma DecodedReads(types: seq<ParamType>, data: bytes)
    requires Decode(types, data).Some?
    ensures var tokens := Decode(types, data).value;
            Encodable(tokens) && forall i :: 0 <= i < |tokens| ==> Reads(data, tokens, i)
  {
    var tokens := Decode(types, data).value;
    forall i | 0 <= i < |tokens| ensures Reads(data, tokens, i) && tokens[i].HasHead() {
      DecodedAt(types, data, i, |types|);
      StaticIsItsWord(data, 32 * i, tokens[i], 0);
    }
  }

  lemma TailInPlace(data: bytes, start: nat, token: Token)
    requires token.Dynamic() && start + token.TailLen() <= |data|
    requires |token.Content()| < U32_RANGE && data[start..start + 32] == PadU32(|token.Content()|)
    requires data[start + 32..start + 32 + |token.Content()|] == token.Content()
    requires data[start + 32 + |token.Content()|..start + token.TailLen()] == Zeros(token.TailLen() - 32 - |token.Content()|)
    ensures data[start..start + token.TailLen()] == token.Tail()
  {
    hide PadU32, Token.Tail, Token.TailLen;
    var len, end := |token.Content()|, start + token.TailLen();
    TailParts(token);
    Slices.OfSlice(data, start, end, 0, 32);
    Slices.OfSlice(data, start, end, 32, 32 + len);
    Slices.OfSlice(data, start, end, 32 + len, token.TailLen());
    Slices.SameParts(data[start..end], token.Tail(), 32, 32 + len);
  }

  lemma {:induction false} DynamicInPlace(data: bytes, tokens: seq<Token>, i: nat)
    requires i < |tokens| && tokens[i].Dynamic() && |data| < U32_RANGE
    requires DecodeDynamic(data, 32 * i) == Some(tokens[i].Content())
    requires CanonicalAt(data, tokens, i)
    ensures data[32 * i..32 * i + 32] == PadU32(U32(TailStart(tokens, i)))
    ensures TailStart(tokens, i) + tokens[i].TailLen() <= |data|
    ensures data[TailStart(tokens, i)..TailStart(tokens, i) + tokens[i].TailLen()] == tokens[i].Tail()
  {
    hide TakeUsize, PadU32, Token.Tail, Token.TailLen, TailStart;
    WordOfUsize(PeekWord(data, 32 * i).value);
    WordOfUsize(PeekWord(data, TailStart(tokens, i)).value);
    TailInPlace(data, TailStart(tokens, i), tokens[i]);
  }

  lemma DynamicDecoded(data: bytes, offset: nat, token: Token)
    requires token.Dynamic() && DecodeParam(token.Type(), data, offset) == Some(token)
    ensures DecodeDynamic(data, offset) == Some(token.Content())
    ensures forall suffix: nat :: suffix < U32_RANGE && token.HasHead() ==> token.Head(suffix) == PadU32(suffix)
  {
  }

  /** On canonical data each head and tail of the re-encoding is already in place. */
  lemma {:induction false} PartsInPlace(data: bytes, tokens: seq<Token>, i: nat)
    requires Encodable(tokens) && i < |tokens| && |data| < U32_RANGE
    requires Canonical(data, tokens) && Reads(data, tokens, i)
    ensures 32 * i + 32 <= |data|
    ensures data[32 * i..32 * i + 32] == tokens[i].Head(U32(TailStart(tokens, i)))
    ensures TailStart(tokens, i) + tokens[i].TailLen() <= |data|
    ensures data[TailStart(tokens, i)..TailStart(tokens, i) + tokens[i].TailLen()] == tokens[i].Tail()
  {
    hide Token.Head, Token.Tail, Token.TailLen, Token.HasHead, Encode, Encodable, TailStart, DecodeParam, CanonicalAt;
    Layout(tokens, i);
    StaticIsItsWord(data, 32 * i, tokens[i], U32(TailStart(tokens, i)));
    if tokens[i].Dynamic() {
      DynamicDecoded(data, 32 * i, tokens[i]);
      DynamicInPlace(data, tokens, i);
    } else {
      StaticTail(tokens[i]);
    }
  }

  lemma StaticTail(token: Token)
    requires !token.Dynamic()
    ensures token.Tail() == [] && token.TailLen() == 0
  {
  }

  lemma BlockInPlace(data: bytes, tokens: seq<Token>, i: nat)
    requires Encodable(tokens) && |data| < U32_RANGE && i < 2 * |tokens|
    requires Canonical(data, tokens) && Reads(data, tokens, if i < |tokens| then i else i - |tokens|)
    ensures Slices.Shows<byte>(data, Blocks(tokens), i)
  {
    hide Token.Head, Token.Tail, Token.TailLen, Token.HasHead, TailStart, Encodable, Canonical, Reads, Slices.Start;
    var k := if i < |tokens| then i else i - |tokens|;
    PartsInPlace(data, tokens, k);
    StartOfHead(tokens, k);
    StartOfTail(tokens, k);
  }

  lemma BlocksInPlace(data: bytes, tokens: seq<Token>)
    requires Encodable(tokens) && |data| < U32_RANGE
    requires Canonical(data, tokens) && forall i :: 0 <= i < |tokens| ==> Reads(data, tokens, i)
    ensures forall i :: 0 <= i < |Blocks(tokens)| ==> Slices.Shows(data, Blocks(tokens), i)
  {
    hide *;
    forall i | 0 <= i < |Blocks(tokens)| ensures Slices.Shows(data, Blocks(tokens), i) {
      BlockInPlace(data, tokens, i);
    }
  }

  lemma CanonicalLength(data: bytes, tokens: seq<Token>)
    requires Encodable(tokens) && Canonical(data, tokens)
    ensures |data| == Slices.Start(Blocks(tokens), |Blocks(tokens)|)
    ensures Encode(tokens) == Slices.Flat(Blocks(tokens))
  {
    hide Block, CanonicalAt, Slices.Start, Slices.Flat, TailStart, Encodable;
    StartOfTail(tokens, |tokens|);
  }

  lemma CanonicalIsEncoding(data: bytes, tokens: seq<Token>)
    requires Encodable(tokens) && |data| < U32_RANGE
    requires Canonical(data, tokens) && forall i :: 0 <= i < |tokens| ==> Reads(data, tokens, i)
    ensures data == Encode(tokens)
  {
    hide *;
    BlocksInPlace(data, tokens);
    CanonicalLength(data, tokens);
    Slices.FlatExactly(data, Blocks(tokens));
  }

  lemma EncodingCanonicalAt(tokens: seq<Token>, i: nat)
    requires Encodable(tokens) && Fits(tokens) && i < |tokens| && tokens[i].Dynamic()
    ensures CanonicalAt(Encode(tokens), tokens, i)
  {
    hide Token.Tail, TakeUsize, PadU32, Encode;
    Layout(tokens, i);
    TailStartWithin(tokens, i, |tokens|);
    var data, start, len := Encode(tokens), TailStart(tokens, i), |tokens[i].Content()|;
    UsizeOfWord(start);
    TailParts(tokens[i]);
    Slices.OfSlice(data, start, start + tokens[i].TailLen(), 32 + len, tokens[i].TailLen());
  }

  lemma EncodingsAreCanonical(tokens: seq<Token>)
    requires Encodable(tokens) && Fits(tokens)
    ensures Canonical(Encode(tokens), tokens)
  {
    LengthOfEncoding(tokens);
    hide CanonicalAt, Encode, Encodable;
    forall i | 0 <= i < |tokens| && tokens[i].Dynamic() ensures CanonicalAt(Encode(tokens), tokens, i) {
      EncodingCanonicalAt(tokens, i);
    }
  }

  /** Re-encoding what was decoded gives the input back exactly for canonical input. */
  lemma {:induction false} ReencodeExactlyWhenCanonical(types: seq<ParamType>, data: bytes)
    requires Decode(types, data).Some? && |data| < U32_RANGE
    ensures var tokens := Decode(types, data).value;
            Encodable(tokens) && (Encode(tokens) == data <==> Canonical(data, tokens))
  {
    var tokens := Decode(types, data).value;
    DecodedReads(types, data);
    LengthOfEncoding(tokens);
    if Encode(tokens) == data { EncodingsAreCanonical(tokens); }
    if Canonical(data, tokens) { CanonicalIsEncoding(data, tokens); }
  }
}
