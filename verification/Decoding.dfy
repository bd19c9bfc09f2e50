/** Reading nested encodings back: signer sets, message batches and governance commands. As in the library, lengths and
    fixed-width numbers are big-endian, numbers may have leading zeros, and everything must be used up. */
module Decoding {
  import opened ByteStrings
  import opened Keccak
  import opened Preimages

  datatype Parsed<+T> = Parsed(value: T, rest: Buffer)

  // ---------- fields ----------

  function ReadBytes(b: Buffer, n: nat): (r: Option<Parsed<bytes>>)
    ensures r.Some? ==> |r.value.value| == n && |r.value.rest| == |b| - n
  {
    if n <= |b| && (forall i :: 0 <= i < n ==> b[i].Byte?)
    then Some(Parsed(seq(n, i requires 0 <= i < n => b[i].value), b[n..])) else None
  }

  lemma ReadBytesBack(x: bytes, rest: Buffer)
    ensures ReadBytes(Raw(x) + rest, |x|) == Some(Parsed(x, rest))
  {
    var b := Raw(x) + rest;
    assert forall i :: 0 <= i < |x| ==> b[i] == Byte(x[i]);
    assert b[|x|..] == rest;
    assert ReadBytes(b, |x|).Some?;
    assert ReadBytes(b, |x|).value.value == x;
  }

  function ReadU32(b: Buffer): (r: Option<Parsed<nat>>)
    ensures r.Some? ==> r.value.value < U32_RANGE && |r.value.rest| < |b|
  {
    match ReadBytes(b, 4)
    case None => None
    case Some(p) =>
      U32OfBytes(p.value);
      Some(Parsed(FromBe(p.value), p.rest))
  }

  lemma {:induction false} U32OfBytes(x: bytes)
    requires |x| == 4
    ensures FromBe(x) < U32_RANGE
  {
    BeFromBe(x);
    Pow256Small();
  }

  lemma ReadU32Back(n: nat, rest: Buffer)
    requires n < U32_RANGE
    ensures ReadU32(NestedU32(n) + rest) == Some(Parsed(n, rest))
  {
    ReadBytesBack(Be(n, 4), rest);
    Pow256Small();
    FromBeBe(n, 4);
  }

  function ReadNested(b: Buffer): (r: Option<Parsed<ManagedBuffer>>)
    ensures r.Some? ==> |r.value.rest| < |b|
  {
    match ReadU32(b)
    case None => None
    case Some(len) =>
      match ReadBytes(len.rest, len.value)
      case None => None
      case Some(p) => Some(Parsed(p.value, p.rest))
  }

  lemma ReadNestedBack(x: ManagedBuffer, rest: Buffer)
    ensures ReadNested(NestedBytes(x) + rest) == Some(Parsed(x, rest))
  {
    hide ReadU32, ReadBytes, NestedU32;
    assert NestedBytes(x) + rest == NestedU32(|x|) + (Raw(x) + rest);
    ReadU32Back(|x|, Raw(x) + rest);
    ReadBytesBack(x, rest);
  }

  function ReadBig(b: Buffer): (r: Option<Parsed<BigUint>>)
    ensures r.Some? ==> |r.value.rest| < |b|
  {
    match ReadNested(b)
    case None => None
    case Some(p) =>
      BigOfBytes(p.value);
      Some(Parsed(FromBe(p.value), p.rest))
  }

  lemma {:induction false} BigOfBytes(x: bytes)
    requires |x| < U32_RANGE
    ensures |MinBe(FromBe(x))| < U32_RANGE
  {
    BeFromBe(x);
    MinBeFits(FromBe(x), |x|);
  }

  lemma ReadBigBack(n: BigUint, rest: Buffer)
    ensures ReadBig(NestedBig(n) + rest) == Some(Parsed(n, rest))
  {
    hide ReadNested, NestedBytes;
    ReadNestedBack(MinBe(n), rest);
    FromMinBe(n);
  }

  /** A 32-byte array holds a digest or 32 plain bytes. */
  function ReadHash(b: Buffer): (r: Option<Parsed<Hash>>)
    ensures r.Some? ==> |r.value.rest| < |b|
  {
    if b != [] && b[0].Digest? then Some(Parsed(b[..1], b[1..]))
    else if |b| >= 32 && IsHash(b[..32]) then Some(Parsed(b[..32], b[32..]))
    else None
  }

  lemma ReadHashBack(h: Hash, rest: Buffer)
    ensures ReadHash(h + rest) == Some(Parsed(h, rest))
  {
    var b: Buffer := h;
    assert (b + rest)[0] == b[0];
    assert (b + rest)[..|b|] == b && (b + rest)[|b|..] == rest;
  }

  // ---------- signer sets ----------

  function ReadSigners(b: Buffer, n: nat): (r: Option<Parsed<seq<WeightedSigner>>>)
    ensures r.Some? ==> |r.value.value| == n
    decreases n
  {
    if n == 0 then Some(Parsed([], b))
    else
      match ReadBytes(b, 32)
      case None => None
      case Some(key) =>
        match ReadBig(key.rest)
        case None => None
        case Some(weight) =>
          match ReadSigners(weight.rest, n - 1)
          case None => None
          case Some(p) => Some(Parsed([WeightedSigner(key.value, weight.value)] + p.value, p.rest))
  }

  lemma {:induction false} ReadSignersBack(signers: seq<WeightedSigner>, rest: Buffer)
    ensures ReadSigners(NestedSigners(signers) + rest, |signers|) == Some(Parsed(signers, rest))
  {
    hide ReadBytes, ReadBig, NestedBig, Raw;
    if signers == [] {
      assert NestedSigners(signers) + rest == rest;
    } else {
      FirstSigner(signers, rest);
      var tail := NestedSigners(signers[1..]) + rest;
      ReadBytesBack(signers[0].signer, NestedBig(signers[0].weight) + tail);
      ReadBigBack(signers[0].weight, tail);
      ReadSignersBack(signers[1..], rest);
      assert [signers[0]] + signers[1..] == signers;
    }
  }

  function DecodeSigners(b: Buffer): Option<WeightedSigners> {
    match ReadU32(b)
    case None => None
    case Some(count) =>
      match ReadSigners(count.rest, count.value)
      case None => None
      case Some(signers) =>
        match ReadBig(signers.rest)
        case None => None
        case Some(threshold) =>
          match ReadHash(threshold.rest)
          case None => None
          case Some(nonce) =>
            if nonce.rest == [] then Some(WeightedSigners(signers.value, threshold.value, nonce.value)) else None
  }

  /** The buffer that encodes a signer set, which is also the pre-image of its hash, decodes to that set. */
  lemma SignersDecode(ws: WeightedSigners)
    ensures DecodeSigners(SignersPreimage(ws)) == Some(ws)
  {
    hide ReadU32, ReadSigners, ReadBig, ReadHash, NestedU32, NestedSigners, NestedBig;
    var nonce: Buffer := ws.nonce;
    ReadU32Back(|ws.signers|, NestedSigners(ws.signers) + (NestedBig(ws.threshold) + nonce));
    ReadSignersBack(ws.signers, NestedBig(ws.threshold) + nonce);
    ReadBigBack(ws.threshold, nonce);
    ReadHashBack(ws.nonce, []);
    assert nonce + [] == nonce;
  }

  // ---------- batches ----------

  function ReadMessage(b: Buffer): (r: Option<Parsed<Message>>)
    ensures r.Some? ==> |r.value.rest| < |b|
  {
    match ReadNested(b)
    case None => None
    case Some(chain) =>
      match ReadNested(chain.rest)
      case None => None
      case Some(id) =>
        match ReadNested(id.rest)
        case None => None
        case Some(source) =>
          match ReadBytes(source.rest, 32)
          case None => None
          case Some(contract) =>
            match ReadHash(contract.rest)
            case None => None
            case Some(hash) =>
              Some(Parsed(Message(CrossChainId(chain.value, id.value), source.value, contract.value, hash.value), hash.rest))
  }

  lemma ReadMessageBack(m: Message, rest: Buffer)
    ensures ReadMessage(MessagePreimage(m) + rest) == Some(Parsed(m, rest))
  {
    hide ReadNested, ReadBytes, ReadHash, NestedBytes, Raw;
    var hash: Buffer := m.payloadHash;
    var r1 := hash + rest;
    var r2 := Raw(m.contract) + r1;
    var r3 := NestedBytes(m.sourceAddress) + r2;
    var r4 := NestedBytes(m.id.messageId) + r3;
    assert MessagePreimage(m) + rest == NestedBytes(m.id.sourceChain) + r4;
    ReadNestedBack(m.id.sourceChain, r4);
    ReadNestedBack(m.id.messageId, r3);
    ReadNestedBack(m.sourceAddress, r2);
    ReadBytesBack(m.contract, r1);
    ReadHashBack(m.payloadHash, rest);
  }

  /** Messages one after the other until the buffer is used up. */
  function DecodeBatch(b: Buffer): Option<seq<Message>>
    decreases |b|
  {
    if b == [] then Some([])
    else
      match ReadMessage(b)
      case None => None
      case Some(p) =>
        match DecodeBatch(p.rest)
        case None => None
        case Some(batch) => Some([p.value] + batch)
  }

  function EncodeBatch(batch: seq<Message>): Buffer {
    if batch == [] then [] else MessagePreimage(batch[0]) + EncodeBatch(batch[1..])
  }

  lemma {:induction false} BatchDecodes(batch: seq<Message>)
    ensures DecodeBatch(EncodeBatch(batch)) == Some(batch)
  {
    hide ReadMessage, MessagePreimage, DecodeBatch;
    if batch == [] {
      EmptyBatch();
    } else {
      ReadMessageBack(batch[0], EncodeBatch(batch[1..]));
      MessageNotEmpty(batch[0]);
      BatchDecodes(batch[1..]);
      NextMessage(EncodeBatch(batch), batch[0], EncodeBatch(batch[1..]));
      assert [batch[0]] + batch[1..] == batch;
    }
  }

  lemma EmptyBatch()
    ensures DecodeBatch([]) == Some([])
  {
  }

  lemma {:induction false} NextMessage(b: Buffer, m: Message, rest: Buffer)
    requires b != [] && ReadMessage(b) == Some(Parsed(m, rest)) && DecodeBatch(rest).Some?
    ensures DecodeBatch(b) == Some([m] + DecodeBatch(rest).value)
  {
    hide ReadMessage;
  }

  lemma MessageNotEmpty(m: Message)
    ensures |MessagePreimage(m)| > 0
  {
  }

  // ---------- more bytes behind ----------

  lemma BytesThenMore(b: Buffer, n: nat, more: Buffer)
    requires ReadBytes(b, n).Some?
    ensures ReadBytes(b + more, n) == Some(Parsed(ReadBytes(b, n).value.value, ReadBytes(b, n).value.rest + more))
  {
    assert forall i :: 0 <= i < n ==> (b + more)[i] == b[i];
    assert (b + more)[n..] == b[n..] + more;
    assert ReadBytes(b + more, n).Some?;
    assert ReadBytes(b + more, n).value.value == ReadBytes(b, n).value.value;
  }

  lemma NestedThenMore(b: Buffer, more: Buffer)
    requires ReadNested(b).Some?
    ensures ReadNested(b + more) == Some(Parsed(ReadNested(b).value.value, ReadNested(b).value.rest + more))
  {
    hide ReadBytes;
    BytesThenMore(b, 4, more);
    BytesThenMore(ReadU32(b).value.rest, ReadU32(b).value.value, more);
  }

  lemma BigThenMore(b: Buffer, more: Buffer)
    requires ReadBig(b).Some?
    ensures ReadBig(b + more) == Some(Parsed(ReadBig(b).value.value, ReadBig(b).value.rest + more))
  {
    hide ReadNested;
    NestedThenMore(b, more);
  }

  lemma HashThenMore(b: Buffer, more: Buffer)
    requires ReadHash(b).Some?
    ensures ReadHash(b + more) == Some(Parsed(ReadHash(b).value.value, ReadHash(b).value.rest + more))
  {
    assert (b + more)[0] == b[0];
    if b[0].Digest? {
      assert (b + more)[..1] == b[..1] && (b + more)[1..] == b[1..] + more;
    } else {
      assert (b + more)[..32] == b[..32] && (b + more)[32..] == b[32..] + more;
    }
  }

  lemma {:induction false} SignersThenMore(b: Buffer, n: nat, more: Buffer)
    requires ReadSigners(b, n).Some?
    ensures ReadSigners(b + more, n) == Some(Parsed(ReadSigners(b, n).value.value, ReadSigners(b, n).value.rest + more))
    decreases n
  {
    hide ReadBytes, ReadBig;
    if n > 0 {
      var key := ReadBytes(b, 32).value;
      var weight := ReadBig(key.rest).value;
      BytesThenMore(b, 32, more);
      BigThenMore(key.rest, more);
      SignersThenMore(weight.rest, n - 1, more);
    }
  }

  /** Nothing may follow a signer set. */
  lemma SignersUseAll(b: Buffer, more: Buffer)
    requires DecodeSigners(b).Some? && more != []
    ensures DecodeSigners(b + more).None?
  {
    hide ReadBytes, ReadSigners, ReadBig, ReadHash;
    var count := ReadU32(b).value;
    var signers := ReadSigners(count.rest, count.value).value;
    var threshold := ReadBig(signers.rest).value;
    BytesThenMore(b, 4, more);
    SignersThenMore(count.rest, count.value, more);
    BigThenMore(signers.rest, more);
    HashThenMore(threshold.rest, more);
  }

  lemma MessageThenMore(b: Buffer, more: Buffer)
    requires ReadMessage(b).Some?
    ensures ReadMessage(b + more) == Some(Parsed(ReadMessage(b).value.value, ReadMessage(b).value.rest + more))
  {
    hide ReadNested, ReadBytes, ReadHash;
    var chain := ReadNested(b).value;
    var id := ReadNested(chain.rest).value;
    var source := ReadNested(id.rest).value;
    var contract := ReadBytes(source.rest, 32).value;
    NestedThenMore(b, more);
    NestedThenMore(chain.rest, more);
    NestedThenMore(id.rest, more);
    BytesThenMore(source.rest, 32, more);
    HashThenMore(contract.rest, more);
  }

  /** What follows a batch must be further messages, and then the messages of both are decoded, in order. */
  lemma {:induction false} BatchesConcatenate(b: Buffer, more: Buffer)
    requires DecodeBatch(b).Some?
    ensures DecodeBatch(b + more).Some? <==> DecodeBatch(more).Some?
    ensures DecodeBatch(more).Some? ==> DecodeBatch(b + more) == Some(DecodeBatch(b).value + DecodeBatch(more).value)
    decreases |b|
  {
    hide ReadMessage;
    if b == [] {
      assert b + more == more;
      assert DecodeBatch(b) == Some([]);
      assert DecodeBatch(more).Some? ==> [] + DecodeBatch(more).value == DecodeBatch(more).value;
    } else {
      var p := ReadMessage(b).value;
      MessageThenMore(b, more);
      BatchesConcatenate(p.rest, more);
      if DecodeBatch(more).Some? {
        assert [p.value] + (DecodeBatch(p.rest).value + DecodeBatch(more).value)
            == [p.value] + DecodeBatch(p.rest).value + DecodeBatch(more).value;
      }
    }
  }
}
