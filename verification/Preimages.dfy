/** keccak256 as a free constructor: a buffer is a string of bytes and digests, and the digest of a buffer
    remembers its pre-image, so distinct buffers have distinct digests. */
module Keccak {
  import opened ByteStrings

  datatype Symbol = Byte(value: byte) | Digest(preimage: Buffer)
  type Buffer = seq<Symbol>

  /** The contents of a 32-byte array: 32 plain bytes, or one digest. */
  predicate IsHash(b: Buffer) {
    || (|b| == 1 && b[0].Digest?)
    || (|b| == 32 && forall i :: 0 <= i < |b| ==> b[i].Byte?)
  }

  type Hash = b: Buffer | IsHash(b) witness [Digest([])]

  type Address = b: bytes | |b| == 32 witness Zeros(32)
  type ManagedBuffer = b: bytes | |b| < U32_RANGE
  type BigUint = n: nat | |MinBe(n)| < U32_RANGE

  const ZERO_ADDRESS: Address := Zeros(32)

  function Keccak256(b: Buffer): Hash { [Digest(b)] }

  function Raw(b: bytes): (r: Buffer)
    ensures |r| == |b|
  {
    seq(|b|, i requires 0 <= i < |b| => Byte(b[i]))
  }

  lemma RawInjective(a: bytes, b: bytes)
    requires Raw(a) == Raw(b)
    ensures a == b
  {
    forall i | 0 <= i < |a| ensures a[i] == b[i] {
      assert Raw(a)[i] == Raw(b)[i];
    }
  }
}

/** The nested codec behind every hashed pre-image, and why the fields can be read back from it. */
module Preimages {
  import opened ByteStrings
  import opened Keccak

  function NestedU32(n: nat): Buffer { Raw(Be(n, 4)) }
  function NestedBytes(b: ManagedBuffer): Buffer { NestedU32(|b|) + Raw(b) }
  function NestedBig(n: BigUint): Buffer { NestedBytes(MinBe(n)) }

  // Each field codec is a prefix code: from equal concatenations, the first field and the rest are equal.

  lemma Split(a: Buffer, r: Buffer, b: Buffer, s: Buffer)
    requires |a| == |b| && a + r == b + s
    ensures a == b && r == s
  {
    assert a == (a + r)[..|a|] && b == (b + s)[..|b|];
    assert r == (a + r)[|a|..] && s == (b + s)[|b|..];
  }

  lemma HashPrefix(a: Hash, r: Buffer, b: Hash, s: Buffer)
    requires a + r == b + s
    ensures a == b && r == s
  {
    assert (a + r)[0] == a[0] && (b + s)[0] == b[0];
    Split(a, r, b, s);
  }

  lemma RawPrefix(a: bytes, r: Buffer, b: bytes, s: Buffer)
    requires |a| == |b| && Raw(a) + r == Raw(b) + s
    ensures a == b && r == s
  {
    Split(Raw(a), r, Raw(b), s);
    RawInjective(a, b);
  }

  lemma U32Prefix(m: nat, r: Buffer, n: nat, s: Buffer)
    requires m < U32_RANGE && n < U32_RANGE && NestedU32(m) + r == NestedU32(n) + s
    ensures m == n && r == s
  {
    RawPrefix(Be(m, 4), r, Be(n, 4), s);
    Pow256Small();
    BeInjective(m, n, 4);
  }

  lemma BytesPrefix(a: ManagedBuffer, r: Buffer, b: ManagedBuffer, s: Buffer)
    requires NestedBytes(a) + r == NestedBytes(b) + s
    ensures a == b && r == s
  {
    assert NestedBytes(a) + r == NestedU32(|a|) + (Raw(a) + r);
    assert NestedBytes(b) + s == NestedU32(|b|) + (Raw(b) + s);
    U32Prefix(|a|, Raw(a) + r, |b|, Raw(b) + s);
    RawPrefix(a, r, b, s);
  }

  lemma BigPrefix(m: BigUint, r: Buffer, n: BigUint, s: Buffer)
    requires NestedBig(m) + r == NestedBig(n) + s
    ensures m == n && r == s
  {
    BytesPrefix(MinBe(m), r, MinBe(n), s);
    FromMinBe(m);
    FromMinBe(n);
  }

  // ---------- signer sets ----------

  type Key = b: bytes | |b| == 32 witness Zeros(32)
  datatype WeightedSigner = WeightedSigner(signer: Key, weight: BigUint)
  type SignerList = s: seq<WeightedSigner> | |s| < U32_RANGE
  datatype WeightedSigners = WeightedSigners(signers: SignerList, threshold: BigUint, nonce: Hash)

  function NestedSigners(signers: seq<WeightedSigner>): Buffer {
    if signers == [] then []
    else Raw(signers[0].signer) + NestedBig(signers[0].weight) + NestedSigners(signers[1..])
  }

  function SignersPreimage(ws: WeightedSigners): Buffer {
    NestedU32(|ws.signers|) + (NestedSigners(ws.signers) + (NestedBig(ws.threshold) + ws.nonce))
  }

  function SignersHash(ws: WeightedSigners): Hash { Keccak256(SignersPreimage(ws)) }

  lemma {:induction false} FirstSigner(a: seq<WeightedSigner>, r: Buffer)
    requires a != []
    ensures NestedSigners(a) + r == Raw(a[0].signer) + (NestedBig(a[0].weight) + (NestedSigners(a[1..]) + r))
  {
    hide NestedBig;
  }

  lemma {:induction false} SignersPrefix(a: seq<WeightedSigner>, r: Buffer, b: seq<WeightedSigner>, s: Buffer)
    requires |a| == |b| && NestedSigners(a) + r == NestedSigners(b) + s
    ensures a == b && r == s
  {
    if a == [] {
      assert NestedSigners(a) + r == r && NestedSigners(b) + s == s;
    } else {
      var ra, rb := NestedSigners(a[1..]) + r, NestedSigners(b[1..]) + s;
      hide NestedBig, NestedSigners;
      FirstSigner(a, r);
      FirstSigner(b, s);
      RawPrefix(a[0].signer, NestedBig(a[0].weight) + ra, b[0].signer, NestedBig(b[0].weight) + rb);
      BigPrefix(a[0].weight, ra, b[0].weight, rb);
      SignersPrefix(a[1..], r, b[1..], s);
      assert a == [a[0]] + a[1..] && b == [b[0]] + b[1..];
    }
  }

  /** A signers hash determines the signers, their weights, the threshold and the nonce. */
  lemma SignersHashInjective(a: WeightedSigners, b: WeightedSigners)
    requires SignersHash(a) == SignersHash(b)
    ensures a == b
  {
    hide NestedU32, NestedSigners, NestedBig;
    assert SignersPreimage(a) == SignersPreimage(b) by { SameDigest(SignersPreimage(a), SignersPreimage(b)); }
    var ra, rb := NestedBig(a.threshold) + a.nonce, NestedBig(b.threshold) + b.nonce;
    U32Prefix(|a.signers|, NestedSigners(a.signers) + ra, |b.signers|, NestedSigners(b.signers) + rb);
    SignersPrefix(a.signers, ra, b.signers, rb);
    BigPrefix(a.threshold, a.nonce, b.threshold, b.nonce);
  }

  lemma SameDigest(a: Buffer, b: Buffer)
    requires Keccak256(a) == Keccak256(b)
    ensures a == b
  {
    assert Keccak256(a)[0] == Keccak256(b)[0];
  }

  // ---------- signed data ----------

  datatype CommandType = ApproveMessages | RotateSigners
  {
    function Code(): byte { if ApproveMessages? then 0 else 1 }
  }

  /** "\x19MultiversX Signed Message:\n" */
  const SIGNED_MESSAGE_PREFIX: bytes :=
    [0x19, 77, 117, 108, 116, 105, 118, 101, 114, 115, 88, 32, 83, 105, 103, 110, 101, 100, 32,
     77, 101, 115, 115, 97, 103, 101, 58, 10]

  function DataHash(command: CommandType, buffer: Buffer): Hash {
    Keccak256(Raw([command.Code()]) + buffer)
  }

  function HashToSign(domainSeparator: Hash, signersHash: Hash, dataHash: Hash): Hash {
    Keccak256(Raw(SIGNED_MESSAGE_PREFIX) + (domainSeparator + (signersHash + dataHash)))
  }

  lemma DataHashInjective(c1: CommandType, b1: Buffer, c2: CommandType, b2: Buffer)
    requires DataHash(c1, b1) == DataHash(c2, b2)
    ensures c1 == c2 && b1 == b2
  {
    SameDigest(Raw([c1.Code()]) + b1, Raw([c2.Code()]) + b2);
    RawPrefix([c1.Code()], b1, [c2.Code()], b2);
    assert [c1.Code()][0] == [c2.Code()][0];
  }

  /** A signature is for one gateway, one signer set, one command and one buffer: an approval is never a rotation. */
  lemma SignedDataInjective(d1: Hash, ws1: WeightedSigners, c1: CommandType, b1: Buffer,
                            d2: Hash, ws2: WeightedSigners, c2: CommandType, b2: Buffer)
    requires HashToSign(d1, SignersHash(ws1), DataHash(c1, b1)) == HashToSign(d2, SignersHash(ws2), DataHash(c2, b2))
    ensures d1 == d2 && ws1 == ws2 && c1 == c2 && b1 == b2
  {
    hide SignersHash, DataHash;
    var s1, s2 := SignersHash(ws1), SignersHash(ws2);
    var h1, h2 := DataHash(c1, b1), DataHash(c2, b2);
    var f1: Buffer, f2: Buffer := h1, h2;
    var x1, x2 := s1 + f1, s2 + f2;
    var y1: Buffer, y2: Buffer := d1 + x1, d2 + x2;
    SameDigest(Raw(SIGNED_MESSAGE_PREFIX) + y1, Raw(SIGNED_MESSAGE_PREFIX) + y2);
    Split(Raw(SIGNED_MESSAGE_PREFIX), y1, Raw(SIGNED_MESSAGE_PREFIX), y2);
    HashPrefix(d1, x1, d2, x2);
    HashPrefix(s1, h1, s2, h2);
    SignersHashInjective(ws1, ws2);
    DataHashInjective(c1, b1, c2, b2);
  }

  // ---------- messages and proposals ----------

  datatype CrossChainId = CrossChainId(sourceChain: ManagedBuffer, messageId: ManagedBuffer)

  datatype Message = Message(id: CrossChainId, sourceAddress: ManagedBuffer, contract: Address, payloadHash: Hash)

  /** Both the pre-image of a message's hash and its form inside a batch. */
  function MessagePreimage(m: Message): Buffer {
    NestedBytes(m.id.sourceChain)
    + (NestedBytes(m.id.messageId) + (NestedBytes(m.sourceAddress) + (Raw(m.contract) + m.payloadHash)))
  }

  function MessageHash(id: CrossChainId, sourceAddress: ManagedBuffer, contract: Address, payloadHash: Hash): Hash {
    Keccak256(MessagePreimage(Message(id, sourceAddress, contract, payloadHash)))
  }

  lemma MessageHashInjective(i1: CrossChainId, s1: ManagedBuffer, c1: Address, p1: Hash,
                             i2: CrossChainId, s2: ManagedBuffer, c2: Address, p2: Hash)
    requires MessageHash(i1, s1, c1, p1) == MessageHash(i2, s2, c2, p2)
    ensures i1 == i2 && s1 == s2 && c1 == c2 && p1 == p2
  {
    hide NestedBytes;
    var x1, x2 := Raw(c1) + p1, Raw(c2) + p2;
    var y1, y2 := NestedBytes(s1) + x1, NestedBytes(s2) + x2;
    var z1, z2 := NestedBytes(i1.messageId) + y1, NestedBytes(i2.messageId) + y2;
    SameDigest(NestedBytes(i1.sourceChain) + z1, NestedBytes(i2.sourceChain) + z2);
    BytesPrefix(i1.sourceChain, z1, i2.sourceChain, z2);
    BytesPrefix(i1.messageId, y1, i2.messageId, y2);
    BytesPrefix(s1, x1, s2, x2);
    RawPrefix(c1, p1, c2, p2);
  }

  function ProposalHash(target: Address, callData: ManagedBuffer, nativeValue: BigUint): Hash {
    Keccak256(Raw(target) + (NestedBytes(callData) + NestedBig(nativeValue)))
  }

  lemma ProposalHashInjective(t1: Address, d1: ManagedBuffer, v1: BigUint, t2: Address, d2: ManagedBuffer, v2: BigUint)
    requires ProposalHash(t1, d1, v1) == ProposalHash(t2, d2, v2)
    ensures t1 == t2 && d1 == d2 && v1 == v2
  {
    hide NestedBytes, NestedBig;
    var x1, x2 := NestedBytes(d1) + NestedBig(v1), NestedBytes(d2) + NestedBig(v2);
    SameDigest(Raw(t1) + x1, Raw(t2) + x2);
    RawPrefix(t1, x1, t2, x2);
    BytesPrefix(d1, NestedBig(v1), d2, NestedBig(v2));
    assert NestedBig(v1) + [] == NestedBig(v1) && NestedBig(v2) + [] == NestedBig(v2);
    BigPrefix(v1, [], v2, []);
  }
}

/** Salts, token ids and deploy approvals of the factory. */
module TokenIds {
  import opened ByteStrings
  import opened Keccak
  import opened Preimages

  /** "its-interchain-token-id", "canonical-token-salt", "interchain-token-salt", "deploy-approval", "custom-token-salt" */
  const TOKEN_ID_PREFIX: bytes :=
    [105, 116, 115, 45, 105, 110, 116, 101, 114, 99, 104, 97, 105, 110, 45, 116, 111, 107, 101, 110, 45, 105, 100]
  const CANONICAL_PREFIX: bytes :=
    [99, 97, 110, 111, 110, 105, 99, 97, 108, 45, 116, 111, 107, 101, 110, 45, 115, 97, 108, 116]
  const INTERCHAIN_PREFIX: bytes :=
    [105, 110, 116, 101, 114, 99, 104, 97, 105, 110, 45, 116, 111, 107, 101, 110, 45, 115, 97, 108, 116]
  const APPROVAL_PREFIX: bytes :=
    [100, 101, 112, 108, 111, 121, 45, 97, 112, 112, 114, 111, 118, 97, 108]
  const CUSTOM_PREFIX: bytes :=
    [99, 117, 115, 116, 111, 109, 45, 116, 111, 107, 101, 110, 45, 115, 97, 108, 116]

  /** The three ways a token gets its salt on a chain. */
  datatype TokenOrigin =
    | Interchain(deployer: Address, salt: Hash)
    | Canonical(identifier: bytes)
    | Linked(deployer: Address, salt: Hash)

  function DeploySalt(chainNameHash: Hash, origin: TokenOrigin): Hash {
    match origin
    case Interchain(deployer, salt) =>
      Keccak256(Keccak256(Raw(INTERCHAIN_PREFIX)) + (chainNameHash + (Raw(deployer) + salt)))
    case Canonical(identifier) =>
      Keccak256(Keccak256(Raw(CANONICAL_PREFIX)) + (chainNameHash + Raw(identifier)))
    case Linked(deployer, salt) =>
      Keccak256(Keccak256(Raw(CUSTOM_PREFIX)) + (chainNameHash + (Raw(deployer) + salt)))
  }

  function TokenIdRaw(deploySalt: Hash): Hash {
    Keccak256(Keccak256(Raw(TOKEN_ID_PREFIX)) + deploySalt)
  }

  function TokenId(chainName: bytes, origin: TokenOrigin): Hash {
    TokenIdRaw(DeploySalt(Keccak256(Raw(chainName)), origin))
  }

  function Tagged(tag: bytes, rest: Buffer): Hash {
    Keccak256(Keccak256(Raw(tag)) + rest)
  }

  lemma TaggedInjective(t1: bytes, r1: Buffer, t2: bytes, r2: Buffer)
    requires Tagged(t1, r1) == Tagged(t2, r2)
    ensures t1 == t2 && r1 == r2
  {
    SameDigest(Keccak256(Raw(t1)) + r1, Keccak256(Raw(t2)) + r2);
    HashPrefix(Keccak256(Raw(t1)), r1, Keccak256(Raw(t2)), r2);
    SameDigest(Raw(t1), Raw(t2));
    RawInjective(t1, t2);
  }

  function SaltTag(origin: TokenOrigin): bytes {
    match origin
    case Interchain(_, _) => INTERCHAIN_PREFIX
    case Canonical(_) => CANONICAL_PREFIX
    case Linked(_, _) => CUSTOM_PREFIX
  }

  function SaltFields(origin: TokenOrigin): Buffer {
    match origin
    case Interchain(deployer, salt) => Raw(deployer) + salt
    case Canonical(identifier) => Raw(identifier)
    case Linked(deployer, salt) => Raw(deployer) + salt
  }

  lemma SaltIsTagged(chainNameHash: Hash, origin: TokenOrigin)
    ensures DeploySalt(chainNameHash, origin) == Tagged(SaltTag(origin), chainNameHash + SaltFields(origin))
  {
  }

  lemma TagsDiffer(a: TokenOrigin, b: TokenOrigin)
    requires SaltTag(a) == SaltTag(b)
    ensures a.Interchain? == b.Interchain? && a.Canonical? == b.Canonical?
  {
    assert |INTERCHAIN_PREFIX| == 21 && |CANONICAL_PREFIX| == 20 && |CUSTOM_PREFIX| == 17;
  }

  lemma SaltFieldsInjective(a: TokenOrigin, b: TokenOrigin)
    requires a.Interchain? == b.Interchain? && a.Canonical? == b.Canonical?
    requires SaltFields(a) == SaltFields(b)
    ensures a == b
  {
    if a.Canonical? {
      RawInjective(a.identifier, b.identifier);
    } else {
      RawPrefix(a.deployer, a.salt, b.deployer, b.salt);
    }
  }

  /** A token id determines the chain it was made on, the kind of token, and all inputs of its kind;
      interchain, canonical and linked ids never meet. */
  lemma TokenIdInjective(c1: bytes, a: TokenOrigin, c2: bytes, b: TokenOrigin)
    requires TokenId(c1, a) == TokenId(c2, b)
    ensures c1 == c2 && a == b
  {
    hide SaltTag, SaltFields, DeploySalt;
    var n1, n2 := Keccak256(Raw(c1)), Keccak256(Raw(c2));
    var s1, s2 := DeploySalt(n1, a), DeploySalt(n2, b);
    TaggedInjective(TOKEN_ID_PREFIX, s1, TOKEN_ID_PREFIX, s2);
    SaltIsTagged(n1, a);
    SaltIsTagged(n2, b);
    TaggedInjective(SaltTag(a), n1 + SaltFields(a), SaltTag(b), n2 + SaltFields(b));
    HashPrefix(n1, SaltFields(a), n2, SaltFields(b));
    SameDigest(Raw(c1), Raw(c2));
    RawInjective(c1, c2);
    TagsDiffer(a, b);
    SaltFieldsInjective(a, b);
  }

  datatype DeployApproval = DeployApproval(minter: Address, tokenId: Hash, destinationChain: ManagedBuffer)

  function DeployApprovalKey(approval: DeployApproval): Hash {
    Tagged(APPROVAL_PREFIX,
           Raw(approval.minter) + (approval.tokenId + NestedBytes(approval.destinationChain)))
  }

  /** An approval key determines minter, token and destination. */
  lemma DeployApprovalKeyInjective(a: DeployApproval, b: DeployApproval)
    requires DeployApprovalKey(a) == DeployApprovalKey(b)
    ensures a == b
  {
    hide NestedBytes, Tagged;
    var ra := a.tokenId + NestedBytes(a.destinationChain);
    var rb := b.tokenId + NestedBytes(b.destinationChain);
    TaggedInjective(APPROVAL_PREFIX, Raw(a.minter) + ra, APPROVAL_PREFIX, Raw(b.minter) + rb);
    RawPrefix(a.minter, ra, b.minter, rb);
    HashPrefix(a.tokenId, NestedBytes(a.destinationChain), b.tokenId, NestedBytes(b.destinationChain));
    assert NestedBytes(a.destinationChain) + [] == NestedBytes(b.destinationChain) + [];
    BytesPrefix(a.destinationChain, [], b.destinationChain, []);
  }
}
