/** What is hashed, signed and sent in nested form, field by field, with the texts written out. */
module HashTables {
  import opened ByteStrings
  import opened Keccak
  import opened Preimages
  import opened TokenIds
  import Gov = GovernanceSpec
  import Service = TokenServiceSpec

  /** A four-byte number, a string or a large number behind its four-byte length, plain bytes, and a digest. */
  datatype Field =
    | Count(count: nat)
    | Text(text: ManagedBuffer)
    | Big(value: BigUint)
    | Plain(raw: bytes)
    | Embedded(hash: Hash)

  function Encoded(f: Field): Buffer {
    match f
    case Count(count) => Raw(Be(count, 4))
    case Text(text) => Raw(Be(|text|, 4)) + Raw(text)
    case Big(value) => Raw(Be(|MinBe(value)|, 4)) + Raw(MinBe(value))
    case Plain(raw) => Raw(raw)
    case Embedded(hash) => hash
  }

  function Layout(fields: seq<Field>): Buffer {
    if fields == [] then [] else Encoded(fields[0]) + Layout(fields[1..])
  }

  predicate IsAscii(text: string) { forall i :: 0 <= i < |text| ==> text[i] as int < 128 }

  function Ascii(text: string): bytes
    requires IsAscii(text)
  {
    seq(|text|, i requires 0 <= i < |text| => text[i] as int)
  }

  lemma {:induction false} LayoutNext(f: Field, rest: seq<Field>)
    ensures Layout([f] + rest) == Encoded(f) + Layout(rest)
  {
    assert ([f] + rest)[1..] == rest;
  }

  lemma {:induction false} LayoutConcat(a: seq<Field>, b: seq<Field>)
    ensures Layout(a + b) == Layout(a) + Layout(b)
    decreases |a|
  {
    hide Encoded;
    if a == [] {
      assert a + b == b;
      assert Layout(a) + Layout(b) == Layout(b);
    } else {
      assert a + b == [a[0]] + (a[1..] + b);
      LayoutNext(a[0], a[1..] + b);
      LayoutConcat(a[1..], b);
    }
  }

  lemma {:induction false} OneField(a: Field)
    ensures Layout([a]) == Encoded(a)
  {
    hide Encoded;
    assert Encoded(a) + Layout([]) == Encoded(a);
  }

  lemma {:induction false} TwoFields(a: Field, b: Field)
    ensures Layout([a, b]) == Encoded(a) + Encoded(b)
  {
    hide Encoded;
    LayoutNext(a, [b]);
    OneField(b);
    assert [a] + [b] == [a, b];
  }

  lemma {:induction false} ThreeFields(a: Field, b: Field, c: Field)
    ensures Layout([a, b, c]) == Encoded(a) + (Encoded(b) + Encoded(c))
  {
    hide Encoded, Layout;
    LayoutNext(a, [b, c]);
    TwoFields(b, c);
    assert [a] + [b, c] == [a, b, c];
  }

  lemma {:induction false} FourFields(a: Field, b: Field, c: Field, d: Field)
    ensures Layout([a, b, c, d]) == Encoded(a) + (Encoded(b) + (Encoded(c) + Encoded(d)))
  {
    hide Encoded, Layout;
    LayoutNext(a, [b, c, d]);
    ThreeFields(b, c, d);
    assert [a] + [b, c, d] == [a, b, c, d];
  }

  lemma {:induction false} FiveFields(a: Field, b: Field, c: Field, d: Field, e: Field)
    ensures Layout([a, b, c, d, e]) == Encoded(a) + (Encoded(b) + (Encoded(c) + (Encoded(d) + Encoded(e))))
  {
    hide Encoded, Layout;
    LayoutNext(a, [b, c, d, e]);
    FourFields(b, c, d, e);
    assert [a] + [b, c, d, e] == [a, b, c, d, e];
  }

  // ---------- the gateway ----------

  /** A message: source chain, message id, source address, contract, hash of the payload. */
  lemma {:induction false} MessageTable(m: Message)
    ensures MessagePreimage(m)
         == Layout([Text(m.id.sourceChain), Text(m.id.messageId), Text(m.sourceAddress), Plain(m.contract), Embedded(m.payloadHash)])
    ensures MessageHash(m.id, m.sourceAddress, m.contract, m.payloadHash) == Keccak256(MessagePreimage(m))
  {
    hide Layout;
    FiveFields(Text(m.id.sourceChain), Text(m.id.messageId), Text(m.sourceAddress), Plain(m.contract), Embedded(m.payloadHash));
  }

  /** What is signed: the byte 25 and the text, the domain separator, the hash of the signers, the hash of the data; and
      the data is the command, 0 to approve and 1 to rotate, with its raw buffer. */
  lemma {:induction false} SignedTable(domain: Hash, signersHash: Hash, command: CommandType, raw: Buffer)
    ensures IsAscii("MultiversX Signed Message:\n")
    ensures HashToSign(domain, signersHash, DataHash(command, raw))
         == Keccak256(Layout([Plain([25] + Ascii("MultiversX Signed Message:\n")), Embedded(domain), Embedded(signersHash),
                              Embedded(Keccak256(Layout([Plain([if command.RotateSigners? then 1 else 0])]) + raw))]))
  {
    SignedText();
    hide Layout, Ascii;
    var data := Keccak256(Layout([Plain([if command.RotateSigners? then 1 else 0])]) + raw);
    OneField(Plain([if command.RotateSigners? then 1 else 0]));
    FourFields(Plain([25] + Ascii("MultiversX Signed Message:\n")), Embedded(domain), Embedded(signersHash), Embedded(data));
  }

  lemma SignedText()
    ensures IsAscii("MultiversX Signed Message:\n") && [25] + Ascii("MultiversX Signed Message:\n") == SIGNED_MESSAGE_PREFIX
  {
  }

  function SignerFields(signers: seq<WeightedSigner>): seq<Field> {
    if signers == [] then [] else [Plain(signers[0].signer), Big(signers[0].weight)] + SignerFields(signers[1..])
  }

  lemma {:induction false} SignerList(signers: seq<WeightedSigner>)
    ensures NestedSigners(signers) == Layout(SignerFields(signers))
  {
    if signers != [] {
      hide Layout;
      TwoFields(Plain(signers[0].signer), Big(signers[0].weight));
      LayoutConcat([Plain(signers[0].signer), Big(signers[0].weight)], SignerFields(signers[1..]));
      SignerList(signers[1..]);
    }
  }

  /** A signer set: how many signers, each with its key and its weight, then the threshold and the nonce. */
  lemma {:induction false} SignersTable(ws: WeightedSigners)
    ensures SignersHash(ws) == Keccak256(SignersPreimage(ws))
    ensures SignersPreimage(ws)
         == Layout([Count(|ws.signers|)] + SignerFields(ws.signers) + [Big(ws.threshold), Embedded(ws.nonce)])
  {
    hide Layout, SignerFields, NestedSigners;
    var fields := SignerFields(ws.signers);
    SignerList(ws.signers);
    OneField(Count(|ws.signers|));
    TwoFields(Big(ws.threshold), Embedded(ws.nonce));
    LayoutConcat([Count(|ws.signers|)], fields);
    LayoutConcat([Count(|ws.signers|)] + fields, [Big(ws.threshold), Embedded(ws.nonce)]);
  }

  // ---------- governance ----------

  /** A proposal: target, call data, value. */
  lemma {:induction false} ProposalTable(target: Address, callData: ManagedBuffer, value: BigUint)
    ensures ProposalHash(target, callData, value) == Keccak256(Layout([Plain(target), Text(callData), Big(value)]))
  {
    hide Layout;
    ThreeFields(Plain(target), Text(callData), Big(value));
  }

  const COMMANDS: seq<Gov.Command> :=
    [Gov.ScheduleTimeLockProposal, Gov.CancelTimeLockProposal, Gov.ApproveOperatorProposal, Gov.CancelOperatorApproval]

  lemma CommandCodes(code: byte)
    ensures Gov.CommandOf(code) == if code < 4 then Some(COMMANDS[code]) else None
    ensures code < 4 ==> Gov.CommandCode(COMMANDS[code]) == code
  {
  }

  /** A command: its number in the list above, target, call data, value, and the time as eight bytes. */
  lemma {:induction false} CommandTable(p: Gov.ExecutePayload)
    ensures Gov.EncodePayload(p)
         == Layout([Plain([Gov.CommandCode(p.command)]), Plain(p.proposal.target), Text(p.proposal.callData),
                    Big(p.proposal.nativeValue), Plain(Be(p.eta, 8))])
  {
    hide Layout;
    FiveFields(Plain([Gov.CommandCode(p.command)]), Plain(p.proposal.target), Text(p.proposal.callData),
               Big(p.proposal.nativeValue), Plain(Be(p.eta, 8)));
  }

  // ---------- token ids ----------

  /** The hash of a text is in front of what is hashed under it. */
  function Under(text: string, fields: seq<Field>): Hash
    requires IsAscii(text)
  {
    Keccak256(Layout([Embedded(Keccak256(Raw(Ascii(text))))] + fields))
  }

  lemma {:induction false} UnderIs(text: string, fields: seq<Field>)
    requires IsAscii(text)
    ensures Under(text, fields) == Keccak256(Keccak256(Raw(Ascii(text))) + Layout(fields))
  {
    LayoutNext(Embedded(Keccak256(Raw(Ascii(text)))), fields);
  }

  predicate TextsAscii() {
    && IsAscii("its-interchain-token-id") && IsAscii("interchain-token-salt") && IsAscii("canonical-token-salt")
    && IsAscii("custom-token-salt") && IsAscii("deploy-approval") && IsAscii("axelar") && IsAscii("EGLD-000000")
  }

  lemma IdText()
    ensures IsAscii("its-interchain-token-id") && TOKEN_ID_PREFIX == Ascii("its-interchain-token-id")
  {
  }

  lemma InterchainText()
    ensures IsAscii("interchain-token-salt") && INTERCHAIN_PREFIX == Ascii("interchain-token-salt")
  {
  }

  lemma CanonicalText()
    ensures IsAscii("canonical-token-salt") && CANONICAL_PREFIX == Ascii("canonical-token-salt")
  {
  }

  lemma CustomText()
    ensures IsAscii("custom-token-salt") && CUSTOM_PREFIX == Ascii("custom-token-salt")
  {
  }

  lemma ApprovalText()
    ensures IsAscii("deploy-approval") && APPROVAL_PREFIX == Ascii("deploy-approval")
  {
  }

  lemma HubText()
    ensures IsAscii("axelar") && Service.ITS_HUB_CHAIN_NAME == Ascii("axelar")
  {
  }

  lemma EgldText()
    ensures IsAscii("EGLD-000000") && Service.ESDT_EGLD_IDENTIFIER == Ascii("EGLD-000000")
  {
  }

  /** The texts behind the constants. */
  lemma Texts()
    ensures TextsAscii()
    ensures TOKEN_ID_PREFIX == Ascii("its-interchain-token-id") && INTERCHAIN_PREFIX == Ascii("interchain-token-salt")
    ensures CANONICAL_PREFIX == Ascii("canonical-token-salt") && CUSTOM_PREFIX == Ascii("custom-token-salt")
    ensures APPROVAL_PREFIX == Ascii("deploy-approval")
    ensures Service.ITS_HUB_CHAIN_NAME == Ascii("axelar") && Service.ESDT_EGLD_IDENTIFIER == Ascii("EGLD-000000")
  {
    hide IsAscii, Ascii;
    IdText();
    InterchainText();
    CanonicalText();
    CustomText();
    ApprovalText();
    HubText();
    EgldText();
  }

  function SaltOf(chainName: bytes, origin: TokenOrigin): Hash
    requires TextsAscii()
  {
    var chain := Embedded(Keccak256(Raw(chainName)));
    match origin
    case Interchain(deployer, salt) => Under("interchain-token-salt", [chain, Plain(deployer), Embedded(salt)])
    case Canonical(identifier) => Under("canonical-token-salt", [chain, Plain(identifier)])
    case Linked(deployer, salt) => Under("custom-token-salt", [chain, Plain(deployer), Embedded(salt)])
  }

  /** A token id: the salt of its origin, made of the chain and the origin's own fields. */
  lemma {:induction false} TokenIdTable(chainName: bytes, origin: TokenOrigin)
    ensures TextsAscii()
    ensures TokenId(chainName, origin) == Under("its-interchain-token-id", [Embedded(SaltOf(chainName, origin))])
  {
    Texts();
    SaltTable(chainName, origin);
    hide Layout, Under, SaltOf, DeploySalt, Ascii;
    UnderIs("its-interchain-token-id", [Embedded(SaltOf(chainName, origin))]);
    OneField(Embedded(SaltOf(chainName, origin)));
  }

  lemma {:induction false} SaltTable(chainName: bytes, origin: TokenOrigin)
    ensures TextsAscii()
    ensures DeploySalt(Keccak256(Raw(chainName)), origin) == SaltOf(chainName, origin)
  {
    Texts();
    hide Layout, Under, Ascii;
    var chain := Embedded(Keccak256(Raw(chainName)));
    if origin.Canonical? {
      UnderIs("canonical-token-salt", [chain, Plain(origin.identifier)]);
      TwoFields(chain, Plain(origin.identifier));
    } else {
      var fields := [chain, Plain(origin.deployer), Embedded(origin.salt)];
      UnderIs(if origin.Interchain? then "interchain-token-salt" else "custom-token-salt", fields);
      ThreeFields(chain, Plain(origin.deployer), Embedded(origin.salt));
    }
  }

  /** The key of a deploy approval: minter, token id, destination chain. */
  lemma {:induction false} ApprovalTable(a: DeployApproval)
    ensures TextsAscii()
    ensures DeployApprovalKey(a) == Under("deploy-approval", [Plain(a.minter), Embedded(a.tokenId), Text(a.destinationChain)])
  {
    Texts();
    hide Layout, Under, Ascii;
    UnderIs("deploy-approval", [Plain(a.minter), Embedded(a.tokenId), Text(a.destinationChain)]);
    ThreeFields(Plain(a.minter), Embedded(a.tokenId), Text(a.destinationChain));
  }
}
