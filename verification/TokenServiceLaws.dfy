/** When the service sends and when it pays out, condition by condition, and what that leaves unchanged. */
module TokenServiceLaws {
  import opened ByteStrings
  import opened ChainTypes
  import opened Keccak
  import opened Preimages
  import opened Abi
  import opened Payloads
  import opened GatewaySpec
  import opened TokenServiceSpec
  import TM = TokenManagerSpec
  import TMR = TokenManagerRuns
  import Laws = TokenManagerLaws
  import FlowLimit

  // ---------- the manager in the service's hands ----------

  /** The manager takes the tokens exactly from its own service, in its own token, within the flow limit, and, where it
      burns, if the token can be burned; and the caller has them. */
  predicate CanTake(s: TM.TmState, now: nat, service: Address, caller: Address, token: TokenIdentifier, amount: nat) {
    && service == s.service && s.identifier == Some(token) && amount <= TM.Balance(s.holders, caller)
    && (Laws.Locking(s.kind) || token.Esdt?)
    && FlowLimit.Allows(s.flow, now, FlowLimit.Out, amount)
  }

  lemma TakenExactly(s: TM.TmState, now: nat, service: Address, caller: Address, split: TransferAndGas)
    ensures Taken(s, now, service, caller, split).Some? <==> CanTake(s, now, service, caller, split.token, split.amount)
  {
    hide FlowLimit.Allows;
    if TM.Sent(s, caller, service, split.amount).Some? {
      var sent := TM.Sent(s, caller, service, split.amount).value;
      SentMoves(s, caller, service, split.amount, service);
      assert TM.Balance(sent.holders, service) >= split.amount by {
        assert service == caller ==> TM.Balance(s.holders, service) >= split.amount;
      }
      Laws.CallsExactly(sent, now, service, TM.TakeToken(split.token, split.amount));
      hide TM.Take, TM.Balance;
    }
  }

  /** The manager pays out exactly to its own service's order, within the flow limit, if it has locked enough or has a
      token it can mint. */
  predicate CanGive(s: TM.TmState, now: nat, service: Address, amount: nat) {
    && service == s.service
    && (if Laws.Locking(s.kind) then amount <= s.locked else Laws.IsEsdt(s.identifier))
    && FlowLimit.Allows(s.flow, now, FlowLimit.In, amount)
  }

  lemma GivenExactly(s: TM.TmState, now: nat, service: Address, destination: Address, amount: nat, withData: bool)
    ensures Given(s, now, service, destination, amount, withData).Some? <==> CanGive(s, now, service, amount)
  {
    hide FlowLimit.Allows;
    var first := if withData then service else destination;
    Laws.CallsExactly(s, now, service, TM.GiveToken(first, amount));
    if TM.Give(s, now, service, first, amount).Some? { GivenIsHeld(s, now, service, first, amount); }
    hide TM.Give, TM.Sent;
  }

  // ---------- sending ----------

  /** Only trusted chains, never the hub by its own name, "axelar", and only what both messages have room for. */
  predicate Routable(trusted: set<bytes>, destinationChain: bytes, command: Payload) {
    && destinationChain in trusted && destinationChain != [97, 120, 101, 108, 97, 114]
    && AbiEncode(command).Some?
    && Sendable(SendToHub(SEND_TO_HUB, destinationChain, AbiEncode(command).value))
  }

  /** What is routed is, read twice, the destination and the command. */
  lemma RoutedExactly(c: Chain, destinationChain: bytes, command: Payload)
    ensures RouteMessage(c, destinationChain, command).Some? <==> Routable(c.trusted, destinationChain, command)
    ensures RouteMessage(c, destinationChain, command).Some? ==>
      var outer := AbiDecode(SendKind, RouteMessage(c, destinationChain, command).value);
      && outer.Some? && outer.value.SendToHub? && outer.value.messageType == 3
      && outer.value.destinationChain == destinationChain
      && AbiDecode(KindOf(command), outer.value.payload) == Some(command)
  {
    if RouteMessage(c, destinationChain, command).Some? {
      OutboundWrapping(destinationChain, command);
    }
    hide AbiDecode, TokensOf, Encodable, Fits, Encode;
  }

  /** A transfer is sent exactly when the service is not paused, the payment splits with something left to transfer, a
      destination address is given, the manager takes the tokens, and the command can be routed. */
  lemma TransferredExactly(c: Chain, now: nat, caller: Address, destinationChain: bytes, destinationAddress: bytes,
                           data: bytes, gas: nat, payments: Payments)
    ensures InterchainTransferred(c, now, caller, destinationChain, destinationAddress, data, gas, payments).Some? <==>
      && !c.paused && destinationAddress != [] && Splittable(payments, gas) && AmountSent(payments, gas) > 0
      && CanTake(c.tm, now, c.service, caller, TokenSent(payments), AmountSent(payments, gas))
      && Routable(c.trusted, destinationChain, InterchainTransfer(INTERCHAIN_TRANSFER, c.tokenId, caller,
                  destinationAddress, AmountSent(payments, gas), data))
  {
    SplitExactly(payments, gas);
    var split := GetTransferAndGasTokens(payments, gas);
    if split.Some? {
      TakenExactly(c.tm, now, c.service, caller, split.value);
      RoutedExactly(c, destinationChain, InterchainTransfer(INTERCHAIN_TRANSFER, c.tokenId, caller, destinationAddress,
                                                            split.value.amount, data));
    }
    hide Taken, CanTake, RouteMessage, Routable, GetTransferAndGasTokens, Splittable, AmountSent, TokenSent;
  }

  /** Sending changes nothing on the chain but the manager's tokens: it locks or burns what the caller paid. */
  lemma TransferredMeans(c: Chain, now: nat, caller: Address, destinationChain: bytes, destinationAddress: bytes,
                         data: bytes, gas: nat, payments: Payments)
    requires InterchainTransferred(c, now, caller, destinationChain, destinationAddress, data, gas, payments).Some?
    ensures var r := InterchainTransferred(c, now, caller, destinationChain, destinationAddress, data, gas, payments).value;
      var amount := AmountSent(payments, gas);
      && r.0.(tm := c.tm) == c
      && r.0.tm.accounts == c.tm.accounts && r.0.tm.minter == c.tm.minter && r.0.tm.identifier == c.tm.identifier
      && r.0.tm.locked == c.tm.locked + (if Laws.Locking(c.tm.kind) then amount else 0)
      && r.0.tm.supply == c.tm.supply - (if Laws.Locking(c.tm.kind) then 0 else amount)
      && amount > 0 && FlowLimit.Moved(c.tm.flow, now, FlowLimit.Out, amount) == Some(r.0.tm.flow)
  {
    SplitExactly(payments, gas);
    hide RouteMessage, GetTransferAndGasTokens, Splittable, AmountSent, FlowLimit.AddFlowOut, TM.Debit, TM.Credit;
  }

  // ---------- executing ----------

  /** A message carries a transfer exactly when it is a message received from the hub on behalf of a trusted chain whose
      inner message is one. */
  lemma IncomingExactly(trusted: set<bytes>, payload: bytes)
    ensures var outer := AbiDecode(ReceiveKind, payload);
      IncomingTransfer(trusted, payload).Some? <==>
        && GetMessageType(payload) == Some(4)
        && outer.Some? && outer.value.ReceiveFromHub? && outer.value.originalSourceChain in trusted
        && GetMessageType(outer.value.payload) == Some(0)
        && AbiDecode(TransferKind, outer.value.payload).Some?
    ensures IncomingTransfer(trusted, payload).Some? ==>
      IncomingTransfer(trusted, payload) == AbiDecode(TransferKind, AbiDecode(ReceiveKind, payload).value.payload)
  {
    hide GetMessageType, Decode;
  }

  /** A transfer is executed exactly when the service is not paused, the message is from the hub's address on the hub's
      chain and approved with just this payload, it carries a transfer from a trusted chain to a whole address, no EGLD
      came along, and then: a transfer of another token or with data is delivered, and a transfer of this token is paid. */
  lemma ExecutedExactly(c: Chain, now: nat, sourceChain: ManagedBuffer, messageId: ManagedBuffer,
                        sourceAddress: ManagedBuffer, payload: bytes, egld: nat, delivered: bool)
    ensures ExecutedTransfer(c, now, sourceChain, messageId, sourceAddress, payload, egld, delivered).Some? <==>
      && !c.paused && egld == 0 && sourceChain == [97, 120, 101, 108, 97, 114] && sourceAddress == c.hubAddress
      && StateOf(c.messages, CrossChainId(sourceChain, messageId))
           == Approved(MessageHash(CrossChainId(sourceChain, messageId), sourceAddress, c.service, Keccak256(Raw(payload))))
      && IncomingTransfer(c.trusted, payload).Some?
      && var p := IncomingTransfer(c.trusted, payload).value;
         && |p.destinationAddress| == 32
         && (p.tokenId == c.tokenId ==> CanGive(c.tm, now, c.service, p.amount))
         && (p.tokenId != c.tokenId || p.data != [] ==> delivered)
  {
    if IncomingTransfer(c.trusted, payload).Some? {
      var p := IncomingTransfer(c.trusted, payload).value;
      if |p.destinationAddress| == 32 {
        GivenExactly(c.tm, now, c.service, p.destinationAddress, p.amount, p.data != []);
      }
    }
    hide IncomingTransfer, MessageHash, StateOf, Given, CanGive;
  }

  /** Executing uses up this message and no other, and unlocks or mints the amount, for a transfer of this token. */
  lemma ExecutedMeans(c: Chain, now: nat, sourceChain: ManagedBuffer, messageId: ManagedBuffer,
                      sourceAddress: ManagedBuffer, payload: bytes, egld: nat, delivered: bool, id: CrossChainId)
    requires ExecutedTransfer(c, now, sourceChain, messageId, sourceAddress, payload, egld, delivered).Some?
    ensures IncomingTransfer(c.trusted, payload).Some?
    ensures var d := ExecutedTransfer(c, now, sourceChain, messageId, sourceAddress, payload, egld, delivered).value;
      var p := IncomingTransfer(c.trusted, payload).value;
      var amount := if p.tokenId == c.tokenId then p.amount else 0;
      && d.(tm := c.tm, messages := c.messages) == c
      && StateOf(d.messages, id)
           == (if id == CrossChainId(sourceChain, messageId) then MessageState.Executed else StateOf(c.messages, id))
      && (p.tokenId != c.tokenId ==> d.tm == c.tm)
      && d.tm.accounts == c.tm.accounts && d.tm.minter == c.tm.minter && d.tm.identifier == c.tm.identifier
      && d.tm.locked == c.tm.locked - (if Laws.Locking(c.tm.kind) then amount else 0)
      && d.tm.supply == c.tm.supply + (if Laws.Locking(c.tm.kind) then 0 else amount)
      && (p.tokenId == c.tokenId ==> FlowLimit.Moved(c.tm.flow, now, FlowLimit.In, p.amount) == Some(d.tm.flow))
  {
    hide IncomingTransfer, MessageHash, FlowLimit.AddFlowIn, TM.Debit, TM.Credit;
  }
}
