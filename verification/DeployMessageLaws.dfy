/** When a deploy message is carried out, condition by condition. */
module DeployMessageLaws {
  import opened ByteStrings
  import opened ChainTypes
  import opened Keccak
  import opened Preimages
  import opened Abi
  import opened Payloads
  import opened GatewaySpec
  import opened TokenServiceSpec
  import opened TokenManagerTypes
  import opened DeployMessages
  import FactorySpec
  import TM = TokenManagerSpec
  import Laws = TokenManagerLaws
  import FactoryLaws
  import Roles

  /** A message orders a deployment exactly when it was received from the hub on behalf of a trusted chain and its inner
      message is a deploy message; what it orders is that one. */
  lemma IncomingExactly(trusted: set<bytes>, payload: bytes)
    ensures var outer := AbiDecode(ReceiveKind, payload);
      IncomingDeploy(trusted, payload).Some? <==>
        && GetMessageType(payload) == Some(4)
        && outer.Some? && outer.value.ReceiveFromHub? && outer.value.originalSourceChain in trusted
        && GetMessageType(outer.value.payload) == Some(1)
        && AbiDecode(DeployKind, outer.value.payload).Some?
    ensures IncomingDeploy(trusted, payload).Some? ==>
      IncomingDeploy(trusted, payload) == AbiDecode(DeployKind, AbiDecode(ReceiveKind, payload).value.payload)
  {
    hide GetMessageType, Decode;
  }

  /** The hub's wrapping of a deploy message is read as that message, from a trusted chain, and as none from any other. */
  lemma WrappedIsRead(trusted: set<bytes>, chain: bytes, p: Payload)
    requires p.DeployInterchainToken? && p.messageType == 1 && AbiEncode(p).Some?
    requires Sendable(ReceiveFromHub(4, chain, AbiEncode(p).value))
    ensures AbiEncode(ReceiveFromHub(4, chain, AbiEncode(p).value)).Some?
    ensures IncomingDeploy(trusted, AbiEncode(ReceiveFromHub(4, chain, AbiEncode(p).value)).value)
         == if chain in trusted then Some(p) else None
  {
    hide AbiEncode, AbiDecode, Sendable, GetExecuteParams;
    PayloadRoundTrip(ReceiveFromHub(4, chain, AbiEncode(p).value));
    ExecuteParamsOfWrapped(trusted, chain, p);
    PayloadRoundTrip(p);
  }

  /** A deploy message is carried out exactly when the service is not paused, the message is the hub's and stands
      approved, its minter is absent or an address, and: there is no manager yet and it can be put up, without payment;
      or there is one that the service may ask to issue, the token has a name and a symbol, and the cost of 0.05 EGLD is
      attached. */
  lemma OrdersExactly(w: Inbound, messageId: ManagedBuffer, sourceAddress: ManagedBuffer, payload: bytes, egld: nat, address: Address)
    ensures ExecutedDeploy(w, messageId, sourceAddress, payload, egld, address).Some? <==>
      && !w.chain.paused && sourceAddress == w.chain.hubAddress && IsApproved(w.chain, messageId, payload)
      && IncomingDeploy(w.chain.trusted, payload).Some?
      && var p := IncomingDeploy(w.chain.trusted, payload).value;
         && |p.minter| in {0, 32}
         && if Raw(p.tokenId) !in w.factory.managers
            then egld == 0 && FactoryLaws.CanSetUp(Cfg(w.chain), w.factory, Raw(p.tokenId), NativeInterchainToken, None, address)
            else MayIssue(w.factory.managers[Raw(p.tokenId)].tm, w.chain.service)
                 && |p.name| > 0 && |p.symbol| > 0 && egld == 50000000000000000
  {
    hide MessageHash, StateOf, IncomingDeploy, TM.Apply, TM.Has, FactorySpec.DeployTokenManager, FactoryLaws.CanSetUp;
    if IncomingDeploy(w.chain.trusted, payload).Some? {
      var p := IncomingDeploy(w.chain.trusted, payload).value;
      if MinterOf(p.minter).Some? {
        var minter := MinterOf(p.minter).value;
        FactoryLaws.SetUpExactly(Cfg(w.chain), w.factory, TokenIdOf(p), NativeInterchainToken, None, minter, address);
        if TokenIdOf(p) in w.factory.managers {
          Laws.CallsExactly(w.factory.managers[TokenIdOf(p)].tm, 0, w.chain.service,
                            TM.DeployInterchainToken(minter, p.name != [] && p.symbol != [], egld));
        }
      }
    }
  }

  /** The token is not there yet, and the caller is the manager's own service or a minter. */
  predicate MayIssue(tm: TM.TmState, caller: Address) {
    tm.kind.NativeInterchainToken? && tm.identifier.None? && (caller == tm.service || TM.Has(tm, caller, Roles.MINTER))
  }
}
