# Cross-chain contracts on MultiversX: a verified model

A multisig gateway approves messages from other chains. A governance contract schedules proposals from such messages
and launches them as promises. A token service moves tokens between chains through a hub: on a token's home chain a
manager locks and releases it, elsewhere managers mint and burn it. This project models these contracts in Dafny, each
with the storage it has, and proves what holds after any sequence of transactions, callbacks and hub steps.

Each contract is a class whose methods change its storage as the endpoints do and restore it where a transaction
fails. The methods are proved against a specification on values (`...Spec`), and the run theorems (`...Runs`) are about
that specification: a run is any sequence of calls with any callers, arguments and times. For each operation a law
(`...Laws`) gives the exact condition for its success and its whole effect in terms of the arguments and the state
before: who may call it, whose balance changes by how much, which flag, role or entry appears or goes, and that nothing
else does.

| files | contents |
|---|---|
| `ByteStrings`, `Slices`, `Sums` | numbers as bytes, consecutive blocks, sums over sequences |
| `Abi`, `AbiTheorems`, `Payloads`, `PayloadWire` | the Solidity codec, its layout and round trip, the six payloads and hub wrapping, and each payload byte by byte |
| `Preimages`, `Decoding` | the byte strings behind every hash, that they determine their fields, and reading signer sets and batches back |
| `HashTables` | what is hashed, signed and sent in nested form, field by field |
| `Signatures`, `Gateway`, `GatewayRuns`, `GatewayLaws` | signer sets and proofs, the registry, the life of a message |
| `Governance`, `GovernanceRuns`, `GovernanceAndGateway`, `GovernanceLaws` | proposals as an asynchronous protocol, the refund ledger, the composition with the gateway |
| `FlowLimit`, `TokenManager`, `TokenManagerLaws`, `ManagerFlow` | roles, locking and minting, the flow limit alone and in every run of a manager |
| `TokenService`, `TokenServiceLaws`, `Bridge`, `BridgeRuns`, `BridgeLaws` | transfers out of and into a chain; N chains and the hub as one system; one transfer from end to end |
| `Factory`, `FactoryRuns`, `FactoryLaws`, `DeployMessages`, `DeployMessageLaws` | three-transaction deployment, approvals, deployments ordered from afar |
| `Proxy`, `ProxyRuns`, `ProxyLaws` | the escrow proxy, alone and behind the service and the gateway |
| `PingPong`, `PingPongLaws` | the example with a resumable payout |

`dafny verify dfyconfig.toml` checks everything.

## Assumptions

- keccak256 never collides: a buffer is a string of bytes and digests, and a digest remembers its pre-image. A 32-byte field
  read back from a buffer is a digest or plain bytes; bytes of a digest are not read as lengths, keys or numbers.
- Ed25519 verification (RFC 8032, section 5.1.7) is an arbitrary predicate.
- Timestamps do not decrease where a theorem says so (rotation rate, flow windows); nowhere else.
- u64 sums and differences wrap around, since the release profile has overflow checks off (`governance/wasm/Cargo.toml:22`).
  Where that matters the theorem says exactly when the intended bound holds.
- The hub relays each message of a token service at most once, under a new message id, with the inner payload unchanged,
  and the gateways' signers approve exactly those messages as coming from the hub's address.
- Nobody sends a transaction from the zero address.
- Callbacks are not lost and do not fail, as the reserved gas is meant to ensure.
- Outcomes decided elsewhere are arguments that may take any value: whether call data decodes and gas and balance suffice for a
  promise, what a called contract answers, what identifier an issue returns.
- The chain's ledger of a managed token is kept beside the manager: payments come out of the payer's balance.
- Buffers of 4 GiB and more do not occur.

## Where documentation and code differ

The model follows the code.

- `gateway/README.md:80-81` asks for a weight greater than the threshold; the code accepts a weight equal to it.
- `interchain-token-service/README.md:70-71` describes express execution; there is none. The comment at
  `interchain-token-service/src/executable.rs:84-85` on reverting an asynchronous call is out of date: the call is synchronous and
  the whole transaction is undone.
- The flow limit counts in fixed epochs of six hours. `WindowBoundTight` shows twice the limit moving within one epoch.
- `governance/src/lib.rs:235` reserves only the base callback gas on the operator path; the two paths are not claimed to reserve
  the same.
- With a nonzero initial supply the factory lets the service itself be named as minter. It then keeps all roles; see
  `FactoryRuns.RolesAfterMinting` for the exact condition and `FactoryRuns.ServiceCanKeepRoles` for a run.
- A time lock does not hold when timestamp + delay wraps; see `GovernanceRuns.TimeLockRespected` for the
  exact condition and `GovernanceRuns.DelayCanWrap` for a run.

## Model

Endpoint methods without a loop or a rollback are proved equal to their branch of the specification and are not listed.

| member | source | states |
|---|---|---|
| `BridgeRuns.Conservation` | token-manager/src/lib.rs:108-171 | In every reachable state of N chains and the hub, what the home has locked equals donations + the supplies of all remotes + what was sent and not relayed + what was relayed and not executed; the messages in transit are exactly the approved ones, each once |
| `BridgeRuns.AlwaysConserved` | token-manager/src/lib.rs:108-171 | In every reachable state the supplies of all chains, minus what is locked, plus what is sent, in transit and donated, add up to zero |
| `BridgeRuns.HomeIsSolvent` | token-manager/src/lib.rs:308-316 | In every reachable state the home can pay all transfers on their way to it together, on top of donations and everything in circulation elsewhere |
| `BridgeRuns.EachCanBePaid` | token-manager/src/lib.rs:308-316 | From that, the home can pay each one of them |
| `BridgeRuns.PendingTransferArrives` | interchain-token-service/src/executable.rs:49-102 | In every reachable state a message in transit, to any chain, executes as a transfer if and only if it decodes as one from a trusted chain and nothing but money could be missing (not paused, proper address, the flow limit allows the amount as `FlowLimit.Allows` says, called contract agrees): the balance is never the reason |
| `BridgeRuns.TransferArrivesIntact` | interchain-token-service/src/user_functions.rs:208-234 | End to end through payment splitting, encoding, hub wrapping and decoding: the destination reads exactly the transfer that was sent, its amount what is attached of the token less the requested gas, and reads it if and only if it trusts the source chain |
| `BridgeLaws.TransferIsDelivered` | interchain-token-service/src/executable.rs:49-102 | In every run: a transfer, its relay, and its execution, with anything in between that does not execute it. The execution succeeds if and only if the receiving chain trusts the sender, is not paused, allows the amount and the receiver takes the data; it then pays the receiver exactly what the sender attached less the gas, and nobody else anything |
| `BridgeLaws.StaysInTransit` | gateway/src/lib.rs:108-137 | In every run a message on its way stays on its way until it is executed |
| `BridgeLaws.SentIsForwarded` | interchain-token-service/src/proxy_gmp.rs:72-92 | What a service routes reaches exactly the chain it names, which reads the very command if and only if it trusts the source |
| `BridgeRuns.StepKeepsInv` | interchain-token-service/src/user_functions.rs:206-296 | Every transaction on any chain and every hub step keeps conservation, the one-to-one match between hub and gateways, and the minters |
| `BridgeRuns.ConsumedMatches` | gateway/src/lib.rs:108-137 | Executing an approved message takes exactly that message out of transit |
| `BridgeRuns.HubApproval` | gateway/src/lib.rs:141-169 | Approving a hub message makes exactly that payload pending, by injectivity of the message hash |
| `BridgeRuns.OtherApproval` | gateway/src/lib.rs:141-169 | No approval of another sender, contract or chain can create or destroy a pending transfer |
| `BridgeRuns.OtherValidation` | gateway/src/lib.rs:108-137 | No other contract validating its messages can consume a pending transfer |
| `BridgeRuns.AmountForwarded` | interchain-token-service/src/proxy_gmp.rs:72-92 | Rewrapping by the hub preserves the amount that counts as owed |
| `BridgeRuns.AmountExecuted` | interchain-token-service/src/executable.rs:27-47 | The amount paid out on execution is the amount that was owed for the message; deploy and link messages carry none |
| `BridgeRuns.CallKeepsValue` | token-manager/src/lib.rs:243-281 | With the zero address as minter nothing anybody can call on a manager changes what is in circulation, except donations to a home |
| `BridgeRuns.RemoteSetUp` | token-manager/src/lib.rs:176-240 | A token deployed without a minter is such a remote once its identifier arrives |
| `Abi.FixedBytesAppend` | interchain-token-service/src/abi.rs:108-114 | The batch loop appends the content filled up with zeros to whole words, and nothing for empty content |
| `Abi.HeadAppend` | interchain-token-service/src/abi.rs:76-83 | Appends one head, failing exactly for numbers over 32 bytes |
| `Abi.TailAppend` | interchain-token-service/src/abi.rs:85-90 | Appends length word and padded content for dynamic tokens, nothing for static ones |
| `Abi.AppendHeads` | interchain-token-service/src/abi.rs:249-265 | The loop with the wrapping u32 running offset writes all heads as the block layout says |
| `Abi.RawAbiEncode` | interchain-token-service/src/abi.rs:249-265 | The two loops produce the block layout (all heads, then all tails), failing exactly when a number does not fit |
| `Abi.RawAbiDecode` | interchain-token-service/src/abi.rs:267-281 | The decoding loop computes the specified decoding of every type list, failing at the first parameter that fails |
| `AbiTheorems.Layout` | interchain-token-service/src/abi.rs:76-137 | Head i is word i, a dynamic head holds the start of its tail, tails follow one another without gap or overlap, and the length is 32 n plus the tails |
| `AbiTheorems.RoundTrip` | interchain-token-service/src/abi.rs:155-281 | Decoding with the matching types gives back the list, for lists of any length with fitting numbers and size below 2^32 |
| `AbiTheorems.EncodeInjective` | interchain-token-service/src/abi.rs:249-265 | Two lists of one shape never share an encoding |
| `AbiTheorems.ConverseFails` | interchain-token-service/src/abi.rs:267-281 | A concrete accepted input that is not the encoding of what it decodes to |
| `AbiTheorems.ReencodeExactlyWhenCanonical` | interchain-token-service/src/abi.rs:155-241 | Re-encoding a decoded input gives the input back if and only if heads hold the running offsets, padding is zero, and nothing follows the last tail |
| `PayloadWire.DecodesExactly` | interchain-token-service/src/abi.rs:155-281 | A buffer decodes to a list of tokens if and only if each is held at its word: numbers and words as they stand, a small number behind 31 zeros, a string wherever its pointer leads |
| `PayloadWire.StringExactly` | interchain-token-service/src/abi.rs:174-232 | A string is read if and only if some start below 2^32 is given at the word, there a length below 2^32, and behind it that many bytes within the buffer |
| `PayloadWire.FieldOnWire` | interchain-token-service/src/abi.rs:76-137 | In the encoding of any tuple: a static token is its 32-byte word; a dynamic one is the offset in its word and there length, bytes and zeros up to the next word |
| `PayloadWire.BigEndian` | interchain-token-service/src/abi.rs:102-137 | Byte k of a number of w bytes counts multiples of 256 to the power w - 1 - k |
| `PayloadWire.TransferOnWire` | interchain-token-service/src/abi_types.rs:10-62 | The whole transfer payload: which word holds which field, and where its three strings lie |
| `PayloadWire.DeployOnWire` | interchain-token-service/src/abi_types.rs:64-117 | The whole deploy payload |
| `PayloadWire.LinkOnWire` | interchain-token-service/src/abi_types.rs:227-280 | The whole link payload |
| `PayloadWire.HubMessageOnWire` | interchain-token-service/src/abi_types.rs:119-188 | The two hub messages, whole |
| `PayloadWire.MetadataOnWire` | interchain-token-service/src/abi_types.rs:190-225 | The whole metadata payload |
| `PayloadWire.MessageTypeExactly` | interchain-token-service/src/executable.rs:252-259 | The type of any buffer is its first word as a number, if that is there and fits 64 bits |
| `Payloads.PayloadRoundTrip` | interchain-token-service/src/abi_types.rs:19-280 | Each of the six payloads is recovered field by field |
| `Payloads.InboundWrapping` | interchain-token-service/src/executable.rs:27-47 | A wrapped command is dispatched on its own type and recovered with its origin, exactly when the origin is trusted |
| `Payloads.OutboundWrapping` | interchain-token-service/src/proxy_gmp.rs:72-92 | Decoding an outbound message twice recovers destination and command, whatever the command |
| `Payloads.InboundUnambiguous` | interchain-token-service/src/lib.rs:103-171 | Two different commands or origins never travel as the same bytes |
| `Payloads.ExecuteParamsOfWrapped` | interchain-token-service/src/executable.rs:252-259 | The type, origin and inner bytes that the execute path reads are those that were wrapped |
| `TokenManagerTypes.FromCode` | token-manager/src/constants.rs:17-28 | The five manager types and their codes correspond one to one; other codes are refused |
| `PayloadWire.KindCodes` | token-manager/src/constants.rs:17-28 | The five codes in order: native, mint/burn-from, lock/unlock, lock/unlock with fee, mint/burn |
| `Preimages.SignersHashInjective` | gateway/src/auth.rs:166-183 | A signers hash determines all signers, weights, the threshold and the nonce |
| `Preimages.SignedDataInjective` | gateway/src/auth.rs:124-137 | What is signed determines gateway, signer set, command and buffer |
| `Preimages.DataHashInjective` | gateway/src/lib.rs:196-209 | Approve and rotate data hashes never coincide, nor do those of different buffers |
| `Decoding.SignersDecode` | gateway/src/constants.rs:32-37 | The buffer that encodes a signer set, which is also the pre-image of its hash, decodes to it |
| `Decoding.BatchDecodes` | gateway/src/lib.rs:55-58 | The buffer that encodes a batch of any length decodes to it |
| `Decoding.SignersUseAll` | gateway/src/lib.rs:69-75 | Nothing may follow a signer set in its buffer |
| `Decoding.BatchesConcatenate` | gateway/src/lib.rs:55-58 | What follows a batch must be further messages, and then both are decoded, in order |
| `Preimages.MessageHashInjective` | gateway/src/lib.rs:171-193 | A message hash determines all five fields |
| `Preimages.ProposalHashInjective` | governance/src/lib.rs:423-442 | A proposal hash determines target, call data and value |
| `HashTables.SignedTable` | gateway/src/auth.rs:124-137 | What is signed, in order: the byte 25 and the text, domain separator, signers hash, and the hash of command byte and buffer |
| `HashTables.SignersTable` | gateway/src/auth.rs:166-183 | A signer set in order: count, key and weight of each, threshold, nonce |
| `HashTables.MessageTable` | gateway/src/lib.rs:171-193 | A message in order: source chain, id, source address, contract, payload hash |
| `HashTables.ProposalTable` | governance/src/lib.rs:423-442 | A proposal in order: target, call data, value |
| `HashTables.CommandTable` | governance/src/lib.rs:12-34 | A governance command in order: command number, target, call data, value, eight bytes of time |
| `HashTables.TokenIdTable` | interchain-token-service/src/factory.rs:488-576 | A token id: the prefix, and the salt of its origin under that origin's own prefix, with chain name hash and fields in order |
| `HashTables.ApprovalTable` | interchain-token-service/src/factory.rs:390-404 | The key of a deploy approval: prefix, minter, token id, destination chain |
| `TokenIds.TokenIdInjective` | interchain-token-service/src/factory.rs:488-576 | A token id determines chain, kind of token and all inputs; interchain, canonical and linked ids are disjoint |
| `TokenIds.DeployApprovalKeyInjective` | interchain-token-service/src/factory.rs:390-404 | An approval key determines minter, token and destination chain |
| `Signatures.ValidateSigners` | gateway/src/auth.rs:139-164 | The loop accepts exactly the non-empty, strictly ascending sets with positive weights and a positive threshold within the total |
| `Signatures.ValidSignersExactly` | gateway/src/auth.rs:139-164 | A set can be installed if and only if its keys are positive and increase throughout, its weights are positive, and 0 < threshold <= total weight |
| `Signatures.ValidateSignatures` | gateway/src/auth.rs:86-122 | The loop accepts exactly when some prefix of the given signatures all verify and carry the threshold; later signatures are not looked at |
| `Signatures.KeysDistinct` | gateway/src/auth.rs:139-164 | No key of an installable set occurs twice, so no signature is counted twice |
| `Signatures.ValidProofReaches` | gateway/src/auth.rs:86-122 | If all given signatures verify, enough weight suffices |
| `Signatures.QuorumIsWeight` | gateway/src/auth.rs:86-122 | A quorum has the threshold in weight of verified signatures, one slot per signer; without a bad signature that is also enough |
| `Signatures.AllSigningIsQuorum` | gateway/src/auth.rs:139-164 | Every installable set can be satisfied by all signing |
| `Signatures.QuorumIntersection` | gateway/src/auth.rs:86-122 | If twice the threshold exceeds the total weight, some signer verifiably signed both of any two accepted digests |
| `GatewayContract.Gateway.ValidateProof` | gateway/src/auth.rs:13-37 | Accepts exactly quorums of sets in the retention window and says whether the set is the latest; the epoch subtraction cannot underflow |
| `GatewayLaws.ProofExactly` | gateway/src/auth.rs:13-37 | For a set installed as epoch e: the proof is accepted if and only if the current epoch is at most e + retention and a quorum signed, and counts as the latest if and only if e is the current epoch; a set never installed is never accepted |
| `GatewayLaws.SignersCanApprove` | gateway/src/lib.rs:51-66 | In every reachable state the signers of any set installed at most `retention` epochs ago, all signing, get any non-empty batch approved |
| `GatewayLaws.SignersCanRotate` | gateway/src/lib.rs:69-86 | In every reachable state with an operator the latest signers, all signing, install any valid new set once the delay has passed, and any retained set does at once when the operator sends it |
| `GatewayContract.Gateway.UpdateRotationTimestamp` | gateway/src/auth.rs:68-84 | Fails exactly when the delay is enforced and has not passed, with wrapping u64 subtraction |
| `GatewayContract.Gateway.RotateSignersRaw` | gateway/src/auth.rs:39-66 | Installs the next epoch in both maps, failing for invalid sets, too early, and for duplicates |
| `GatewayContract.Gateway.RotateSigners` | gateway/src/lib.rs:69-86 | The endpoint does what the transaction specification says and keeps the registry one to one; on failure the storage is as before |
| `GatewayLaws.RotatesExactly` | gateway/src/lib.rs:69-86 | A rotation succeeds if and only if there is an operator, the buffer decodes to a valid set never installed, the proof is accepted, and either the operator sends it or the latest set signed it and the delay has passed, modulo 2^64 |
| `GatewayLaws.RotatesMeans` | gateway/src/auth.rs:39-66 | It installs the new set as the next epoch, keeps every earlier one, notes the time, and changes nothing else |
| `GatewayContract.Gateway.UpgradeContract` | gateway/src/lib.rs:17-46 | Init and upgrade install any number of sets without delay, all or none |
| `GatewayLaws.UpgradesExactly` | gateway/src/lib.rs:17-46 | An upgrade succeeds if and only if all sets are valid, none was installed before and no two are the same; they become the next epochs in order, and a named operator replaces the old one |
| `GatewayLaws.OperatorExactly` | gateway/src/operator.rs:7-29 | The operator changes only by an upgrade, or exactly when the operator or the owner names another |
| `GatewayContract.Gateway.ApproveMessages` | gateway/src/lib.rs:51-66 | The batch loop approves exactly the new ids; on failure the storage is as before |
| `GatewayLaws.ApprovesExactly` | gateway/src/lib.rs:51-66 | A batch is approved if and only if it decodes to at least one message and its proof is accepted |
| `GatewayLaws.ApprovesMeans` | gateway/src/lib.rs:141-169 | Each new id gets the approval of its first message in the batch; every other id and everything else is as before |
| `GatewaySpec.MessageStateRoundTrip` | gateway/src/constants.rs:53-100 | The storage form of the three states decodes back; no hash reads as executed or empty |
| `GatewayRuns.RegistryAlwaysOk` | gateway/src/auth.rs:39-66 | In every reachable state epochs 1..epoch and hashes are mutual inverses and every registered set was valid |
| `GatewayRuns.AcceptedCount` | gateway/src/auth.rs:13-37 | Exactly min(epoch, retention + 1) sets are in the window, and, if the keys can sign, exactly that many have some accepted proof |
| `GatewayRuns.AcceptedSetIsValid` | gateway/src/auth.rs:13-37 | Every accepted proof uses a set that was valid when installed |
| `GatewayRuns.ExpiredForever` | gateway/src/auth.rs:13-37 | A set that left the window is never accepted again in any run |
| `GatewayRuns.EverySetHasOrigin` | gateway/src/lib.rs:69-86 | Every registered set came from init/upgrade or from a rotation whose signed buffer decodes to that set, signed by a quorum of a set in the window, the latest one unless the operator sent it |
| `GatewayRuns.SignedSetIsInstalled` | gateway/src/lib.rs:69-86 | What is signed determines what is installed: signing the encoding of a set, for any gateway, signer set or command, can only ever install that very set, here and as a rotation |
| `GatewayRuns.RotationRate` | gateway/src/auth.rs:68-84 | n non-operator rotations take at least (n - 1) minimum delays, whatever else is interleaved |
| `GatewayRuns.LifeCycle` | gateway/src/lib.rs:108-169 | In every run an id only moves NonExistent, Approved, Executed, and its approved hash never changes |
| `GatewayRuns.ValidatedOnce` | gateway/src/lib.rs:108-137 | validate_message returns true at most once per id |
| `GatewayLaws.ValidatesExactly` | gateway/src/lib.rs:108-137 | validate_message answers true if and only if the message stands approved with all five fields; it then executes this id and no other, and it never fails |
| `GatewayLaws.ApprovedIsDelivered` | gateway/src/lib.rs:108-137 | In every run a message approved under a new id is validated the first time its contract asks for it, whatever happens in between |
| `GatewayRuns.ExecutedWasProved` | gateway/src/lib.rs:51-66 | Every true answer of validate_message was preceded by a batch holding exactly that source, contract and payload hash, whose buffer a quorum signed |
| `GatewayRuns.SignedBatchIsApproved` | gateway/src/lib.rs:51-66 | Signing the encoding of a batch can only ever approve the messages of that very batch |
| `GatewayRuns.FirstInBatchWins` | gateway/src/lib.rs:141-169 | Of several messages with one id in a batch the first counts |
| `GatewayRuns.ReapprovingChangesNothing` | gateway/src/lib.rs:51-66 | Approving the same batch again at any later time leaves the whole storage as it is |
| `GovernanceContract.Governance.Execute` | governance/src/lib.rs:267-296 | Consumes the message at the gateway and carries out the command it decodes to, or leaves gateway and governance as they were |
| `GovernanceContract.Governance.ProcessCommand` | governance/src/lib.rs:307-368 | Each of the four commands takes effect exactly when its checks pass |
| `GovernanceLaws.CommandsExactly` | governance/src/lib.rs:307-421 | A command succeeds if and only if its target is not zero and, for a schedule or an approval, the proposal is neither on its path nor in flight on it: a cancellation always succeeds |
| `GovernanceLaws.CommandsMean` | governance/src/lib.rs:370-421 | It changes only its own proposal on its own path; a scheduled one is due at the later of requested time and now + delay modulo 2^64 |
| `GovernanceLaws.CancelAlwaysWorks` | governance/src/lib.rs:330-366 | In every reachable state a validated cancellation takes effect on either path and takes the proposal off it |
| `GovernanceLaws.CancelledStaysOff` | governance/src/lib.rs:86-103 | After a cancellation no launch takes effect until the proposal is opened again |
| `CommandLaws.ExecutesExactly` | governance/src/lib.rs:267-296 | execute succeeds if and only if the message stands approved from the governance chain and address and decodes to a command that can be carried out; it uses up this message only |
| `CommandLaws.StandingCancelWorks` | governance/src/lib.rs:267-296 | With the gateway: anybody can carry out a standing cancellation, in any state of both contracts and on both paths |
| `CommandLaws.OffUntilOpened` | governance/src/lib.rs:80-237 | With the gateway: once off its path a proposal stays off it and every launch fails, until a message opens it again |
| `GovernanceSpec.PayloadDecodes` | governance/src/lib.rs:27-34 | A command in the declared form is the command carried out |
| `CommandLaws.PayloadUsesAll` | governance/src/lib.rs:284-287 | Nothing may follow a command |
| `HashTables.CommandCodes` | governance/src/lib.rs:12-18 | The four command numbers in order |
| `GovernanceContract.Governance.ScheduleTimeLock` | governance/src/lib.rs:370-397 | Refuses submitted and in-flight hashes; stores the later of requested and minimum eta, with wrapping u64 addition |
| `GovernanceContract.Governance.HandleCallbackFailure` | governance/src/lib.rs:492-523 | The loop adds every payment to the ledger of the caller, repeated tokens included |
| `GovernanceRuns.AlwaysConsistent` | governance/src/lib.rs:80-237 | In every interleaving the executing flag is set exactly while one promise for the hash is in flight, and operator approval and submission agree |
| `GovernanceRuns.AtMostOncePerSchedule` | governance/src/lib.rs:370-421 | In every prefix of every run successful executions, plus one if the proposal is pending or in flight, never exceed schedules (approvals) |
| `GovernanceRuns.NoScheduleMidFlight` | governance/src/lib.rs:444-490 | No schedule or approval happens between a launch and its own callback, so a callback never clears a later one, even after a cancellation in between |
| `GovernanceRuns.InFlightSince` | governance/src/lib.rs:80-157 | A promise in flight has been in flight, unchanged, since its launch |
| `GovernanceRuns.TimeLockRespected` | governance/src/lib.rs:86-103 | Every launch follows a schedule of this very proposal, not cancelled or completed since, whose requested eta has come; the minimum delay has passed if and only if timestamp + delay did not wrap |
| `GovernanceRuns.DelayCanWrap` | governance/src/lib.rs:370-397 | The wrapping case exists: a concrete run launches at the time of its schedule |
| `GovernanceRuns.OperatorLaunchApproved` | governance/src/lib.rs:161-180 | Every operator launch is by the operator of that moment and follows an approval of this very proposal not used or cancelled since |
| `GovernanceLaws.PendingLaunches` | governance/src/lib.rs:80-237 | A proposal opened and not cancelled or completed since launches if and only if it is not in flight, the resources suffice, and on the time lock both times have come, on the operator path the operator sends it |
| `GovernanceLaws.PromiseOrigin` | governance/src/lib.rs:140-157 | Every promise in flight carries the path, proposal, sender and payments of its own launch |
| `GovernanceLaws.CallbacksExactly` | governance/src/lib.rs:444-490 | A callback takes effect exactly while its promise is in flight, ends it, and takes the proposal off its path exactly on success; a failed one can be launched again |
| `GovernanceLaws.OperatorExactly` | governance/src/lib.rs:250-265 | The operator changes exactly when the operator or the contract itself names another |
| `GovernanceAndGateway.SuccessesNeedMessages` | governance/src/lib.rs:267-296 | In every run of gateway and governance, successful executions, plus one if pending or in flight, never exceed the different gateway messages that scheduled (or approved) the proposal |
| `GovernanceAndGateway.EveryOpeningProved` | governance/src/lib.rs:276-282 | Each of these messages came from the governance address on the governance chain, carried this very command, and was in a batch that a quorum signed |
| `GovernanceAndGateway.ExecuteIsBoth` | governance/src/lib.rs:267-296 | Carrying out a command is one successful validation at the gateway and one effective command |
| `GovernanceRuns.ListRefunded` | governance/src/lib.rs:492-523 | A payment list is credited token by token, repeated tokens added up |
| `GovernanceRuns.RefundsConserved` | governance/src/lib.rs:298-305 | For every user and token: ledger balance + withdrawn = what came back from failed executions on both paths |
| `FlowLimit.MovedExactly` | token-manager/src/flow_limit.rs:19-64 | With a limit L a movement is accepted if and only if it is at most L and the epoch's net, moved by it, stays within L in its direction; it is then recorded on its side of its epoch and nothing else changes; without a limit everything is accepted and nothing recorded |
| `FlowLimitRuns.EpochBound` | token-manager/src/flow_limit.rs:19-64 | Recorded in- and outflow of an epoch differ by at most the largest limit in force at an accepted flow of it |
| `FlowLimitRuns.WindowBound` | token-manager/src/flow_limit.rs:19-64 | After any history, a window touching k epochs while the limit is L moves at most k L net, plus the largest limit used earlier in its first epoch |
| `FlowLimitRuns.WindowBoundConstant` | token-manager/src/flow_limit.rs:19-64 | So (k + 1) L for a constant limit, and k L from an epoch boundary |
| `ManagerFlow.FlowsAgree` | token-manager/src/lib.rs:108-158 | In every run a manager's recorded flow is that of the transfers it carried out, each accepted |
| `ManagerFlow.ManagerEpochBound` | token-manager/src/flow_limit.rs:19-64 | The epoch bound holds in every run of a manager, limit changes included |
| `ManagerFlow.ManagerWindowBound` | token-manager/src/flow_limit.rs:19-64 | The window bound holds in every run of a manager, for every window in which the limit is not changed |
| `FlowLimitRuns.WindowBoundTight` | token-manager/src/flow_limit.rs:19-64 | The bound inside an epoch is reached |
| `Roles.TransferMeans` | modules/operatable/src/roles.rs:128-142 | Who has which role after a transfer, self-transfers included |
| `TokenManagerContract.TokenManager.GiveTokenTo` | token-manager/src/lib.rs:108-134 | Records the flow, then mints or pays out; on failure nothing changed |
| `TokenManagerContract.TokenManager.TakeTokenFrom` | token-manager/src/lib.rs:136-158 | Accepts the right token, records the flow, then burns or keeps; on failure nothing changed |
| `TokenManagerLaws.CallsExactly` | token-manager/src/lib.rs:80-345 | Each of the manager's calls succeeds if and only if its caller may make it (service, operator, flow limiter, minter, or a standing offer), the manager is of the right kind, the tokens are there, and the flow limit allows it |
| `TokenManagerLaws.BalanceStep` | token-manager/src/lib.rs:108-281 | Any accepted call takes its amount from the caller if it pays, gives it to the destination if it credits, and changes no other balance |
| `TokenManagerLaws.ReserveStep` | token-manager/src/lib.rs:108-345 | Crossing tokens are locked and released by locking kinds, burned and minted by the others; a donation is locked; the minter's minting and burning count in the supply |
| `TokenManagerLaws.FlowChange` | token-manager/src/lib.rs:101-158 | Exactly what crosses is recorded as flow, and only the flow limiters set the limit |
| `TokenManagerLaws.RoleStep` | modules/operatable/src/roles.rs:79-142 | Who has which role after any accepted call: moved, appointed or removed as the call says, and else as before |
| `TokenManagerLaws.ProposalStep` | modules/operatable/src/roles.rs:95-126 | An offer is written by proposing, used up by accepting, and touched by nothing else |
| `TokenManagerLaws.FieldStep` | token-manager/src/lib.rs:176-240 | The stored minter follows the role, the identifier comes from the first successful issue, and open issues are counted |
| `TokenManagerLaws.InitExactly` | token-manager/src/lib.rs:24-76 | When a manager can be set up, and that it starts with exactly the service and the operator as operators and flow limiters, and with nothing else |
| `TokenManagerLaws.AcceptedWasProposed` | modules/operatable/src/roles.rs:95-126 | In every run whoever accepts a role was offered it by that account, in an offer not used or replaced since, and the account still had the role |
| `TokenManagerLaws.OfferCanBeAccepted` | modules/operatable/src/roles.rs:95-126 | And such an offer can be accepted, whatever else happened |
| `TokenManagerContract.TokenManager.AcceptMintershipFrom` | token-manager/src/mintership.rs:25-36 | The same on acceptance; a stale proposal changes nothing |
| `TokenManagerContract.TokenManager.AcceptOperatorshipFrom` | modules/operatable/src/operatable.rs:24-30 | A stale proposal changes nothing |
| `TokenManagerRuns.MinterAndOperators` | token-manager/src/mintership.rs:8-41 | In every reachable state the stored minter address is the one and only minter, and there are one or two operators |
| `TokenManagerRuns.TokensConserved` | token-manager/src/lib.rs:108-171 | In every run what others hold plus what is locked is what was minted net of burning plus what was issued elsewhere: nothing else makes or destroys tokens |
| `TokenManagerRuns.NativeSupplyIsHeld` | token-manager/src/lib.rs:243-281 | Of a native token others hold exactly what the manager put into circulation |
| `TokenManagerRuns.IdentifierWrittenOnce` | token-manager/src/lib.rs:391-414 | The token identifier is written once; kind and service never change |
| `TokenServiceSpec.SplitLosesNothing` | interchain-token-service/src/user_functions.rs:238-296 | Everything attached is either transferred or paid as gas, token by token |
| `TokenServiceSpec.SplitExactly` | interchain-token-service/src/user_functions.rs:238-296 | A payment splits if and only if EGLD exceeds the gas, or there are one or two fungible tokens, the second EGLD and exactly the gas; the requested gas is the gas, and the rest of what is attached of the first token is transferred |
| `TokenServiceSpec.DestinationIsPaid` | interchain-token-service/src/executable.rs:49-102 | An executed transfer gives the destination exactly the amount, with or without data, and nobody else anything |
| `TokenServiceSpec.CallerPays` | interchain-token-service/src/user_functions.rs:206-234 | An outgoing transfer takes from the caller exactly what is attached of the token less the gas, and from nobody else anything |
| `TokenServiceContract.TokenService.RouteThroughHub` | interchain-token-service/src/proxy_gmp.rs:72-92 | Sends the twice encoded command, only to trusted chains other than the hub |
| `TokenServiceLaws.RoutedExactly` | interchain-token-service/src/proxy_gmp.rs:72-92 | Routing succeeds if and only if the chain is trusted, is not the hub itself, and both messages fit; what is routed reads back as destination and command |
| `TokenServiceContract.TokenService.InterchainTransfer` | interchain-token-service/src/user_functions.rs:206-234 | Takes the tokens and sends the message, or leaves service and manager as they were |
| `TokenServiceLaws.TransferredExactly` | interchain-token-service/src/user_functions.rs:206-234 | A transfer is sent if and only if the service is not paused, the payment splits with something left, a destination is given, the manager can take the tokens from the caller, and the command can be routed |
| `TokenServiceLaws.TransferredMeans` | interchain-token-service/src/user_functions.rs:206-234 | Sending locks or burns exactly the amount, records the flow, and changes nothing else |
| `TokenServiceContract.TokenService.Execute` | interchain-token-service/src/lib.rs:103-133 | Consumes the approval and pays out, or leaves gateway and manager as they were |
| `TokenServiceLaws.ExecutedExactly` | interchain-token-service/src/executable.rs:49-102 | A transfer is executed if and only if: not paused, no EGLD, from the hub's chain and address, approved with just this payload, a transfer from a trusted chain to a whole address, delivered where it has to be, and paid if it is of this token |
| `TokenServiceLaws.ExecutedMeans` | interchain-token-service/src/executable.rs:49-102 | Executing uses up this message and no other, and unlocks or mints exactly the amount |
| `TokenServiceLaws.IncomingExactly` | interchain-token-service/src/executable.rs:27-47 | A message carries a transfer if and only if it is a hub message of type 4 on behalf of a trusted chain around a command of type 0 that decodes |
| `FactoryContract.Factory.DeployInterchainTokenBy` | interchain-token-service/src/factory.rs:32-161 | Each of the three transactions does what the specification says or leaves the status and the manager as they were |
| `FactoryLaws.FirstTransactionExactly` | interchain-token-service/src/factory.rs:63-116 | The first transaction succeeds exactly unpaid, for normal names, a free token and a minter to be; the service mints first if there is a supply, else the named minter; it sets up the manager with that one as operator |
| `FactoryLaws.SecondTransactionExactly` | interchain-token-service/src/factory.rs:118-135 | The second succeeds exactly with the cost and proper names where the manager lets the service; a manager without a minter gets the one chosen, and no other role changes |
| `FactoryLaws.NothingToMint` | interchain-token-service/src/factory.rs:137-160 | Without a supply a later transaction leaves every manager as it is |
| `FactoryContract.Factory.DeployTokenManagerRaw` | interchain-token-service/src/executable.rs:194-250 | One manager per token id, at a new address, set up for its kind |
| `FactoryLaws.SetUpExactly` | interchain-token-service/src/executable.rs:194-250 | A manager is put exactly where there is none, at a proper address and in a form it can have; who operates it, that nobody mints, and that no other token changes |
| `FactoryLaws.RegistersExactly` | interchain-token-service/src/user_functions.rs:41-68 | Registrations, link messages and first deploy messages succeed exactly for such managers, not paused, unpaid, and never under the id of an interchain token |
| `FactoryContract.Factory.HandOverTo` | interchain-token-service/src/factory.rs:139-157 | The five calls in order, up to the first that fails |
| `FactoryContract.Factory.ThirdTransaction` | interchain-token-service/src/factory.rs:137-158 | Mint and hand over, or the manager as before |
| `FactoryContract.Factory.UseDeployApproval` | interchain-token-service/src/factory.rs:406-421 | Uses up exactly a matching approval |
| `FactoryLaws.ApprovalsExactly` | interchain-token-service/src/factory.rs:163-230 | Exactly the token's minters approve, for trusted chains; anybody revokes his own; no other approval changes |
| `FactoryLaws.DeploysRemoteExactly` | interchain-token-service/src/factory.rs:245-291 | A remote deployment goes out if and only if not paused, and with no minter none is requested, and a named minter is one of the token, is not the service and approved the requested one; that approval is used up |
| `FactoryRuns.MintedAtMostOnce` | interchain-token-service/src/factory.rs:63-95 | In every run the initial supply of a token id is minted at most once, and exactly when the status says so |
| `FactoryRuns.StatusOnlyMovesForward` | interchain-token-service/src/factory.rs:63-95 | Between any two points of a run a status stays, appears, or moves from NeedsMint to AlreadyMinted |
| `FactoryRuns.WrittenOnce` | interchain-token-service/src/executable.rs:194-250 | The manager address and the token identifier, once there, never change |
| `FactoryRuns.HandOverMeans` | interchain-token-service/src/factory.rs:137-158 | The hand-over succeeds exactly for a token the service mints and operates; it pays the initial supply to the sender and nobody else, gives the new minter every role, leaves the service none, and changes nobody else's |
| `FactoryRuns.RolesAfterMinting` | interchain-token-service/src/factory.rs:137-158 | Minting pays exactly the initial supply to the deployer and nothing to anybody else; the minter gets all three roles, and the service keeps none if and only if the minter is not the service |
| `FactoryRuns.ServiceCanKeepRoles` | interchain-token-service/src/factory.rs:63-73 | The exception exists: four concrete transactions with the service named as minter leave it all three roles |
| `FactoryRuns.NextTransactionExactly` | interchain-token-service/src/factory.rs:97-158 | In any state, the exact condition under which the second or third transaction succeeds |
| `FactoryRuns.NeverStuck` | interchain-token-service/src/factory.rs:97-158 | Unless a message from another chain claimed the id, a token still to be minted meets the manager's part of that condition, however other calls, registrations and managers interleave |
| `FactoryRuns.ClaimedIdIsStuck` | interchain-token-service/src/executable.rs:126-192 | With such a message it can be stuck: a concrete run after which no third transaction succeeds |
| `FactoryRuns.OtherOrigin` | interchain-token-service/src/factory.rs:488-576 | A canonical or linked registration never takes the id of an interchain token |
| `FactoryRuns.OthersCannotTouch` | modules/operatable/src/operatable.rs:10-46 | Until it is minted nobody but the service has any role on the manager, whatever is called |
| `FactoryRuns.RemoteDeploymentApproved` | interchain-token-service/src/factory.rs:245-291 | A remote deployment naming a minter uses an approval by that minter for that token, chain and destination minter, not used or revoked since |
| `FactoryLaws.ApprovedCanDeploy` | interchain-token-service/src/factory.rs:245-291 | In every run what a minter approved, and did not revoke or replace, can be deployed while he is a minter, and the same call again cannot |
| `DeployMessageRuns.IssuedAtMostOnce` | interchain-token-service/src/executable.rs:126-192 | In every run of gateway, factory and managers a deploy message issues at most once |
| `DeployMessageRuns.ConsumedExactlyWhenIssued` | interchain-token-service/src/executable.rs:126-192 | From its approval on, a deploy message is consumed exactly when it has issued, and stays approved until then, whatever else is called |
| `DeployMessageRuns.FirstOrder` | interchain-token-service/src/executable.rs:137-162 | The first execution deploys the manager, operated by the ordered minter and the service, and leaves the message approved |
| `DeployMessageRuns.SecondOrder` | interchain-token-service/src/executable.rs:164-191 | The second succeeds exactly with a proper name and the issue cost, and makes the ordered minter the only minter |
| `DeployMessageLaws.OrdersExactly` | interchain-token-service/src/executable.rs:126-192 | In any state the exact condition under which a deploy message is carried out, for both executions |
| `DeployMessageLaws.WrappedIsRead` | interchain-token-service/src/executable.rs:27-47 | A wrapped deploy message is read as that very message from a trusted chain, and as none from any other |
| `DeployMessageRuns.OrderCompletes` | interchain-token-service/src/executable.rs:126-192 | Both executions of one message with anything in between that does not order the same token |
| `DeployMessageRuns.StaysWaiting` | token-manager/src/lib.rs:176-240 | Between the two nothing anybody calls on the manager makes it issue or gives it a minter |
| `DeployMessageRuns.OrderMarks` | interchain-token-service/src/executable.rs:126-192 | An execution marks its own message exactly if it issues, and no other message |
| `DeployMessageRuns.OrderElsewhere` | interchain-token-service/src/executable.rs:126-192 | An execution for one token leaves the managers of all others alone |
| `ProxyContract.Proxy.ExecuteWithInterchainToken` | interchain-token-service-proxy/src/lib.rs:57-125 | Forwards what the service attached, or takes a stored call; on failure the stored call is back |
| `ProxyLaws.ForwardsExactly` | interchain-token-service-proxy/src/lib.rs:57-125 | With enough gas the service's calls go out with what is attached, and others' exactly if stored and unpaid, with the stored tokens, which are then no longer stored |
| `ProxyLaws.FinishesExactly` | interchain-token-service-proxy/src/lib.rs:155-192 | A failed call is stored under its own key with its own tokens, and nothing else changes |
| `ProxyLedger.EveryTokenAccountedFor` | interchain-token-service-proxy/src/lib.rs:57-192 | In every run and for every token: received = delivered + in flight + stored + overwritten |
| `ProxyLedger.NothingLost` | interchain-token-service-proxy/src/lib.rs:57-192 | If each call arrives at most once, each is in exactly one place with the tokens it came with, retries included, and nothing is overwritten |
| `ProxyLedger.LossPossible` | interchain-token-service-proxy/src/lib.rs:178-188 | Without that, a concrete run loses tokens by overwriting |
| `ProxyRuns.EscrowIsSafe` | gateway/src/lib.rs:108-137 | Behind the service and the gateway each call arrives at most once, so in every run of the composed contracts nothing is lost |
| `ProxyLaws.NoCallIsStuck` | interchain-token-service-proxy/src/lib.rs:57-125 | In every run each call received is delivered, on its way, or goes out again with its original tokens when anybody retries it |
| `ProxyLaws.ProxyGetsTransfer` | interchain-token-service/src/executable.rs:49-102 | What the proxy is handed is named by the transfer's own chain, message, sender, data and token, with exactly its amount of the token |
| `ProxyRuns.AlwaysReceivedExecuted` | interchain-token-service/src/lib.rs:103-133 | Every call the proxy received belongs to an executed message, and was received once |
| `PingPongContract.PingPong.PingBy` | ping-pong-interchain/src/ping_pong.rs:114-157 | Registers a user who never pinged, or changes nothing |
| `PingPongContract.PingPong.PongBy` | ping-pong-interchain/src/ping_pong.rs:180-198 | After the deadline only, and all or nothing |
| `PingPongContract.PingPong.PongEverybody` | ping-pong-interchain/src/ping_pong.rs:204-230 | The resumable loop pays the users from the saved position on as far as the gas goes |
| `PingPongLaws.PingExactly` | ping-pong-interchain/src/ping_pong.rs:114-157 | A ping is accepted if and only if it is of the fixed sum, after the activation, by a user who never pinged, with room for twice the sum below the cap; it registers this user only |
| `PingPongLaws.PongExactly` | ping-pong-interchain/src/ping_pong.rs:159-198 | Exactly the registered users are paid, from the deadline on, once |
| `PingPongLaws.PongAllExactly` | ping-pong-interchain/src/ping_pong.rs:204-230 | The payout works exactly from the deadline on, pays the registered users within the gas behind the saved position and no others, and saves how far it got |
| `PingPongLaws.MoneyConserved` | ping-pong-interchain/src/ping_pong.rs:114-230 | In every run the balance and the payouts together are what came in |
| `PingPongLaws.NothingBeforeDeadline` | ping-pong-interchain/src/ping_pong.rs:180-210 | Before the deadline nobody is paid, whatever is called |
| `PingPongRuns.PaidOnceAndSolvent` | ping-pong-interchain/src/ping_pong.rs:114-230 | In every run the balance covers everybody registered, nobody is paid twice, and everybody up to the saved position is paid |
| `PingPongRuns.PongAllMeans` | ping-pong-interchain/src/ping_pong.rs:204-230 | After the deadline the payout never fails, and completes exactly when the gas suffices for everybody left |
| `PingPongRuns.CompletedMeansDone` | ping-pong-interchain/src/ping_pong.rs:204-230 | After any calls, interrupted or not, completion means that nobody is registered |
| `PingPongRuns.ContinuationIsOneCall` | ping-pong-interchain/src/ping_pong.rs:204-230 | An interrupted call and its continuation do what one call with the gas of both would have done |

## Left out

- Gas service: events and a payout loop. The gas part of a payment is accounted for by `TokenServiceSpec.SplitLosesNothing`.
- Events and views.
- Library code: UserMapper, UnorderedSetMapper and the pause module appear as maps, sets and a flag.
- Gas arithmetic of governance launches, beyond a condition that gas suffices.
- Decoding of governance call data, beyond a condition that it decodes, and of the proof argument of the gateway.
- `withdraw` of the governance contract, and that its EGLD balance covers the refund ledger: it need not, since native value is
  spent from the same balance.
- Token properties callbacks, decimals parsing, and normalisation of names and tickers: the last is a condition on accepted names.
- Registration of token metadata beyond its encoding and its being sent.
- Link messages and canonical or custom registration beyond the manager they deploy.
- Fees on transfer: a LockUnlockFee manager is treated like LockUnlock in the flows, and the bridge system has LockUnlock homes only.
- Several tokens at once in the bridge system: one token is followed, transfers of others and other commands pass through the same
  services, hub and gateways with amount zero.
- EGLD sent to contracts outside the modelled calls.
- Deploy messages are modelled on values, not in class form: rollback is then not a separate step.
- Promises in flight are kept beside the contracts, as the virtual machine keeps them, not in their storage.
- ABI payloads carry token ids as 32 plain bytes; a digest is not taken apart into bytes, so a local token id, which is a digest,
  is not sent in one.
