# Covenant signer: a verified model

The covenant signer answers one question over HTTP: will this committee member sign this unbonding transaction? It
decodes the request, reads the staking transaction and the tip from a Bitcoin full node that may be re-organising,
looks up the parameters in force at the inclusion height, rebuilds the only output that may be paid, checks the
staker's signature, and asks an external signer for the covenant signature. A second part of the repository funds
transactions from a wallet, largest outputs first, through a source of inputs that keeps state between calls.

The model has three parts, one module per file.

**The decision and the service around it.**
- `SignerApp` is the gate, with the same branches in the same order, the `int64` and `uint32` arithmetic written out, and
  a log of outside calls. It is cut at the second chain read (`Locate`, then `Conclude`), so that one definition serves
  the sequential call and the interleaved service. `SignerGate` states the validation steps independently, as a table of
  predicates on the values read; `SigningTheorems` connects the two, and `SigningInFull` writes the whole condition out down
  to the calls of the library.
- `UnbondingAgreement` says which transaction can be signed, when, and on what that depends. `ExternalSigners` holds the
  PSBT signer (a packet whose fields are assigned one by one), the private-key signer, and the agreement of their messages.
- `Service` is a state machine: blocks mined and disconnected, and any number of requests, each between its atomic
  actions (arrive, decode and count, read the transaction, read the tip and decide, count and answer).
  `ServiceInvariants`, `ServiceSafety`, `ServiceCounters`, `ServiceProgress` and `ValueConservation` are about all its runs.
- `TornRead` is one explicit run that shows why one of the assumptions below is needed.

**The request path.** `Hex`, `FixedWidth`, `Parsing`, `Wire`, `WireLayout`, `TxCodec` and `Keys` are the encodings; `Handlers`, `Metrics`,
`HttpResponse` and `Client` are the two ends of the wire.

**Coin selection.** `CoinSelection` converts and sorts in place; `InputSources` is the stateful source, the pure selection
it refines, and what greedy selection is good for; `Funding` is the whole way from a wallet listing to the transaction
that the builder authors from the source's answers.

## Assumptions

- Functions of `btcstaking`, `txscript` and the curve are deterministic, and are fields of the records `Library`, `Curve`,
  `Wallet` and `Conversions`; every theorem holds for all such fields. Four things are fixed: `CheckPreSignedUnbondingTxSanity` demands at
  least the shape of docs/validation.md:66-70 and version 2; `IsSimpleTransfer` demands one input and one output; the
  unbonding output carries the value it is built for; and signatures are over the "Common signature message" of BIP 341
  with the extension of BIP 342, kept as a record because its hashes are taken to be injective.
- The parameter lookup finds the latest version activated at or below a height. The parameters do not change during a run.
- The node is truthful about its chain at the moment of each read, and a transaction id occurs once on a chain.
- Two properties of runs are assumed where a theorem says so (`GoodRun`). `DeepBlocksStay`: a block that has had the
  confirmations its parameters ask for is never removed (for a depth of 0 or 1 this covers every block on the chain).
  `ReadsStayTrue`: the staking transaction keeps its place in the chain between the two reads of a request. The
  comment at signerapp/signer.go:143-147 knows that the second can fail; `TornReadsCanConflict` shows that without it two
  conflicting transactions can be signed although no deep block is ever lost. `ConflictsExactly` and
  `ConflictsNeedOtherParameters` assume neither and say when, in any run, signatures conflict: only if a re-organisation
  carries the staking transaction to a height with other parameters.

## Where the code was followed, not its description

- docs/validation.md:87 bounds the staking value by `min_staking_value` on both sides; the code uses `MaxStakingAmount`
  (signerapp/signer.go:188-189), and so does the model.
- The failed counter describes itself as counting internal errors (observability/metrics/signer.go:31); the handler counts
  every failure after decoding, and so does the model.
- A transaction without inputs does not survive a round trip: its input count is read as the marker of BIP 144. The round trips
  are stated with the exact condition.
- The check that the fee is below the staking value can pass with a wrapped difference; `FeeSubtraction` says exactly when.
- A torn read is turned down for every depth but 0; at depth 0 one case passes (`TornReads`).
- The source of inputs adds amounts in `int64`, and `WrappedTotalFallsShort` gives amounts for which it misses a target that
  the outputs reach. `GreedyIsOptimal` and `ExhaustionIsDefinitive` carry the exact condition, target by target.
- A wrapped subtraction of the fee can raise a payout above the stake; `ValueIsConserved` says exactly when the sums differ.
- Hiding the message of 5xx responses does not reach a handler that gives its own result such a status; this one never does.

## Model

| member | source | states |
|---|---|---|
| SigningTheorems.SignsExactly | signerapp/signer.go:86-291 | for all arguments and answers: a signature is returned if and only if all twenty validation steps hold of the values read; it is then the external signer's answer to the one request that follows from them, and asking is the last of exactly four outside calls |
| SigningTheorems.FirstFaultDecides | signerapp/signer.go:86-291 | the first step that fails decides everything: no signature, an error that wraps the invalid-request sentinel if and only if the step is about the request's content, exactly the outside calls that the earlier steps need, and `TxIn[0]` in range when it is used |
| SigningInFull.SignsInFull | signerapp/signer.go:86-291 | the same decision written out without any function of the gate: a signature is returned if and only if reads, stake, payout, unbonding script, original staking info, staker signature and address are exactly as the calls of the staking library, the chain and the parameters give them, and the external signer gives it for the request made of those |
| SignerGate.ConfirmationsExact | signerapp/signer.go:143-156 | for all `uint32` heights the wrapping `int64` count of confirmations is the integer one |
| SignerGate.TornReads | signerapp/signer.go:143-156 | with the inclusion height above the tip the depth check passes only for depth 0 and a height one above the tip |
| SignerGate.FeeSubtraction | signerapp/signer.go:196-202 | the `int64` subtraction is exact if and only if the difference fits; the positivity check is passed by a wrapped result exactly when the true difference is below `int64`, which takes a negative staking value |
| SignerGate.WrappedFeePaysOut | signerapp/signer.go:196-202 | an input on which the check passes with a wrapped result |
| UnbondingAgreement.SignedIsCanonical | signerapp/signer.go:107-223 | version, lock time, outpoint, sequence and output of any signed transaction are determined by the staking transaction, its id and the parameters alone |
| UnbondingAgreement.AgreeExactly | signerapp/signer.go:107-223 | two signed transactions agree in every signed field if and only if the unbondings determined by what was read for them agree |
| UnbondingAgreement.MembersAgree | signerapp/signer.go:130-284 | members with different keys, tips and height caps, for whom the staking transaction parses the same under the same parameters, can only sign identical fields and so one message |
| UnbondingAgreement.SignedMessageInFull | signerapp/signer.go:252-284 | the signed message is the transaction's version, lock time, outpoint, sequence and output, the spent amount and script, and the leaf |
| UnbondingAgreement.SameMessageExactly | signerapp/signer.go:252-284 | two requests have one message if and only if the signed fields, the staking outputs and the revealed leaves are equal |
| UnbondingAgreement.FieldsInFull | signerapp/signer.go:93-223 | the signed fields are equal if and only if version, lock time, outpoint, sequence and output are |
| SignatureMessage.MessageInFull | signerapp/signer.go:252-258 | for any number of inputs, what the message ("Common signature message" of BIP 341) commits to, field by field and input by input |
| UnbondingAgreement.ExactMaturity | signerapp/signer.go:115-156 | a request is signed at a tip if and only if everything else about it is valid and the tip is at least inclusion height + depth - 1 |
| UnbondingAgreement.MaturityPersists | signerapp/signer.go:148-156 | a request signed at one tip is signed at every later one |
| UnbondingAgreement.LaterVersionsChangeNothing | signerapp/signer.go:128-134 | parameter versions that activate above the inclusion height change neither the result nor the outside calls |
| VersionedParams.LookupFindsLatest | signerapp/babylon_params_retriever.go:24-29 | over ascending versions the lookup finds the one with the greatest activation height not above the asked one, and nothing exactly when all activate above |
| VersionedParams.ParamsAreTheVersions | signerapp/babylon_params_retriever.go:24-42 | each of the ten parameters is the found version's, and there are none exactly when none is found |
| VersionedParams.LaterVersionsDoNotMatter | signerapp/babylon_params_retriever.go:24-42 | two lists with the same versions activated at a height give the same parameters there |
| VersionedParams.AppendedLaterVersions | signerapp/babylon_params_retriever.go:24-42 | versions added with activation above a height leave those activated at it unchanged |
| ChainInfo.TipConversionExact | btcclient/client.go:349-357 | the conversion of the block count is exact for 0..2^32-1 and for nothing else |
| Integers.KeepsLowBits | btcclient/client.go:349-357 | outside that range the low 32 bits are kept, and wrapping arithmetic keeps the low 64 |
| ExternalSigners.PsbtRawSignature | signerapp/btc_psbt_signer.go:30-95 | returns a signature if and only if the transaction is a transfer of version 1 or more, the control block serializes, and the wallet completes the packet, spelled out, with a list that begins with that signature; the packet is built by successive assignments |
| ExternalSigners.KeySignsExactly | signerapp/btc_priv_key_signer.go:27-53 | the direct signer returns a signature if and only if the transaction is a transfer, the wallet holds the key of the address, and the key gives that signature for the message, spelled out |
| ExternalSigners.ApprovedIsSigned | signerapp/signer.go:275-290 | a request that passes every validation gets the signature of a wallet that gives one, through either signer |
| ExternalSigners.ApprovedFitsPsbt | signerapp/btc_psbt_signer.go:31-45 | such a request is a final transfer of version 2, so the PSBT is never refused for its shape |
| ExternalSigners.SignerFailuresArePlain | signerapp/btc_psbt_signer.go:31-88 | no failure of either signer is blamed on the request unless one of the wallet or the library is |
| ExternalSigners.SignersAgreeExactly | signerapp/btc_psbt_signer.go:35-67 | the message of the rebuilt transaction equals the direct signer's if and only if the original input is final |
| ExternalSigners.ApprovedRequestHasOneMessage | signerapp/signer.go:250-284 | for every request that passes the gate both signers sign the same message, and it is the one the staker's signature was verified over if and only if the leaf is a base leaf |
| ExternalSigners.ReturnedSignatureVerifies | signerapp/btc_priv_key_signer.go:27-53 | with a wallet that signs for the key it was asked for, the returned signature verifies under the covenant key on the unbonding path when its leaf is a base leaf, through either signer |
| ServiceInvariants.RunsKeepStateOk | signerservice/handlers/sign_unbonding.go:25-91 | in every reachable state of every interleaving, each answer is what the sequential handler gives on the answers read, each signature is a decision of the gate for the transaction it names, and ids are unique on the chain |
| ServiceInvariants.LocatedCanGoOn | signerapp/signer.go:107-125 | a request that found its staking transaction can always take the second read |
| ServiceSafety.SigningsWereSettled | signerapp/signer.go:109-156 | whatever was signed for was, at one moment of the run, in the chain and as deep as its parameters ask |
| ServiceSafety.SignedForStaysInChain | signerapp/signer.go:109-156 | and it is in the chain at that height to the end of the run |
| ServiceSafety.NoConflictingSignatures | signerapp/signer.go:93-290 | over every interleaving of blocks, re-organisations and requests, all transactions ever signed for one staking id agree in every signed field, and all signatures are over one message |
| ServiceSafety.ConflictsExactly | signerapp/signer.go:93-290 | with no assumption about re-organisations: two transactions signed for one staking id agree if and only if the unbondings of the two reads, each with the parameters of its height, agree |
| ServiceSafety.ConflictsNeedOtherParameters | signerapp/signer.go:128-223 | with no assumption about re-organisations, if ids fix what is parsed: signatures for one staking id under equal parameters agree in every field and are over one message |
| ServiceSafety.OneVersionNeverConflicts | signerapp/signer.go:115-134 | parameters that are the same at all heights up to the height cap exclude conflicts in every run |
| TornRead.TornReadsCanConflict | signerapp/signer.go:143-148 | a run over two ascending parameter versions in which a re-organisation carries the staking transaction past the second activation between two reads, no deep block is lost, and two transactions spending one outpoint with different outputs are signed |
| ValueConservation.SignedAmounts | signerapp/signer.go:188-223 | of each signed request the payout is positive and the stake within its version's bounds; stake <= payout + fee, with equality if and only if the subtraction fits `int64`, which it does for a stake that is not negative |
| ValueConservation.DistinctCovers | signerapp/signer.go:169-174 | the signatures that are summed cover every outpoint ever signed for, each once |
| ValueConservation.ValueIsConserved | signerapp/signer.go:188-223 | over every run, whatever the re-organisations: the stakes of the distinct outpoints signed for are at most the payouts plus the fees, and equal to them if and only if no subtraction of a fee wrapped, which none does when no version allows a negative stake |
| ValueConservation.RepeatedSignaturesAgree | signerapp/signer.go:188-223 | when deep blocks stay and no read goes stale, all signatures for one outpoint carry the same stake, fee and payout |
| ServiceCounters.CountersBalance | signerservice/handlers/sign_unbonding.go:62-90 | in every reachable state received = succeeded + failed + in flight, each counter is the number of requests it describes, and signatures = succeeded + those obtained but not counted yet |
| ServiceCounters.RefusedIsUncounted | signerservice/handlers/sign_unbonding.go:26-62 | a request that does not decode moves no counter |
| ServiceProgress.SignedWhenMature | signerapp/signer.go:115-156 | read from one chain, a request is signed if and only if it is valid but for the tip and the chain has the blocks its depth asks for |
| ServiceProgress.SignedEverAfter | signerapp/signer.go:109-156 | on a chain that only grows the staking transaction keeps its place and a request once signable stays so |
| ServiceProgress.SignableIsSigned | signerservice/handlers/sign_unbonding.go:62-90 | from every reachable state, a received request that would be signed on the current chain has three enabled steps that lead to a 200 answer and one more success |
| Handlers.Handler.SignUnbonding | signerservice/handlers/sign_unbonding.go:25-91 | the result is the specified one, and the three shared counters move by one or zero according to whether the request decodes and whether a signature is returned |
| Handlers.DecodesExactly | signerservice/handlers/sign_unbonding.go:26-60 | a body decodes to a request if and only if, up to letter case, its script and signature are the encodings of the request's, its key is in a form of the key, and its transaction is in one of the two forms of the transaction with any bytes after it |
| Handlers.RefusesExactly | signerservice/handlers/sign_unbonding.go:26-60 | every other body is refused with 400 and the message of the first field at fault, in the order of the checks |
| Handlers.SignatureTexts | signerservice/handlers/sign_unbonding.go:16-23 | a signature text is the 128 digits of one signature |
| Metrics.CovenantSignerMetrics.IncReceivedSigningRequests | observability/metrics/signer.go:38-40 | adds one and touches no other counter |
| Metrics.CovenantSignerMetrics.IncSuccessfulSigningRequests | observability/metrics/signer.go:42-44 | adds one and touches no other counter |
| Metrics.CovenantSignerMetrics.IncFailedSigningRequests | observability/metrics/signer.go:46-48 | adds one and touches no other counter |
| HttpResponse.ServeSignUnbonding | signerservice/http_response.go:28-64 | exactly one response is appended on every path; when bodies can be marshalled it is 200 with the signature if every step holds, 400 with the reason for refusals and content faults, and 500 with the fixed message otherwise; a body that cannot is replaced by the plain 500 |
| HttpResponse.ResponseWriter.WriteResponse | signerservice/http_response.go:67-86 | appends the status and the body given, or the plain 500 when the body cannot be marshalled |
| HttpResponse.ResponseClass | signerservice/http_response.go:28-64 | 200 if and only if every validation step holds, with the signature; 400 for requests that do not decode and for exactly the steps about content; 500 with the fixed body for chain, parameters, misconfiguration, builder and signer failures |
| HttpResponse.HandledServerErrorsAreHidden | signerservice/http_response.go:45-59 | whatever the request and the answers, a 5xx response of this handler has the fixed body |
| ServiceErrors.NewError | signerservice/types/error.go:36-51 | never leaves the status or the code uninitialised, keeps what was given, and blames the service for what was not |
| Client.RequestRoundTrip | signerservice/client.go:36-53 | the server decodes what the client encoded to the same four arguments, if and only if the transaction has an input and the key is on the curve; this is about a decoder without the size limits on scripts and witness items that btcd adds |
| Client.ClientGetsTheSignature | signerservice/client.go:91-100 | through encoding, handler, response and decoding, the client obtains a signature exactly when the gate signs, and that signature |
| Client.AcceptsExactly | signerservice/client.go:91-100 | the client takes a signature from a 200 response that carries its text and from no other |
| Wire.CompactSizeRoundTrip | utils/btc.go:12-46 | the minimal count encoding is read back over all four length classes, whatever follows |
| Wire.DeserializeOfSerialize | utils/btc.go:12-46 | for every transaction with an input, with or without witnesses, and every suffix, decoding gives the transaction and leaves the suffix |
| Wire.RoundTripExactly | utils/btc.go:12-46 | and it does so for no transaction without inputs; the size limits that btcd adds on scripts and witness items are not part of this decoder |
| Wire.DeserializeOnly | utils/btc.go:12-20 | whatever the decoder accepts is one of the two forms of the transaction it returns, followed by what it leaves |
| Wire.PrefixFree | utils/btc.go:12-46 | equal bytes with any suffixes are equal transactions with equal suffixes |
| WireLayout.DecodesExactly | utils/btc.go:12-20 | the decoder reads a transaction and leaves a suffix if and only if the bytes are one of the two forms of the one followed by the other |
| WireLayout.CompactSizeBytes | utils/btc.go:12-46 | the bytes of a count in each of its four length classes |
| WireLayout.PlainTransfer | utils/btc.go:37-43 | the bytes of a transfer without witness, field by field, in the order of BIP 144 |
| WireLayout.SpentTransfer | utils/btc.go:37-43 | the bytes of a transfer with a witness: marker and flag after the version, witness before the lock time |
| TxCodec.NewBTCTxFromBytes | utils/btc.go:12-20 | any bytes that begin with the encoding of a transaction with an input give that transaction, drained or not; whatever is accepted began with one of the two forms of the result |
| TxCodec.SerializeBTCTx | utils/btc.go:37-43 | what is written is read back from any transaction with an input, and any suffix is left over |
| TxCodec.TxHexRoundTrip | utils/btc.go:22-54 | text and back gives the transaction and its bytes, if and only if it has an input |
| TxCodec.NothingIsLeft | utils/btc.go:12-43 | a transaction read back from its own bytes uses up all of them |
| TxCodec.SignatureHexRoundTrip | utils/btc.go:71-84 | a signature read back from its text is the signature |
| Hex.EncodeThenDecode | utils/btc.go:22-54 | decoding undoes encoding (section 8 of RFC 4648) |
| Hex.DecodeThenEncode | signerservice/handlers/sign_unbonding.go:32-42 | accepted are exactly the texts of even length made of hexadecimal digits, and re-encoding loses only the letter case |
| Hex.DecodesExactly | utils/btc.go:22-54 | a text decodes to some bytes if and only if it is their encoding up to letter case |
| Hex.EncodesNibbles | utils/btc.go:45-54 | each byte is two characters of the alphabet of section 8 of RFC 4648 in lower case, high bits first |
| Keys.SignatureRoundTrip | signerservice/handlers/sign_unbonding.go:16-23 | parsing undoes serialization of signatures |
| Keys.SignatureOnly | signerservice/handlers/sign_unbonding.go:16-23 | an accepted signature has one byte form |
| Keys.ParsesSignatureExactly | signerservice/handlers/sign_unbonding.go:16-23 | a signature is 64 bytes, the first half below the field prime and the second below the group order |
| Keys.PubKeyRoundTrip | signerservice/handlers/sign_unbonding.go:38-48 | a compressed key is read back if and only if it names a point of the curve |
| Keys.ParsesKeyExactly | signerservice/handlers/sign_unbonding.go:38-48 | which bytes give which key: the compressed, the uncompressed and the hybrid form |
| CoinSelection.ResultsToUtxos | btcclient/client.go:97-141 | fails exactly when a result that is spendable, or any if the filter is off, is malformed, with the error of the first such; otherwise converts the results that are kept, in order |
| CoinSelection.KeptIsKept | btcclient/client.go:99-103 | no result that passes the filter is lost |
| CoinSelection.KeptExactly | btcclient/client.go:99-103 | with the filter on, exactly the spendable results are kept, as often as they are listed; with it off, the list |
| CoinSelection.KeptInOrder | btcclient/client.go:99-103 | and in the order in which they are listed |
| CoinSelection.ConvertsExactly | btcclient/client.go:105-138 | amount, outpoint, script, redeem script and address of an output are the conversions of the result's own fields |
| CoinSelection.Swap | btcclient/client.go:95 | exchanges two elements and nothing else |
| CoinSelection.SortReverseByAmount | btcclient/client.go:233-235 | through comparison and swap alone, in place: largest first, and a permutation |
| InputSources.InputSource.constructor | btcclient/client.go:143-147 | the source starts with nothing consumed |
| InputSources.InputSource.Next | btcclient/client.go:149-162 | after any sequence of targets the four results hand out, in full, the prefix that the pure selection fixes from the list and the targets: a final unsigned input, the amount and the script of each output at its place, and the `int64` sum of the amounts; the rest of the list remains |
| InputSources.OneMoreTarget | btcclient/client.go:149-162 | continuing from earlier targets gives what the greatest target alone gives from the start |
| InputSources.SelectedExactly | btcclient/client.go:152-161 | the prefix is the shortest whose total reaches every target asked, or the whole list |
| InputSources.RunningTotalIsSum | btcclient/client.go:156 | the total is the sum of the prefix in `int64` |
| InputSources.TotalsExactly | btcclient/client.go:156 | it is the true sum for every prefix if and only if all of these fit |
| InputSources.WrappedTotalFallsShort | btcclient/client.go:152-161 | amounts for which the wrapped total misses a target that the outputs reach |
| InputSources.LargestFirst | btcclient/client.go:233-235 | any choice of outputs is worth at most as much as equally many from the front of the sorted list |
| InputSources.GreedyIsOptimal | btcclient/client.go:143-163 | over a sorted list and for every target: no choice of outputs, of any composition, reaches the target with fewer inputs than the source or where the source does not, if and only if the shortest sufficient prefix is worth no more than `int64` holds |
| InputSources.ReachesExactly | btcclient/client.go:149-162 | the source reaches a target if and only if the wrapped sum of some prefix does |
| InputSources.PrefixesSuffice | btcclient/client.go:233-235 | over a sorted list some choice of outputs is worth a target if and only if a prefix is |
| InputSources.ExhaustionIsDefinitive | btcclient/client.go:149-162 | with amounts that are not negative: if every choice of outputs falls short so does the source; the converse holds if and only if the shortest sufficient prefix, or a longer one, has a wrapped sum that reaches the target, and so whenever the former fits `int64` |
| InputSources.InsistingEnds | btcclient/client.go:149-162 | a caller who re-asks only above the last total, while not answered short, stops within one call more than there are outputs, and within as many if its first target is positive |
| Funding.FundingInputsAreDistinct | btcclient/client.go:97-163 | from a listing whose spendable results name distinct outputs come distinct inputs, through filter, conversion, sorting and any targets |
| Funding.NewUnsignedTransaction | btcclient/client.go:188-193 | a builder that asks for any targets in any order authors from the answers of the pure selection |
| Funding.AllDrawnInFull | btcclient/client.go:149-162 | every answer the builder gets hands out, in full, the outputs that the targets so far need |
| Funding.SpendableExactly | btcclient/client.go:97-141 | the converted outputs are exactly those of results listed as spendable |
| Funding.BuildTxFromOutputs | btcclient/client.go:165-200 | an empty wallet and an empty payment are refused, each with its error; otherwise the result, failure included, is the builder's, from the payment, the fee rate, the change script and the answers |
| Funding.CreateTransaction | btcclient/client.go:216-250 | the first fault in the order of the checks is returned: the listing's, the first malformed spendable result's, the change script's, or that of the build; otherwise the builder's result over a permutation, largest first, of the outputs of the results listed as spendable |
| Funding.FundedTransactionIsSound | btcclient/client.go:216-250 | with a builder that spends what it drew last, every input is unsigned and final and spends an output listed as spendable, and none is spent twice |
| ChainInfo.OnlyInChain | signerapp/btc_chain_info.go:21-36 | a transaction is reported if and only if the notifier found it in a block, then unchanged; a failed query keeps its error class |
| HttpResponse.ServerErrorsAreHidden | signerservice/http_response.go:45-63 | for every outcome with a 5xx response: the fixed message, if and only if the outcome is an error or a result of unknown status |

## Left out

- Transport: HTTP, routing, TLS, timeouts, the content-length limit, RPC to bitcoind, the command line, configuration files, logging and metric registration. JSON bodies are records of strings; a body that is no such record is `None`, and whether a response can be marshalled is a parameter.
- Elliptic-curve and Schnorr arithmetic, taproot trees, and parsing inside `btcstaking` and `txscript`: abstract deterministic functions.
- Fee estimation and change inside `txauthor.NewUnsignedTransaction`: the builder is any caller of the input source, with any targets in any order, and any function from the payment, the fee rate, the change script and the answers to a transaction or a failure.
- The algorithm of `sort.Sort`: an insertion sort through the same two operations stands in for it, so the order among equal amounts is not modelled.
- Rounding inside `btcutil.NewAmount` and the parsing of transaction ids: abstract conversions that may fail.
- Sharing of backing arrays between slices returned by the input source: each call returns values.
- Size limits of btcd on message payloads and on single scripts: the decoder of the model accepts any length that fits its count.
- The exact texts of rejections: an error keeps its text approximately and exactly whether it wraps the sentinel.
- Atomicity below one chain read: each of the two reads is one step.
- Wallet unlocking, `CreateAndSignTx`, sending, and `ListOutputs`, which is `resultsToUtxos` behind one RPC call.
- Memory hygiene of the private-key signer (zeroing the key after use).
- InputSources.ExhaustionIsDefinitive: asks for amounts that are not negative, as a wallet lists them; without that, sums can also wrap upwards.
- ServiceSafety.ConflictsNeedOtherParameters: asks that transactions with one id parse the same, which the staking library and the hash are not here to prove; `ConflictsExactly` asks nothing.
- Funding.FundedTransactionIsSound: asks that the builder spends the inputs of its last answer, which its source is not here to prove.
