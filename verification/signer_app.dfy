/** The decision whether to sign an unbonding transaction. */
module SignerApp {
  import opened Bitcoin
  import opened BtcStaking
  import opened ChainInfo
  import opened Errors
  import opened Integers
  import opened Keys
  import opened SignatureMessage
  import opened VersionedParams
  import opened Wrappers

  datatype SigningRequest = SigningRequest(
    stakingOutput: TxOut, unbondingTransaction: MsgTx, covenantPublicKey: PubKey, covenantAddress: string, spend: SpendInfo)

  /** The fixed collaborators of the signer. */
  datatype SignerApp = SignerApp(
    lib: Library, paramsByHeight: uint64 -> Result<BabylonParams, Error>, maxStakingTransactionHeight: uint32)

  /** The arguments of one call. */
  datatype Request = Request(pkScript: bytes, tx: MsgTx, stakerSig: Signature, covenantKey: PubKey)

  /** What the chain and the external signer answer during one call. */
  datatype Answers = Answers(
    txByHash: Result<TxInfo, Error>, bestBlock: Result<uint32, Error>, rawSignature: SigningRequest -> Result<Signature, Error>)

  /** The outside calls a request causes, in order. */
  datatype Call =
    | CallTxByHash(hash: Hash, pkScript: bytes)
    | CallBestBlockHeight
    | CallParamsByHeight(height: uint64)
    | CallRawSignature(request: SigningRequest)

  datatype Logged<+T> = Logged(result: Result<T, Error>, calls: seq<Call>)

  predicate IsCovenantMember(key: PubKey, covenantKeys: seq<PubKey>) {
    key in covenantKeys
  }

  predicate OutputsAreEqual(a: TxOut, b: TxOut) {
    a.value == b.value && a.pkScript == b.pkScript
  }

  /** Confirmations in `int64` arithmetic; the two heights come from two reads of a moving chain. */
  function NumberOfConfirmations(bestBlock: uint32, inclusionHeight: uint32): int64 {
    ToInt64(ToInt64(bestBlock - inclusionHeight) + 1)
  }

  function ExpectedUnbondingValue(stakingValue: int64, unbondingFee: int64): int64 {
    ToInt64(stakingValue - unbondingFee)
  }

  /** Up to the first chain read and the check of what it found. */
  function Locate(app: SignerApp, req: Request, txByHash: Result<TxInfo, Error>): Logged<TxInfo> {
    match BlameOutcome(CheckPreSignedUnbondingTxSanity(app.lib, req.tx))
    case Fail(e) => Logged(Failure(e), [])
    case Pass =>
      match Blame(app.lib.parsePkScript(req.pkScript))
      case Failure(e) => Logged(Failure(e), [])
      case Success(scriptClass) =>
        if scriptClass != WitnessV1Taproot then Logged(Failure(InvalidRequest("invalid staking output pk script")), [])
        else
          var asked := [CallTxByHash(req.tx.txIn[0].previousOutPoint.hash, req.pkScript)];
          match txByHash
          case Failure(e) => Logged(Failure(e), asked)
          case Success(info) =>
            if info.txInclusionHeight > app.maxStakingTransactionHeight then
              Logged(Failure(InvalidRequest("staking transaction is included too late")), asked)
            else Logged(Success(info), asked)
  }

  function CheckInclusion(req: Request, info: TxInfo, bestBlock: uint32, params: BabylonParams): Outcome<Error> {
    if !IsCovenantMember(req.covenantKey, params.covenantPublicKeys) then Fail(InvalidRequest("not a committee member"))
    else Need(NumberOfConfirmations(bestBlock, info.txInclusionHeight) >= params.confirmationDepth,
         InvalidRequest("staking tx does not have enough confirmations"))
  }

  function CheckStaking(lib: Library, req: Request, info: TxInfo, params: BabylonParams): Result<ParsedStakingTx, Error>
    requires UnbondingShape(req.tx)
  {
    var parsed :- Blame(lib.parseV0StakingTx(info.tx, params.magicBytes, params.covenantPublicKeys, params.covenantQuorum));
    :- Need(req.tx.txIn[0].previousOutPoint.index == ToUint32(parsed.stakingOutputIdx),
            InvalidRequest("unbonding transaction has invalid input index"));
    :- Need(params.minStakingTime <= parsed.opReturnData.stakingTime <= params.maxStakingTime,
            InvalidRequest("staking time is out of bounds"));
    :- Need(params.minStakingAmount <= parsed.stakingOutput.value <= params.maxStakingAmount,
            InvalidRequest("staking amount is out of bounds"));
    Success(parsed)
  }

  /** A fee that eats the whole value is a fault of the parameters, not of the request. */
  function CheckUnbondingOutput(lib: Library, req: Request, params: BabylonParams, parsed: ParsedStakingTx): Result<(), Error>
    requires UnbondingShape(req.tx)
  {
    var value := ExpectedUnbondingValue(parsed.stakingOutput.value, params.unbondingFee);
    :- Need(value > 0, Errorf("staking output value is too low"));
    var data := parsed.opReturnData;
    var expected :- BuildUnbondingInfo(lib, data.stakerPublicKey, [data.finalityProviderPublicKey], params.covenantPublicKeys,
                                       params.covenantQuorum, params.unbondingTime, value);
    :- Need(OutputsAreEqual(expected, req.tx.txOut[0]), InvalidRequest("unbonding output does not match expected output"));
    Success(())
  }

  function CheckStakerSignature(lib: Library, req: Request, params: BabylonParams, parsed: ParsedStakingTx): Result<SpendInfo, Error> {
    var data := parsed.opReturnData;
    var stakingInfo :- lib.buildStakingInfo(data.stakerPublicKey, [data.finalityProviderPublicKey], params.covenantPublicKeys,
                                            params.covenantQuorum, data.stakingTime, parsed.stakingOutput.value);
    var spend :- stakingInfo.unbondingPathSpendInfo;
    :- BlameOutcome(VerifyTransactionSigWithOutput(lib, req.tx, parsed.stakingOutput, spend.revealedLeaf.script,
                                                   data.stakerPublicKey, req.stakerSig));
    Success(spend)
  }

  /** Everything between the reads and the signature: from the parameters of the inclusion height to
      the request handed to the external signer. */
  function Authorize(app: SignerApp, req: Request, info: TxInfo, bestBlock: uint32, params: BabylonParams): Result<SigningRequest, Error>
    requires UnbondingShape(req.tx)
  {
    var lib := app.lib;
    :- CheckInclusion(req, info, bestBlock, params);
    var parsed :- CheckStaking(lib, req, info, params);
    var _ :- CheckUnbondingOutput(lib, req, params, parsed);
    var spend :- CheckStakerSignature(lib, req, params, parsed);
    var address :- lib.pubKeyToAddress(req.covenantKey);
    Success(SigningRequest(parsed.stakingOutput, req.tx, req.covenantKey, address, spend))
  }

  /** From the second chain read to the signature. */
  function Conclude(
      app: SignerApp, req: Request, info: TxInfo, bestBlock: Result<uint32, Error>,
      rawSignature: SigningRequest -> Result<Signature, Error>): Logged<Signature>
    requires UnbondingShape(req.tx)
  {
    match bestBlock
    case Failure(e) => Logged(Failure(e), [CallBestBlockHeight])
    case Success(tip) =>
      var asked := [CallBestBlockHeight, CallParamsByHeight(info.txInclusionHeight)];
      match app.paramsByHeight(info.txInclusionHeight)
      case Failure(e) => Logged(Failure(e), asked)
      case Success(params) =>
        match Authorize(app, req, info, tip, params)
        case Failure(e) => Logged(Failure(e), asked)
        case Success(request) => Logged(rawSignature(request), asked + [CallRawSignature(request)])
  }

  function SignUnbondingTransaction(app: SignerApp, req: Request, io: Answers): Logged<Signature> {
    var located := Locate(app, req, io.txByHash);
    match located.result
    case Failure(e) => Logged(Failure(e), located.calls)
    case Success(info) =>
      var concluded := Conclude(app, req, info, io.bestBlock, io.rawSignature);
      Logged(concluded.result, located.calls + concluded.calls)
  }
}
