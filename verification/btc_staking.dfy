/** The staking library the signer calls, as deterministic functions on the configured network. Only what
    the signer relies on is fixed; the rest of each function is a field of `Library`. */
module BtcStaking {
  import opened Bitcoin
  import opened Errors
  import opened Integers
  import opened Keys
  import opened SignatureMessage
  import opened Wrappers

  datatype ScriptClass = WitnessV1Taproot | OtherClass

  datatype OpReturnData = OpReturnData(stakerPublicKey: PubKey, finalityProviderPublicKey: PubKey, stakingTime: uint16)

  datatype ParsedStakingTx = ParsedStakingTx(stakingOutput: TxOut, stakingOutputIdx: int, opReturnData: OpReturnData)

  /** A control block may fail to serialize. */
  datatype ControlBlock = ControlBlock(toBytes: Result<bytes, Error>)

  datatype SpendInfo = SpendInfo(controlBlock: ControlBlock, revealedLeaf: TapLeaf)

  datatype StakingInfo = StakingInfo(unbondingPathSpendInfo: Result<SpendInfo, Error>)

  datatype Library = Library(
    txid: MsgTx -> Hash,
    furtherSanity: MsgTx -> Outcome<Error>,
    furtherSimplicity: MsgTx -> Outcome<Error>,
    parsePkScript: bytes -> Result<ScriptClass, Error>,
    parseV0StakingTx: (MsgTx, bytes, seq<PubKey>, uint32) -> Result<ParsedStakingTx, Error>,
    unbondingPkScript: (PubKey, seq<PubKey>, seq<PubKey>, uint32, uint16, int64) -> Result<bytes, Error>,
    buildStakingInfo: (PubKey, seq<PubKey>, seq<PubKey>, uint32, uint16, int64) -> Result<StakingInfo, Error>,
    schnorrVerify: (PubKey, Message, Signature) -> Outcome<Error>,
    pubKeyToAddress: PubKey -> Result<string, Error>)

  /** One final input, one output, no lock time, version 2. */
  predicate UnbondingShape(tx: MsgTx) {
    && tx.version == 2
    && tx.lockTime == 0
    && |tx.txIn| == 1
    && |tx.txOut| == 1
    && tx.txIn[0].sequence == MAX_TX_IN_SEQUENCE_NUM
  }

  function CheckPreSignedUnbondingTxSanity(lib: Library, tx: MsgTx): Outcome<Error> {
    if !UnbondingShape(tx) then Fail(Errorf("pre-signed unbonding transaction has the wrong shape"))
    else lib.furtherSanity(tx)
  }

  function IsSimpleTransfer(lib: Library, tx: MsgTx): Outcome<Error> {
    if |tx.txIn| != 1 || |tx.txOut| != 1 then Fail(Errorf("not a transfer from one input to one output"))
    else lib.furtherSimplicity(tx)
  }

  /** The unbonding output carries the value asked for. */
  function BuildUnbondingInfo(
      lib: Library, staker: PubKey, finalityProviders: seq<PubKey>, covenant: seq<PubKey>, quorum: uint32,
      unbondingTime: uint16, value: int64): Result<TxOut, Error>
  {
    var script :- lib.unbondingPkScript(staker, finalityProviders, covenant, quorum, unbondingTime, value);
    Success(TxOut(value, script))
  }

  /** Verification is over the script-spend message of the single input, with `script` as a base leaf. */
  function VerifyTransactionSigWithOutput(
      lib: Library, tx: MsgTx, fundingOutput: TxOut, script: bytes, key: PubKey, sig: Signature): Outcome<Error>
  {
    lib.schnorrVerify(key, ScriptSpendMessage(tx, [fundingOutput], 0, NewBaseTapLeaf(script)), sig)
  }
}
