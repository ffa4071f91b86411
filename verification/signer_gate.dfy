/** The signing decision against the documented list of validations: which requests are signed, what a
    rejection is blamed on, and what is asked of the outside world on the way. */
module SignerGate {
  import opened Bitcoin
  import opened BtcStaking
  import opened ChainInfo
  import opened Errors
  import opened Integers
  import opened Keys
  import opened SignatureMessage
  import opened SignerApp
  import opened VersionedParams
  import opened Wrappers

  /** What is at fault when a step does not hold. */
  datatype Fault = Content | Chain | Parameters | Misconfiguration | Builder | Signer

  /** The validation steps, in the order in which they are taken. */
  datatype Step =
    | Sanity | TaprootScript | StakingTxInChain | HeightCap | TipKnown | ParamsKnown | CommitteeMember | Depth
    | StakingTxShape | OutputIndex | StakingTime | StakingAmount | FeeBelowValue | UnbondingOutputBuilt | OutputMatch
    | StakingInfoBuilt | UnbondingPath | StakerSignature | AddressBuilt | Signed

  const STEPS: nat := 20

  function StepAt(n: nat): Step
    requires n < STEPS
  {
    match n
    case 0 => Sanity case 1 => TaprootScript case 2 => StakingTxInChain case 3 => HeightCap case 4 => TipKnown
    case 5 => ParamsKnown case 6 => CommitteeMember case 7 => Depth case 8 => StakingTxShape case 9 => OutputIndex
    case 10 => StakingTime case 11 => StakingAmount case 12 => FeeBelowValue case 13 => UnbondingOutputBuilt
    case 14 => OutputMatch case 15 => StakingInfoBuilt case 16 => UnbondingPath case 17 => StakerSignature
    case 18 => AddressBuilt case _ => Signed
  }

  function Blamed(step: Step): Fault {
    match step
    case StakingTxInChain | TipKnown => Chain
    case ParamsKnown => Parameters
    case FeeBelowValue => Misconfiguration
    case UnbondingOutputBuilt | StakingInfoBuilt | UnbondingPath | AddressBuilt => Builder
    case Signed => Signer
    case _ => Content
  }

  function InclusionParams(app: SignerApp, io: Answers): Result<BabylonParams, Error> {
    var info :- io.txByHash;
    app.paramsByHeight(info.txInclusionHeight)
  }

  function Staking(app: SignerApp, io: Answers): Result<ParsedStakingTx, Error> {
    var info :- io.txByHash;
    var p :- InclusionParams(app, io);
    app.lib.parseV0StakingTx(info.tx, p.magicBytes, p.covenantPublicKeys, p.covenantQuorum)
  }

  /** The only output that may be unbonded to. */
  function ExpectedOutput(app: SignerApp, io: Answers): Result<TxOut, Error> {
    var p :- InclusionParams(app, io);
    var s :- Staking(app, io);
    BuildUnbondingInfo(app.lib, s.opReturnData.stakerPublicKey, [s.opReturnData.finalityProviderPublicKey],
                       p.covenantPublicKeys, p.covenantQuorum, p.unbondingTime,
                       ExpectedUnbondingValue(s.stakingOutput.value, p.unbondingFee))
  }

  function OriginalStakingInfo(app: SignerApp, io: Answers): Result<StakingInfo, Error> {
    var p :- InclusionParams(app, io);
    var s :- Staking(app, io);
    app.lib.buildStakingInfo(s.opReturnData.stakerPublicKey, [s.opReturnData.finalityProviderPublicKey],
                             p.covenantPublicKeys, p.covenantQuorum, s.opReturnData.stakingTime, s.stakingOutput.value)
  }

  function UnbondingSpend(app: SignerApp, io: Answers): Result<SpendInfo, Error> {
    var info :- OriginalStakingInfo(app, io);
    info.unbondingPathSpendInfo
  }

  /** The request the external signer is asked to sign, once every validation holds. */
  function ApprovedRequest(app: SignerApp, req: Request, io: Answers): Result<SigningRequest, Error> {
    var s :- Staking(app, io);
    var spend :- UnbondingSpend(app, io);
    var address :- app.lib.pubKeyToAddress(req.covenantKey);
    Success(SigningRequest(s.stakingOutput, req.tx, req.covenantKey, address, spend))
  }

  /** What a call gets to see: its arguments, the answers, and what follows from them. */
  datatype View = View(
    app: SignerApp,
    req: Request,
    io: Answers,
    params: Result<BabylonParams, Error>,
    staking: Result<ParsedStakingTx, Error>,
    expected: Result<TxOut, Error>,
    stakingInfo: Result<StakingInfo, Error>,
    spend: Result<SpendInfo, Error>,
    approved: Result<SigningRequest, Error>)

  function Look(app: SignerApp, req: Request, io: Answers): View {
    View(app, req, io, InclusionParams(app, io), Staking(app, io), ExpectedOutput(app, io), OriginalStakingInfo(app, io),
         UnbondingSpend(app, io), ApprovedRequest(app, req, io))
  }

  // ---------- The steps, each on its own, in plain integers and on the values read ----------

  ghost predicate IsSane(v: View) {
    UnbondingShape(v.req.tx) && v.app.lib.furtherSanity(v.req.tx).Pass?
  }

  ghost predicate PaysToTaproot(v: View) {
    v.app.lib.parsePkScript(v.req.pkScript) == Success(WitnessV1Taproot)
  }

  ghost predicate IsInChain(v: View) {
    v.io.txByHash.Success?
  }

  ghost predicate IsBelowCap(v: View) {
    v.io.txByHash.Success? && v.io.txByHash.value.txInclusionHeight <= v.app.maxStakingTransactionHeight
  }

  ghost predicate HasTip(v: View) {
    v.io.bestBlock.Success?
  }

  ghost predicate HasParams(v: View) {
    v.params.Success?
  }

  ghost predicate IsFromCommittee(v: View) {
    v.params.Success? && v.req.covenantKey in v.params.value.covenantPublicKeys
  }

  ghost predicate IsDeepEnough(v: View) {
    && v.params.Success? && v.io.txByHash.Success? && v.io.bestBlock.Success?
    && v.io.bestBlock.value + 1 >= v.io.txByHash.value.txInclusionHeight + v.params.value.confirmationDepth
  }

  ghost predicate IsStakingTx(v: View) {
    v.staking.Success?
  }

  ghost predicate SpendsStakingOutput(v: View) {
    && v.staking.Success? && |v.req.tx.txIn| == 1
    && v.req.tx.txIn[0].previousOutPoint.index == ToUint32(v.staking.value.stakingOutputIdx)
  }

  ghost predicate IsTimeInBounds(v: View) {
    && v.params.Success? && v.staking.Success?
    && var p := v.params.value; p.minStakingTime <= v.staking.value.opReturnData.stakingTime <= p.maxStakingTime
  }

  ghost predicate IsAmountInBounds(v: View) {
    && v.params.Success? && v.staking.Success?
    && var p := v.params.value; p.minStakingAmount <= v.staking.value.stakingOutput.value <= p.maxStakingAmount
  }

  ghost predicate IsFeeBelowValue(v: View) {
    && v.params.Success? && v.staking.Success?
    && ExpectedUnbondingValue(v.staking.value.stakingOutput.value, v.params.value.unbondingFee) > 0
  }

  ghost predicate IsOutputBuilt(v: View) {
    v.expected.Success?
  }

  ghost predicate IsOutputExpected(v: View) {
    v.expected.Success? && v.req.tx.txOut == [v.expected.value]
  }

  ghost predicate IsStakingInfoBuilt(v: View) {
    v.stakingInfo.Success?
  }

  ghost predicate IsUnbondingPathBuilt(v: View) {
    v.spend.Success?
  }

  ghost predicate IsSignedByStaker(v: View) {
    && v.staking.Success? && v.spend.Success?
    && VerifyTransactionSigWithOutput(
         v.app.lib, v.req.tx, v.staking.value.stakingOutput, v.spend.value.revealedLeaf.script,
         v.staking.value.opReturnData.stakerPublicKey, v.req.stakerSig).Pass?
  }

  ghost predicate IsAddressBuilt(v: View) {
    v.app.lib.pubKeyToAddress(v.req.covenantKey).Success?
  }

  ghost predicate IsSignatureGiven(v: View) {
    v.approved.Success? && v.io.rawSignature(v.approved.value).Success?
  }

  ghost predicate Holds(step: Step, v: View) {
    match step
    case Sanity => IsSane(v)
    case TaprootScript => PaysToTaproot(v)
    case StakingTxInChain => IsInChain(v)
    case HeightCap => IsBelowCap(v)
    case TipKnown => HasTip(v)
    case ParamsKnown => HasParams(v)
    case CommitteeMember => IsFromCommittee(v)
    case Depth => IsDeepEnough(v)
    case StakingTxShape => IsStakingTx(v)
    case OutputIndex => SpendsStakingOutput(v)
    case StakingTime => IsTimeInBounds(v)
    case StakingAmount => IsAmountInBounds(v)
    case FeeBelowValue => IsFeeBelowValue(v)
    case UnbondingOutputBuilt => IsOutputBuilt(v)
    case OutputMatch => IsOutputExpected(v)
    case StakingInfoBuilt => IsStakingInfoBuilt(v)
    case UnbondingPath => IsUnbondingPathBuilt(v)
    case StakerSignature => IsSignedByStaker(v)
    case AddressBuilt => IsAddressBuilt(v)
    case Signed => IsSignatureGiven(v)
  }

  /** The first `n` steps hold. */
  ghost predicate HoldUpTo(n: nat, v: View)
    requires n <= STEPS
  {
    n > 0 ==> HoldUpTo(n - 1, v) && Holds(StepAt(n - 1), v)
  }

  /** Step `n` is the first that does not hold. */
  ghost predicate StopsAt(n: nat, v: View) {
    n < STEPS && HoldUpTo(n, v) && !Holds(StepAt(n), v)
  }

  /** The `int64` expression of the code is the integer one for all heights: no step of it can overflow. */
  lemma ConfirmationsExact(best: uint32, inclusion: uint32)
    ensures NumberOfConfirmations(best, inclusion) == best - inclusion + 1
  {
  }

  /** A torn read, with the staking transaction above the tip, is turned down for every depth but 0, at which
      exactly one such case passes. */
  lemma TornReads(best: uint32, inclusion: uint32, depth: uint16)
    requires inclusion > best
    ensures NumberOfConfirmations(best, inclusion) >= depth <==> depth == 0 && inclusion == best + 1
  {
    ConfirmationsExact(best, inclusion);
  }

  /** The subtraction of the fee is exact unless it leaves `int64`. The check that the result is positive is passed by
      a wrapped result exactly when the true one is below all of `int64`, for which the staking value must be negative. */
  lemma FeeSubtraction(value: int64, fee: int64)
    ensures ExpectedUnbondingValue(value, fee) == value - fee <==> FitsInt64(value - fee)
    ensures ExpectedUnbondingValue(value, fee) > 0 <==> (if FitsInt64(value - fee) then value - fee > 0 else value - fee < 0)
    ensures value >= 0 ==> (value - fee < 0 || fee >= 0 ==> FitsInt64(value - fee))
  {
  }

  /** The least staking value, less one satoshi, would pay out the most there is. */
  lemma WrappedFeePaysOut()
    ensures ExpectedUnbondingValue(-0x8000_0000_0000_0000, 1) == 0x7fff_ffff_ffff_ffff
  {
  }

  /** No failure of a collaborator, if this call meets one, already wraps the sentinel for invalid requests. */
  ghost predicate PlainErrors(v: View) {
    && Plain(v.io.txByHash) && Plain(v.io.bestBlock)
    && (v.io.txByHash.Success? ==> Plain(v.params))
    && (v.staking.Success? ==>
          Plain(v.expected) && Plain(v.stakingInfo) && Plain(v.spend))
    && Plain(v.app.lib.pubKeyToAddress(v.req.covenantKey))
    && (v.approved.Success? ==> Plain(v.io.rawSignature(v.approved.value)))
  }

  predicate Plain<T>(r: Result<T, Error>) {
    r.Failure? ==> !r.error.invalidRequest
  }

  /** The outside calls of a run in which exactly the first `n` steps hold. */
  ghost function CallsAfter(n: nat, v: View): seq<Call>
    requires n >= 2 ==> |v.req.tx.txIn| == 1
    requires n >= 4 ==> v.io.txByHash.Success?
    requires n >= 19 ==> v.approved.Success?
  {
    (if n >= 2 then [CallTxByHash(v.req.tx.txIn[0].previousOutPoint.hash, v.req.pkScript)] else [])
    + (if n >= 4 then [CallBestBlockHeight] else [])
    + (if n >= 5 then [CallParamsByHeight(v.io.txByHash.value.txInclusionHeight)] else [])
    + (if n >= 19 then [CallRawSignature(v.approved.value)] else [])
  }

  lemma {:induction false} HoldUpToFewer(m: nat, n: nat, v: View)
    requires m <= n <= STEPS && HoldUpTo(n, v)
    ensures HoldUpTo(m, v)
  {
    if m < n {
      HoldUpToFewer(m, n - 1, v);
    }
  }

  // ---------- Stage by stage ----------

  lemma LocateStage(app: SignerApp, req: Request, io: Answers)
    ensures var out := Locate(app, req, io.txByHash);
            && (IsSane(Look(app, req, io)) && PaysToTaproot(Look(app, req, io)) && IsInChain(Look(app, req, io))
                && IsBelowCap(Look(app, req, io))) == out.result.Success?
            && (out.result.Success? ==> out.result == io.txByHash)
            && (out.result.Failure? && Plain(io.txByHash) ==>
                  (out.result.error.invalidRequest <==> !IsSane(Look(app, req, io)) || !PaysToTaproot(Look(app, req, io)) || IsInChain(Look(app, req, io))))
            && (if IsSane(Look(app, req, io)) && PaysToTaproot(Look(app, req, io))
                then out.calls == [CallTxByHash(req.tx.txIn[0].previousOutPoint.hash, req.pkScript)] else out.calls == [])
  {
  }

  lemma InclusionStage(app: SignerApp, req: Request, io: Answers)
    requires io.txByHash.Success? && io.bestBlock.Success? && InclusionParams(app, io).Success?
    ensures var r := CheckInclusion(req, io.txByHash.value, io.bestBlock.value, InclusionParams(app, io).value);
            && (r.Pass? <==> IsFromCommittee(Look(app, req, io)) && IsDeepEnough(Look(app, req, io)))
            && (r.Fail? ==> r.error.invalidRequest)
  {
    ConfirmationsExact(io.bestBlock.value, io.txByHash.value.txInclusionHeight);
  }

  lemma StakingStage(app: SignerApp, req: Request, io: Answers)
    requires io.txByHash.Success? && InclusionParams(app, io).Success? && UnbondingShape(req.tx)
    ensures var r := CheckStaking(app.lib, req, io.txByHash.value, InclusionParams(app, io).value);
            && (r.Success? <==> IsStakingTx(Look(app, req, io)) && SpendsStakingOutput(Look(app, req, io))
                                && IsTimeInBounds(Look(app, req, io)) && IsAmountInBounds(Look(app, req, io)))
            && (r.Success? ==> r == Staking(app, io))
            && (r.Failure? ==> r.error.invalidRequest)
  {
  }

  lemma OutputStage(app: SignerApp, req: Request, io: Answers)
    requires InclusionParams(app, io).Success? && Staking(app, io).Success? && UnbondingShape(req.tx)
    ensures var r := CheckUnbondingOutput(app.lib, req, InclusionParams(app, io).value, Staking(app, io).value);
            && (r.Success? <==> IsFeeBelowValue(Look(app, req, io)) && IsOutputBuilt(Look(app, req, io))
                                && IsOutputExpected(Look(app, req, io)))
            && (r.Failure? && Plain(ExpectedOutput(app, io)) ==>
                  (r.error.invalidRequest <==> IsFeeBelowValue(Look(app, req, io)) && IsOutputBuilt(Look(app, req, io))))
  {
  }

  lemma SignatureStage(app: SignerApp, req: Request, io: Answers)
    requires InclusionParams(app, io).Success? && Staking(app, io).Success?
    ensures var r := CheckStakerSignature(app.lib, req, InclusionParams(app, io).value, Staking(app, io).value);
            && (r.Success? <==> IsStakingInfoBuilt(Look(app, req, io)) && IsUnbondingPathBuilt(Look(app, req, io))
                                && IsSignedByStaker(Look(app, req, io)))
            && (r.Success? ==> r == UnbondingSpend(app, io))
            && (r.Failure? && Plain(OriginalStakingInfo(app, io)) && Plain(UnbondingSpend(app, io)) ==>
                  (r.error.invalidRequest <==> IsStakingInfoBuilt(Look(app, req, io)) && IsUnbondingPathBuilt(Look(app, req, io))))
  {
  }

  // ---------- The stages as ranges of steps ----------

  lemma ReadSteps(v: View)
    ensures HoldUpTo(2, v)
       <==> IsSane(v) && PaysToTaproot(v)
    ensures HoldUpTo(3, v)
       <==> HoldUpTo(2, v) && IsInChain(v)
    ensures HoldUpTo(4, v)
       <==> HoldUpTo(3, v) && IsBelowCap(v)
    ensures HoldUpTo(5, v)
       <==> HoldUpTo(4, v) && HasTip(v)
    ensures HoldUpTo(6, v)
       <==> HoldUpTo(5, v) && HasParams(v)
  {
    hide IsSane, PaysToTaproot, IsInChain, IsBelowCap, HasTip, HasParams;
    assert HoldUpTo(1, v) <==> HoldUpTo(0, v) && IsSane(v);
  }

  lemma InclusionSteps(v: View)
    ensures HoldUpTo(8, v)
       <==> HoldUpTo(6, v) && IsFromCommittee(v) && IsDeepEnough(v)
  {
    hide IsFromCommittee, IsDeepEnough;
    assert HoldUpTo(7, v) <==> HoldUpTo(6, v) && IsFromCommittee(v);
  }

  lemma StakingSteps(v: View)
    ensures HoldUpTo(12, v)
       <==> HoldUpTo(8, v) && IsStakingTx(v) && SpendsStakingOutput(v) && IsTimeInBounds(v) && IsAmountInBounds(v)
  {
    hide IsStakingTx, SpendsStakingOutput, IsTimeInBounds, IsAmountInBounds;
    assert HoldUpTo(9, v) <==> HoldUpTo(8, v) && IsStakingTx(v);
    assert HoldUpTo(10, v) <==> HoldUpTo(9, v) && SpendsStakingOutput(v);
    assert HoldUpTo(11, v) <==> HoldUpTo(10, v) && IsTimeInBounds(v);
  }

  lemma OutputSteps(v: View)
    ensures HoldUpTo(14, v)
       <==> HoldUpTo(12, v) && IsFeeBelowValue(v) && IsOutputBuilt(v)
    ensures HoldUpTo(15, v)
       <==> HoldUpTo(14, v) && IsOutputExpected(v)
  {
    hide IsFeeBelowValue, IsOutputBuilt, IsOutputExpected;
    assert HoldUpTo(13, v) <==> HoldUpTo(12, v) && IsFeeBelowValue(v);
  }

  lemma SpendSteps(v: View)
    ensures HoldUpTo(17, v)
       <==> HoldUpTo(15, v) && IsStakingInfoBuilt(v) && IsUnbondingPathBuilt(v)
    ensures HoldUpTo(18, v)
       <==> HoldUpTo(17, v) && IsSignedByStaker(v)
  {
    hide IsStakingInfoBuilt, IsUnbondingPathBuilt, IsSignedByStaker;
    assert HoldUpTo(16, v) <==> HoldUpTo(15, v) && IsStakingInfoBuilt(v);
  }

  lemma FinalSteps(v: View)
    ensures HoldUpTo(19, v)
       <==> HoldUpTo(18, v) && IsAddressBuilt(v)
    ensures HoldUpTo(20, v)
       <==> HoldUpTo(19, v) && IsSignatureGiven(v)
  {
    hide IsAddressBuilt, IsSignatureGiven;
  }

  lemma AllSteps(v: View)
    ensures HoldUpTo(20, v)
       <==> IsSane(v) && PaysToTaproot(v) && IsInChain(v) && IsBelowCap(v)
            && HasTip(v) && HasParams(v) && IsFromCommittee(v) && IsDeepEnough(v)
            && IsStakingTx(v) && SpendsStakingOutput(v) && IsTimeInBounds(v) && IsAmountInBounds(v)
            && IsFeeBelowValue(v) && IsOutputBuilt(v) && IsOutputExpected(v) && IsStakingInfoBuilt(v)
            && IsUnbondingPathBuilt(v) && IsSignedByStaker(v) && IsAddressBuilt(v) && IsSignatureGiven(v)
  {
    hide *;
    ReadSteps(v);
    InclusionSteps(v);
    StakingSteps(v);
    OutputSteps(v);
    SpendSteps(v);
    FinalSteps(v);
  }

  lemma AuthorizeStage(app: SignerApp, req: Request, io: Answers)
    requires HoldUpTo(6, Look(app, req, io))
    ensures io.txByHash.Success? && io.bestBlock.Success? && InclusionParams(app, io).Success? && UnbondingShape(req.tx)
    ensures var v, r := Look(app, req, io), Authorize(app, req, io.txByHash.value, io.bestBlock.value, InclusionParams(app, io).value);
            && (r.Success? <==> HoldUpTo(19, v))
            && (r.Success? ==> r == ApprovedRequest(app, req, io))
            && (r.Failure? && PlainErrors(v) ==>
                  (r.error.invalidRequest <==> !HoldUpTo(12, v)
                                               || (HoldUpTo(14, v) && !HoldUpTo(15, v))
                                               || (HoldUpTo(17, v) && !HoldUpTo(18, v))))
  {
    var v := Look(app, req, io);
    ReadSteps(v);
    InclusionSteps(v);
    StakingSteps(v);
    OutputSteps(v);
    SpendSteps(v);
    FinalSteps(v);
    InclusionStage(app, req, io);
    if HoldUpTo(8, v) {
      StakingStage(app, req, io);
      if HoldUpTo(12, v) {
        OutputStage(app, req, io);
        SignatureStage(app, req, io);
      }
    }
  }
}
