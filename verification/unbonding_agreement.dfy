/** Which transaction is signed for a staking transaction, when it becomes signable, and on what that depends. */
module UnbondingAgreement {
  import opened Bitcoin
  import opened BtcStaking
  import opened ChainInfo
  import opened Errors
  import opened Integers
  import opened Keys
  import opened SignatureMessage
  import opened SignerApp
  import opened SignerGate
  import opened SigningTheorems
  import opened VersionedParams
  import opened Wrappers

  /** The fields of an unbonding transaction that a signature commits to. */
  datatype SignedFields = SignedFields(version: int32, lockTime: uint32, outPoint: OutPoint, sequence: uint32, output: TxOut)

  function FieldsOf(tx: MsgTx): SignedFields
    requires |tx.txIn| == 1 && |tx.txOut| == 1
  {
    SignedFields(tx.version, tx.lockTime, tx.txIn[0].previousOutPoint, tx.txIn[0].sequence, tx.txOut[0])
  }

  /** The one unbonding of the staking transaction `stakingTx` with id `hash` under the parameters `p`. */
  function CanonicalUnbonding(lib: Library, hash: Hash, stakingTx: MsgTx, p: BabylonParams): Result<SignedFields, Error> {
    var s :- lib.parseV0StakingTx(stakingTx, p.magicBytes, p.covenantPublicKeys, p.covenantQuorum);
    var output :- BuildUnbondingInfo(
                    lib, s.opReturnData.stakerPublicKey, [s.opReturnData.finalityProviderPublicKey], p.covenantPublicKeys,
                    p.covenantQuorum, p.unbondingTime, ExpectedUnbondingValue(s.stakingOutput.value, p.unbondingFee));
    Success(SignedFields(2, 0, OutPoint(hash, ToUint32(s.stakingOutputIdx)), MAX_TX_IN_SEQUENCE_NUM, output))
  }

  predicate Signs(app: SignerApp, req: Request, io: Answers) {
    SignUnbondingTransaction(app, req, io).result.Success?
  }

  /** What a signature implies, without the functions that compute it. */
  lemma SignedSteps(app: SignerApp, req: Request, io: Answers)
    requires Signs(app, req, io)
    ensures var v := Look(app, req, io);
            && IsSane(v) && IsInChain(v) && HasParams(v) && IsDeepEnough(v) && IsStakingTx(v) && SpendsStakingOutput(v)
            && IsAmountInBounds(v) && IsFeeBelowValue(v) && IsOutputExpected(v) && IsUnbondingPathBuilt(v) && IsSignedByStaker(v)
            && v.approved.Success? && io.rawSignature(v.approved.value).Success?
            && SignUnbondingTransaction(app, req, io).result == io.rawSignature(v.approved.value)
  {
    hide SignUnbondingTransaction, HoldUpTo, Look, IsSane, IsInChain, HasParams, IsDeepEnough, IsStakingTx,
      SpendsStakingOutput, IsAmountInBounds, IsFeeBelowValue, IsOutputExpected, IsUnbondingPathBuilt, IsSignedByStaker;
    SignsExactly(app, req, io);
    AllSteps(Look(app, req, io));
  }

  /** A signed transaction is the canonical unbonding, whatever the request said. */
  lemma SignedIsCanonical(app: SignerApp, req: Request, io: Answers)
    requires Signs(app, req, io)
    ensures UnbondingShape(req.tx) && io.txByHash.Success? && InclusionParams(app, io).Success?
    ensures CanonicalUnbonding(app.lib, req.tx.txIn[0].previousOutPoint.hash, io.txByHash.value.tx, InclusionParams(app, io).value)
         == Success(FieldsOf(req.tx))
  {
    hide Signs, SignUnbondingTransaction;
    SignedSteps(app, req, io);
  }

  lemma SignedIsDeep(app: SignerApp, req: Request, io: Answers)
    requires Signs(app, req, io)
    ensures io.txByHash.Success? && io.bestBlock.Success?
    ensures var params := app.paramsByHeight(io.txByHash.value.txInclusionHeight);
            params.Success? && io.bestBlock.value + 1 >= io.txByHash.value.txInclusionHeight + params.value.confirmationDepth
  {
    hide Signs, SignUnbondingTransaction, IsSane, IsStakingTx, SpendsStakingOutput, IsAmountInBounds, IsFeeBelowValue,
      IsOutputExpected, IsUnbondingPathBuilt, IsSignedByStaker;
    SignedSteps(app, req, io);
  }

  /** The message a covenant member's signature is over. */
  function SignedMessage(request: SigningRequest): Message {
    ScriptSpendMessage(request.unbondingTransaction, [request.stakingOutput], 0, request.spend.revealedLeaf)
  }

  /** The message of a transfer holds every field of the transaction but scripts and witnesses, what is spent, and the leaf. */
  lemma MessageOfTransfer(tx: MsgTx, spent: TxOut, leaf: TapLeaf)
    requires |tx.txIn| == |tx.txOut| == 1
    ensures ScriptSpendMessage(tx, [spent], 0, leaf)
         == Message(0x00, tx.version, tx.lockTime, [tx.txIn[0].previousOutPoint], [spent.value], [spent.pkScript],
                    [tx.txIn[0].sequence], [TxOut(tx.txOut[0].value, tx.txOut[0].pkScript)], 0x02, 0, leaf)
  {
    MessageInFull(tx, [spent], 0, leaf);
    var m := ScriptSpendMessage(tx, [spent], 0, leaf);
    hide ScriptSpendMessage;
    assert m.prevouts == [tx.txIn[0].previousOutPoint] && m.sequences == [tx.txIn[0].sequence];
    assert m.amounts == [spent.value] && m.pkScripts == [spent.pkScript];
    assert tx.txOut == [tx.txOut[0]];
  }

  lemma SignedMessageInFull(request: SigningRequest)
    requires |request.unbondingTransaction.txIn| == |request.unbondingTransaction.txOut| == 1
    ensures var tx, spent := request.unbondingTransaction, request.stakingOutput;
            SignedMessage(request)
            == Message(0x00, tx.version, tx.lockTime, [tx.txIn[0].previousOutPoint], [spent.value], [spent.pkScript],
                       [tx.txIn[0].sequence], [TxOut(tx.txOut[0].value, tx.txOut[0].pkScript)], 0x02, 0, request.spend.revealedLeaf)
  {
    MessageOfTransfer(request.unbondingTransaction, request.stakingOutput, request.spend.revealedLeaf);
  }

  /** Two requests have one message exactly when the signed fields, the spent output and the leaf are the same. */
  lemma SameMessageExactly(a: SigningRequest, b: SigningRequest)
    requires |a.unbondingTransaction.txIn| == |a.unbondingTransaction.txOut| == 1
    requires |b.unbondingTransaction.txIn| == |b.unbondingTransaction.txOut| == 1
    ensures SignedMessage(a) == SignedMessage(b)
       <==> && FieldsOf(a.unbondingTransaction) == FieldsOf(b.unbondingTransaction)
            && a.stakingOutput == b.stakingOutput && a.spend.revealedLeaf == b.spend.revealedLeaf
  {
    SignedMessageInFull(a);
    SignedMessageInFull(b);
    hide SignedMessage;
    var m, m' := SignedMessage(a), SignedMessage(b);
    if m == m' {
      assert m.prevouts[0] == m'.prevouts[0] && m.sequences[0] == m'.sequences[0];
      assert m.amounts[0] == m'.amounts[0] && m.pkScripts[0] == m'.pkScripts[0] && m.outputs[0] == m'.outputs[0];
    }
  }

  /** The fields that count are these five, and the output is one of value and script. */
  lemma FieldsInFull(tx: MsgTx, tx': MsgTx)
    requires |tx.txIn| == |tx.txOut| == 1 && |tx'.txIn| == |tx'.txOut| == 1
    ensures FieldsOf(tx) == FieldsOf(tx')
       <==> && tx.version == tx'.version && tx.lockTime == tx'.lockTime
            && tx.txIn[0].previousOutPoint == tx'.txIn[0].previousOutPoint && tx.txIn[0].sequence == tx'.txIn[0].sequence
            && tx.txOut == tx'.txOut
  {
    assert tx.txOut == [tx.txOut[0]] && tx'.txOut == [tx'.txOut[0]];
  }

  /** Two signed transactions agree exactly when the unbondings of what was read agree: the chain reads, and nothing else,
      decide whether signatures conflict. */
  lemma AgreeExactly(app: SignerApp, req: Request, io: Answers, app': SignerApp, req': Request, io': Answers)
    requires Signs(app, req, io) && Signs(app', req', io')
    ensures UnbondingShape(req.tx) && io.txByHash.Success? && InclusionParams(app, io).Success?
    ensures UnbondingShape(req'.tx) && io'.txByHash.Success? && InclusionParams(app', io').Success?
    ensures var hash, hash' := req.tx.txIn[0].previousOutPoint.hash, req'.tx.txIn[0].previousOutPoint.hash;
            (FieldsOf(req.tx) == FieldsOf(req'.tx)
             <==> CanonicalUnbonding(app.lib, hash, io.txByHash.value.tx, InclusionParams(app, io).value)
                  == CanonicalUnbonding(app'.lib, hash', io'.txByHash.value.tx, InclusionParams(app', io').value))
  {
    hide Signs, SignUnbondingTransaction, CanonicalUnbonding, FieldsOf;
    SignedIsCanonical(app, req, io);
    SignedIsCanonical(app', req', io');
  }

  /** Committee members with different keys, tips and height caps for whom the staking transaction parses the same under
      the same parameters can only sign the same fields, and so the same message. */
  lemma MembersAgree(app: SignerApp, req: Request, io: Answers, app': SignerApp, req': Request, io': Answers)
    requires Signs(app, req, io) && Signs(app', req', io')
    requires app.lib == app'.lib && Staking(app, io) == Staking(app', io') && InclusionParams(app, io) == InclusionParams(app', io')
    requires UnbondingShape(req.tx) && UnbondingShape(req'.tx)
    requires req.tx.txIn[0].previousOutPoint.hash == req'.tx.txIn[0].previousOutPoint.hash
    ensures FieldsOf(req.tx) == FieldsOf(req'.tx)
    ensures ApprovedRequest(app, req, io).Success? && ApprovedRequest(app', req', io').Success?
    ensures SignedMessage(ApprovedRequest(app, req, io).value) == SignedMessage(ApprovedRequest(app', req', io').value)
  {
    hide Signs, SignUnbondingTransaction, CheckPreSignedUnbondingTxSanity;
    AgreeExactly(app, req, io, app', req', io');
    SignedSteps(app, req, io);
    SignedSteps(app', req', io');
    SameMessageExactly(ApprovedRequest(app, req, io).value, ApprovedRequest(app', req', io').value);
  }

  /** All that a request needs besides a known and sufficient tip. */
  ghost predicate ValidButForTip(v: View) {
    forall n: nat | n < STEPS && StepAt(n) != TipKnown && StepAt(n) != Depth :: Holds(StepAt(n), v)
  }

  lemma {:induction false} EachStep(m: nat, v: View)
    requires m <= STEPS
    ensures HoldUpTo(m, v) <==> forall n: nat | n < m :: Holds(StepAt(n), v)
  {
    hide Holds;
    if m > 0 {
      EachStep(m - 1, v);
    }
  }

  lemma ValidityIgnoresTip(app: SignerApp, req: Request, io: Answers, tip: Result<uint32, Error>)
    ensures ValidButForTip(Look(app, req, io)) <==> ValidButForTip(Look(app, req, io.(bestBlock := tip)))
  {
    var v, v' := Look(app, req, io), Look(app, req, io.(bestBlock := tip));
    assert v' == v.(io := v'.io);
    forall n: nat | n < STEPS && StepAt(n) != TipKnown && StepAt(n) != Depth
      ensures Holds(StepAt(n), v) <==> Holds(StepAt(n), v')
    {
    }
  }

  /** A request is signed at a tip exactly when it is valid but for the tip and the staking transaction has reached
      its confirmation depth there. */
  lemma ExactMaturity(app: SignerApp, req: Request, io: Answers, tip: uint32)
    ensures Signs(app, req, io.(bestBlock := Success(tip)))
       <==> && ValidButForTip(Look(app, req, io))
            && io.txByHash.Success? && InclusionParams(app, io).Success?
            && tip >= io.txByHash.value.txInclusionHeight + InclusionParams(app, io).value.confirmationDepth - 1
  {
    var io' := io.(bestBlock := Success(tip));
    var v := Look(app, req, io');
    hide SignUnbondingTransaction;
    SignsExactly(app, req, io');
    EachStep(STEPS, v);
    ValidityIgnoresTip(app, req, io, Success(tip));
    TipSteps(v);
  }

  lemma TipSteps(v: View)
    ensures (forall n: nat | n < STEPS :: Holds(StepAt(n), v)) <==> ValidButForTip(v) && HasTip(v) && IsDeepEnough(v)
    ensures ValidButForTip(v) ==> IsInChain(v) && HasParams(v)
  {
    hide IsDeepEnough, IsInChain, HasParams, HasTip;
    assert Holds(StepAt(4), v) <==> HasTip(v);
    assert Holds(StepAt(7), v) <==> IsDeepEnough(v);
    assert Holds(StepAt(2), v) <==> IsInChain(v);
    assert Holds(StepAt(5), v) <==> HasParams(v);
  }

  /** A request once signed is signed at every later tip. */
  lemma MaturityPersists(app: SignerApp, req: Request, io: Answers, tip: uint32, later: uint32)
    requires tip <= later && Signs(app, req, io.(bestBlock := Success(tip)))
    ensures Signs(app, req, io.(bestBlock := Success(later)))
  {
    hide Signs, ValidButForTip;
    ExactMaturity(app, req, io, tip);
    ExactMaturity(app, req, io, later);
  }

  /** The signer with its parameters read from a list of versions. */
  function Deployed(lib: Library, versions: seq<VersionedGlobalParams>, cap: uint32): SignerApp {
    SignerApp(lib, (height: uint64) => ParamsByHeight(versions, height), cap)
  }

  lemma LocateAgrees(app: SignerApp, app': SignerApp, req: Request, txByHash: Result<TxInfo, Error>)
    requires app.lib == app'.lib && app.maxStakingTransactionHeight == app'.maxStakingTransactionHeight
    ensures Locate(app, req, txByHash) == Locate(app', req, txByHash)
  {
    hide CheckPreSignedUnbondingTxSanity, BlameOutcome;
  }

  lemma AuthorizeAgrees(app: SignerApp, app': SignerApp, req: Request, info: TxInfo, tip: uint32, p: BabylonParams)
    requires app.lib == app'.lib && UnbondingShape(req.tx)
    ensures Authorize(app, req, info, tip, p) == Authorize(app', req, info, tip, p)
  {
    hide CheckInclusion, CheckStaking, CheckUnbondingOutput, CheckStakerSignature;
  }

  lemma ConcludeAgrees(
      app: SignerApp, app': SignerApp, req: Request, info: TxInfo, tip: Result<uint32, Error>,
      raw: SigningRequest -> Result<Signature, Error>)
    requires app.lib == app'.lib && UnbondingShape(req.tx)
    requires app.paramsByHeight(info.txInclusionHeight) == app'.paramsByHeight(info.txInclusionHeight)
    ensures Conclude(app, req, info, tip, raw) == Conclude(app', req, info, tip, raw)
  {
    hide Authorize;
    if tip.Success? && app.paramsByHeight(info.txInclusionHeight).Success? {
      AuthorizeAgrees(app, app', req, info, tip.value, app.paramsByHeight(info.txInclusionHeight).value);
    }
  }

  /** Versions that activate only above the inclusion height change nothing about a call. */
  lemma LaterVersionsChangeNothing(
      lib: Library, before: seq<VersionedGlobalParams>, after: seq<VersionedGlobalParams>, cap: uint32, req: Request, io: Answers)
    requires io.txByHash.Success? ==>
               var h := io.txByHash.value.txInclusionHeight; Activated(before, h) == Activated(after, h)
    ensures SignUnbondingTransaction(Deployed(lib, before, cap), req, io) == SignUnbondingTransaction(Deployed(lib, after, cap), req, io)
  {
    hide Locate, Conclude, ParamsByHeight;
    var app, app' := Deployed(lib, before, cap), Deployed(lib, after, cap);
    LocateAgrees(app, app', req, io.txByHash);
    if Locate(app, req, io.txByHash).result.Success? {
      LocateReturns(app, req, io.txByHash);
      var info := io.txByHash.value;
      LaterVersionsDoNotMatter(before, after, info.txInclusionHeight);
      ConcludeAgrees(app, app', req, info, io.bestBlock, io.rawSignature);
    }
  }

  lemma LocateReturns(app: SignerApp, req: Request, txByHash: Result<TxInfo, Error>)
    requires Locate(app, req, txByHash).result.Success?
    ensures UnbondingShape(req.tx) && Locate(app, req, txByHash).result == txByHash
  {
  }
}
