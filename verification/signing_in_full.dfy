/** The signing decision written out: what is compared with what, and what is computed from what, down to the calls of the
    staking library, the chain and the external signer. */
module SigningInFull {
  import opened Bitcoin
  import opened BtcStaking
  import opened Keys
  import opened SignatureMessage
  import opened SignerApp
  import opened SignerGate
  import opened SigningTheorems
  import opened UnbondingAgreement
  import opened VersionedParams
  import opened Wrappers

  /** The request, the two chain reads and the parameters fit each other. */
  ghost predicate ReadsFit(app: SignerApp, req: Request, io: Answers, p: BabylonParams) {
    && req.tx.version == 2 && req.tx.lockTime == 0 && |req.tx.txIn| == 1 && |req.tx.txOut| == 1
    && req.tx.txIn[0].sequence == 0xffff_ffff && app.lib.furtherSanity(req.tx).Pass?
    && app.lib.parsePkScript(req.pkScript) == Success(WitnessV1Taproot)
    && io.txByHash.Success? && io.bestBlock.Success?
    && io.txByHash.value.txInclusionHeight <= app.maxStakingTransactionHeight
    && app.paramsByHeight(io.txByHash.value.txInclusionHeight) == Success(p)
    && req.covenantKey in p.covenantPublicKeys
    && io.bestBlock.value - io.txByHash.value.txInclusionHeight + 1 >= p.confirmationDepth
  }

  /** The staking transaction is one, within the bounds, and the unbonding transaction spends it and pays out what it must. */
  ghost predicate StakeFits(lib: Library, tx: MsgTx, stakingTx: MsgTx, p: BabylonParams, s: ParsedStakingTx)
    requires |tx.txIn| == |tx.txOut| == 1
  {
    var staker, provider := s.opReturnData.stakerPublicKey, s.opReturnData.finalityProviderPublicKey;
    var payout := (s.stakingOutput.value - p.unbondingFee + 0x8000_0000_0000_0000) % 0x1_0000_0000_0000_0000 - 0x8000_0000_0000_0000;
    && lib.parseV0StakingTx(stakingTx, p.magicBytes, p.covenantPublicKeys, p.covenantQuorum) == Success(s)
    && tx.txIn[0].previousOutPoint.index == s.stakingOutputIdx % 0x1_0000_0000
    && p.minStakingTime <= s.opReturnData.stakingTime <= p.maxStakingTime
    && p.minStakingAmount <= s.stakingOutput.value <= p.maxStakingAmount
    && payout > 0 && tx.txOut[0].value == payout
    && lib.unbondingPkScript(staker, [provider], p.covenantPublicKeys, p.covenantQuorum, p.unbondingTime, payout)
       == Success(tx.txOut[0].pkScript)
  }

  /** The staker has signed the transfer, over the unbonding path of the original staking output. */
  ghost predicate StakerSigned(lib: Library, req: Request, p: BabylonParams, s: ParsedStakingTx, spend: SpendInfo)
    requires |req.tx.txIn| == |req.tx.txOut| == 1
  {
    var tx, spent := req.tx, s.stakingOutput;
    var staker, provider := s.opReturnData.stakerPublicKey, s.opReturnData.finalityProviderPublicKey;
    && lib.buildStakingInfo(
         staker, [provider], p.covenantPublicKeys, p.covenantQuorum, s.opReturnData.stakingTime, spent.value)
       == Success(StakingInfo(Success(spend)))
    && lib.schnorrVerify(
         staker,
         Message(0x00, tx.version, tx.lockTime, [tx.txIn[0].previousOutPoint], [spent.value], [spent.pkScript], [tx.txIn[0].sequence],
                 [TxOut(tx.txOut[0].value, tx.txOut[0].pkScript)], 0x02, 0, TapLeaf(0xc0, spend.revealedLeaf.script)),
         req.stakerSig).Pass?
  }

  /** All of it, and the request that the external signer is then asked to sign. */
  ghost predicate Deserves(
      app: SignerApp, req: Request, io: Answers, p: BabylonParams, s: ParsedStakingTx, spend: SpendInfo, address: string)
  {
    && ReadsFit(app, req, io, p)
    && StakeFits(app.lib, req.tx, io.txByHash.value.tx, p, s)
    && StakerSigned(app.lib, req, p, s, spend)
    && app.lib.pubKeyToAddress(req.covenantKey) == Success(address)
  }

  // ---------- The parts are ranges of steps ----------

  lemma ReadsFitSteps(app: SignerApp, req: Request, io: Answers, p: BabylonParams)
    ensures ReadsFit(app, req, io, p) <==> HoldUpTo(8, Look(app, req, io)) && InclusionParams(app, io) == Success(p)
  {
    var v := Look(app, req, io);
    ReadSteps(v);
    InclusionSteps(v);
    hide HoldUpTo;
  }

  lemma StakeFitsSteps(app: SignerApp, req: Request, io: Answers, p: BabylonParams, s: ParsedStakingTx)
    requires HoldUpTo(8, Look(app, req, io)) && InclusionParams(app, io) == Success(p)
    ensures io.txByHash.Success? && |req.tx.txIn| == |req.tx.txOut| == 1
    ensures StakeFits(app.lib, req.tx, io.txByHash.value.tx, p, s)
       <==> HoldUpTo(15, Look(app, req, io)) && Staking(app, io) == Success(s)
  {
    var v := Look(app, req, io);
    HoldUpToFewer(4, 8, v);
    ReadSteps(v);
    StakingSteps(v);
    OutputSteps(v);
    hide HoldUpTo;
    assert req.tx.txOut == [TxOut(req.tx.txOut[0].value, req.tx.txOut[0].pkScript)];
  }

  lemma StakerSignedSteps(app: SignerApp, req: Request, io: Answers, p: BabylonParams, s: ParsedStakingTx, spend: SpendInfo)
    requires HoldUpTo(15, Look(app, req, io)) && InclusionParams(app, io) == Success(p) && Staking(app, io) == Success(s)
    requires |req.tx.txIn| == |req.tx.txOut| == 1
    ensures StakerSigned(app.lib, req, p, s, spend) <==> HoldUpTo(18, Look(app, req, io)) && UnbondingSpend(app, io) == Success(spend)
  {
    SpendSteps(Look(app, req, io));
    MessageOfTransfer(req.tx, s.stakingOutput, NewBaseTapLeaf(spend.revealedLeaf.script));
    hide HoldUpTo, ScriptSpendMessage;
  }

  lemma DeservesSteps(
      app: SignerApp, req: Request, io: Answers, p: BabylonParams, s: ParsedStakingTx, spend: SpendInfo, address: string)
    ensures Deserves(app, req, io, p, s, spend, address)
       <==> && HoldUpTo(19, Look(app, req, io)) && InclusionParams(app, io) == Success(p) && Staking(app, io) == Success(s)
            && UnbondingSpend(app, io) == Success(spend) && app.lib.pubKeyToAddress(req.covenantKey) == Success(address)
  {
    var v := Look(app, req, io);
    hide HoldUpTo, StakerSigned, StakeFits, InclusionParams, Staking, UnbondingSpend;
    ReadsFitSteps(app, req, io, p);
    FinalSteps(v);
    if HoldUpTo(19, v) {
      HoldUpToFewer(8, 19, v);
      HoldUpToFewer(15, 19, v);
    }
    if HoldUpTo(8, v) && InclusionParams(app, io) == Success(p) {
      StakeFitsSteps(app, req, io, p, s);
      if HoldUpTo(15, v) && Staking(app, io) == Success(s) {
        StakerSignedSteps(app, req, io, p, s, spend);
      }
    }
    hide ReadsFit;
  }

  /** A signature is returned exactly when the request deserves one and the external signer, asked to sign the request that
      follows, gives it. */
  lemma SignsInFull(app: SignerApp, req: Request, io: Answers, sig: Signature)
    ensures SignUnbondingTransaction(app, req, io).result == Success(sig)
       <==> exists p, s, spend, address ::
              && Deserves(app, req, io, p, s, spend, address)
              && io.rawSignature(SigningRequest(s.stakingOutput, req.tx, req.covenantKey, address, spend)) == Success(sig)
  {
    var v := Look(app, req, io);
    hide SignUnbondingTransaction, HoldUpTo, Deserves, InclusionParams, Staking, UnbondingSpend;
    SignsExactly(app, req, io);
    FinalSteps(v);
    if HoldUpTo(STEPS, v) {
      ApprovedParts(app, req, io);
      var p, s, spend, address := InclusionParams(app, io).value, Staking(app, io).value, UnbondingSpend(app, io).value,
        app.lib.pubKeyToAddress(req.covenantKey).value;
      DeservesSteps(app, req, io, p, s, spend, address);
    }
    if p, s, spend, address :|
      && Deserves(app, req, io, p, s, spend, address)
      && io.rawSignature(SigningRequest(s.stakingOutput, req.tx, req.covenantKey, address, spend)) == Success(sig)
    {
      DeservesSteps(app, req, io, p, s, spend, address);
      assert v.approved == Success(SigningRequest(s.stakingOutput, req.tx, req.covenantKey, address, spend));
    }
  }

  lemma ApprovedParts(app: SignerApp, req: Request, io: Answers)
    requires ApprovedRequest(app, req, io).Success?
    ensures InclusionParams(app, io).Success? && Staking(app, io).Success? && UnbondingSpend(app, io).Success?
    ensures app.lib.pubKeyToAddress(req.covenantKey).Success?
    ensures ApprovedRequest(app, req, io)
         == Success(SigningRequest(Staking(app, io).value.stakingOutput, req.tx, req.covenantKey,
                                   app.lib.pubKeyToAddress(req.covenantKey).value, UnbondingSpend(app, io).value))
  {
  }
}
