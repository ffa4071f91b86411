/** What the signing decision guarantees: it is the documented one, it names the party at fault, and it calls
    the external signer last. */
module SigningTheorems {
  import opened Bitcoin
  import opened BtcStaking
  import opened ChainInfo
  import opened Errors
  import opened SignerApp
  import opened SignerGate
  import opened Wrappers

  lemma StopSplitsSteps(n: nat, m: nat, v: View)
    requires StopsAt(n, v) && m <= STEPS
    ensures HoldUpTo(m, v) <==> m <= n
  {
    if m <= n {
      HoldUpToFewer(m, n, v);
    } else if HoldUpTo(m, v) {
      HoldUpToFewer(n + 1, m, v);
    }
  }

  /** Either all steps hold or exactly one of them is the first that does not. */
  lemma {:induction false} AllOrFirst(m: nat, v: View) returns (n: nat)
    requires m <= STEPS
    ensures HoldUpTo(m, v) || StopsAt(n, v)
  {
    n := 0;
    if m > 0 {
      n := AllOrFirst(m - 1, v);
      if HoldUpTo(m - 1, v) {
        n := m - 1;
      }
    }
  }

  lemma ContentSteps(n: nat)
    requires n < STEPS
    ensures Blamed(StepAt(n)) == Content <==> n < 2 || n == 3 || 6 <= n < 12 || n == 14 || n == 17
  {
  }

  lemma EarlyFault(n: nat, app: SignerApp, req: Request, io: Answers)
    requires StopsAt(n, Look(app, req, io)) && n < 4
    ensures n >= 2 ==> |req.tx.txIn| == 1
    ensures var v, out := Look(app, req, io), Locate(app, req, io.txByHash);
            && out.result.Failure?
            && (PlainErrors(v) ==> (out.result.error.invalidRequest <==> Blamed(StepAt(n)) == Content))
            && out.calls == CallsAfter(n, v)
  {
    var v := Look(app, req, io);
    LocateStage(app, req, io);
    ReadSteps(v);
    ContentSteps(n);
    StopSplitsSteps(n, 2, v);
    StopSplitsSteps(n, 3, v);
    StopSplitsSteps(n, 4, v);
  }

  lemma LocateSucceeds(app: SignerApp, req: Request, io: Answers)
    requires HoldUpTo(4, Look(app, req, io))
    ensures |req.tx.txIn| == 1 && io.txByHash.Success?
    ensures Locate(app, req, io.txByHash) == Logged(io.txByHash, [CallTxByHash(req.tx.txIn[0].previousOutPoint.hash, req.pkScript)])
  {
    LocateStage(app, req, io);
    ReadSteps(Look(app, req, io));
  }

  lemma LateFault(n: nat, app: SignerApp, req: Request, io: Answers)
    requires StopsAt(n, Look(app, req, io)) && 4 <= n < 19
    ensures UnbondingShape(req.tx) && io.txByHash.Success?
    ensures var v, out := Look(app, req, io), Conclude(app, req, io.txByHash.value, io.bestBlock, io.rawSignature);
            && out.result.Failure?
            && (PlainErrors(v) ==> (out.result.error.invalidRequest <==> Blamed(StepAt(n)) == Content))
            && out.calls == (if n == 4 then [CallBestBlockHeight]
                             else [CallBestBlockHeight, CallParamsByHeight(io.txByHash.value.txInclusionHeight)])
  {
    hide HoldUpTo, Holds, Authorize;
    var v := Look(app, req, io);
    HoldUpToFewer(4, n, v);
    ReadSteps(v);
    ContentSteps(n);
    StopSplitsSteps(n, 5, v);
    StopSplitsSteps(n, 6, v);
    if n >= 6 {
      AuthorizeStage(app, req, io);
      StopSplitsSteps(n, 12, v);
      StopSplitsSteps(n, 14, v);
      StopSplitsSteps(n, 15, v);
      StopSplitsSteps(n, 17, v);
      StopSplitsSteps(n, 18, v);
      StopSplitsSteps(n, 19, v);
    }
  }

  lemma SignerAsked(app: SignerApp, req: Request, io: Answers)
    requires HoldUpTo(19, Look(app, req, io))
    ensures UnbondingShape(req.tx) && io.txByHash.Success? && ApprovedRequest(app, req, io).Success?
    ensures var request := ApprovedRequest(app, req, io).value;
            Conclude(app, req, io.txByHash.value, io.bestBlock, io.rawSignature)
            == Logged(io.rawSignature(request),
                      [CallBestBlockHeight, CallParamsByHeight(io.txByHash.value.txInclusionHeight), CallRawSignature(request)])
  {
    hide HoldUpTo, Holds;
    var v := Look(app, req, io);
    HoldUpToFewer(6, 19, v);
    HoldUpToFewer(4, 6, v);
    ReadSteps(v);
    AuthorizeStage(app, req, io);
  }

  /** The first step that does not hold decides the outcome: no signature, an error blamed on the request just
      for the steps that concern its content, and no outside call beyond those the earlier steps need. */
  lemma FirstFaultDecides(n: nat, app: SignerApp, req: Request, io: Answers)
    requires StopsAt(n, Look(app, req, io))
    ensures n >= 2 ==> |req.tx.txIn| == 1
    ensures n >= 4 ==> io.txByHash.Success?
    ensures n >= 19 ==> ApprovedRequest(app, req, io).Success?
    ensures var v, out := Look(app, req, io), SignUnbondingTransaction(app, req, io);
            && out.result.Failure?
            && (PlainErrors(v) ==> (out.result.error.invalidRequest <==> Blamed(StepAt(n)) == Content))
            && out.calls == CallsAfter(n, v)
  {
    hide HoldUpTo, Holds, Locate, Conclude;
    var v := Look(app, req, io);
    if n < 4 {
      EarlyFault(n, app, req, io);
    } else {
      HoldUpToFewer(4, n, v);
      LocateSucceeds(app, req, io);
      if n < 19 {
        LateFault(n, app, req, io);
      } else {
        SignerAsked(app, req, io);
        ContentSteps(n);
        FinalSteps(v);
        StopSplitsSteps(n, 20, v);
      }
    }
  }

  /** A signature is returned exactly when every step holds. It is the external signer's answer to the one request
      that follows from what was read, and asking for it is the last of four outside calls. */
  lemma SignsExactly(app: SignerApp, req: Request, io: Answers)
    ensures var v, out := Look(app, req, io), SignUnbondingTransaction(app, req, io);
            && (out.result.Success? <==> HoldUpTo(STEPS, v))
            && (out.result.Success? ==>
                  && |req.tx.txIn| == 1 && io.txByHash.Success? && v.approved.Success?
                  && out.result == io.rawSignature(v.approved.value)
                  && out.calls == CallsAfter(STEPS, v))
  {
    hide HoldUpTo, Holds, Locate, Conclude;
    var v := Look(app, req, io);
    var n := AllOrFirst(STEPS, v);
    if HoldUpTo(STEPS, v) {
      HoldUpToFewer(19, STEPS, v);
      HoldUpToFewer(4, 19, v);
      LocateSucceeds(app, req, io);
      SignerAsked(app, req, io);
      FinalSteps(v);
    } else {
      FirstFaultDecides(n, app, req, io);
    }
  }
}
