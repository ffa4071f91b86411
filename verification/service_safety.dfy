/** What whole runs of the service can sign. */
module ServiceSafety {
  import opened BtcStaking
  import opened ChainInfo
  import opened Errors
  import opened Handlers
  import opened Integers
  import opened Keys
  import opened Service
  import opened ServiceInvariants
  import opened SignerApp
  import opened SignerGate
  import opened UnbondingAgreement
  import opened Wrappers

  // ---------- What is asked of the chain ----------

  /** The block at `height` has the confirmations that its parameters ask for. */
  ghost predicate IsDeep(app: SignerApp, chain: seq<Block>, height: nat) {
    && height < |chain| && height <= MAX_UINT32
    && app.paramsByHeight(height).Success?
    && |chain| - height >= app.paramsByHeight(height).value.confirmationDepth
  }

  /** No re-organisation removes a block that has been deep. */
  ghost predicate DeepBlocksStay(app: SignerApp, states: seq<State>) {
    forall i, j, h: nat | 0 <= i <= j < |states| && IsDeep(app, states[i].chain, h) ::
      h < |states[j].chain| && states[j].chain[h] == states[i].chain[h]
  }

  /** No re-organisation removes the staking transaction between the two reads of a request. */
  ghost predicate ReadsStayTrue(states: seq<State>) {
    forall i, id | 0 <= i < |states| && id in states[i].handlers && states[i].handlers[id].Located? ::
      var info := states[i].handlers[id].info; InBlock(states[i].chain, info.txInclusionHeight, info.tx)
  }

  ghost predicate GoodRun(d: Deployment, states: seq<State>, actions: seq<Action>) {
    IsRun(d, states, actions) && DeepBlocksStay(d.app, states) && ReadsStayTrue(states)
  }

  // ---------- Where a signature comes from ----------

  function InfoOf(sg: Signing): TxInfo
    requires sg.io.txByHash.Success?
  {
    sg.io.txByHash.value
  }

  /** At some point of the run the staking transaction was in the chain, and deep. */
  ghost predicate WasSettled(app: SignerApp, states: seq<State>, sg: Signing) {
    && sg.io.txByHash.Success?
    && exists i: nat :: i < |states| && SettledIn(app, states[i], InfoOf(sg))
  }

  ghost predicate SettledIn(app: SignerApp, s: State, info: TxInfo) {
    IsDeep(app, s.chain, info.txInclusionHeight) && InBlock(s.chain, info.txInclusionHeight, info.tx)
  }

  lemma SigningOkSigns(d: Deployment, sg: Signing)
    requires SigningOk(d, sg)
    ensures Signs(d.app, sg.req, sg.io) && UnbondingShape(sg.req.tx) && sg.io.txByHash.Success?
    ensures d.app.lib.txid(InfoOf(sg).tx) == sg.req.tx.txIn[0].previousOutPoint.hash
  {
    hide SignUnbondingTransaction;
  }

  lemma ConcludedIsDeep(
      app: SignerApp, chain: seq<Block>, req: Request, info: TxInfo, count: Result<int64, Error>,
      raw: SigningRequest -> Result<Signature, Error>)
    requires Locate(app, req, Success(info)).result == Success(info) && UnbondingShape(req.tx)
    requires TruthfulCount(chain, count) && info.txInclusionHeight < |chain|
    requires Conclude(app, req, info, BestBlockHeight(count), raw).result.Success?
    ensures IsDeep(app, chain, info.txInclusionHeight)
  {
    hide Locate, Conclude, SignUnbondingTransaction, UnbondingShape;
    BothHalves(app, req, info, BestBlockHeight(count), raw);
    SignedIsDeep(app, req, Answers(Success(info), BestBlockHeight(count), raw));
  }

  lemma NewSigningIsSettled(d: Deployment, s: State, id: nat, count: Result<int64, Error>, raw: SigningRequest -> Result<Signature, Error>)
    requires StateOk(d, s) && Enabled(d, s, ReadTip(id, count, raw))
    requires var info := s.handlers[id].info; InBlock(s.chain, info.txInclusionHeight, info.tx)
    requires Conclude(d.app, s.handlers[id].req, s.handlers[id].info, BestBlockHeight(count), raw).result.Success?
    ensures SettledIn(d.app, s, s.handlers[id].info)
  {
    hide IsDeep, Conclude, Locate, DecodeRequest, InBlock, UniqueTxids, SigningOk, BestBlockHeight;
    var phase := s.handlers[id];
    assert PhaseOk(d, phase);
    LocatedInChain(s.chain, phase.info);
    ConcludedIsDeep(d.app, s.chain, phase.req, phase.info, count, raw);
  }

  lemma LocatedInChain(chain: seq<Block>, info: TxInfo)
    requires InBlock(chain, info.txInclusionHeight, info.tx)
    ensures info.txInclusionHeight < |chain|
  {
  }

  lemma {:induction false} SigningsWereSettled(d: Deployment, states: seq<State>, actions: seq<Action>)
    requires IsRun(d, states, actions) && ReadsStayTrue(states)
    ensures forall sg | sg in Last(states).signings :: WasSettled(d.app, states, sg)
    decreases |actions|
  {
    hide IsDeep, InBlock, SettledIn;
    if actions != [] {
      var n := |actions| - 1;
      var before := states[..n + 1];
      RunPrefix(d, states, actions);
      PrefixReadsStayTrue(states, n + 1);
      SigningsWereSettled(d, before, actions[..n]);
      forall sg | sg in Last(states).signings ensures WasSettled(d.app, states, sg) {
        if sg in states[n].signings {
          LongerRunSettled(d.app, states, n + 1, sg);
        } else {
          RunsKeepStateOk(d, states, actions);
          OnlyReadTipSigns(d, states[n], actions[n], sg);
          var id, count, raw := actions[n].id, actions[n].count, actions[n].raw;
          assert states[n].handlers[id].Located?;
          NewSigningIsSettled(d, states[n], id, count, raw);
          assert SettledIn(d.app, states[n], InfoOf(sg));
        }
      }
    }
  }

  lemma PrefixReadsStayTrue(states: seq<State>, n: nat)
    requires ReadsStayTrue(states) && n <= |states|
    ensures ReadsStayTrue(states[..n])
  {
    hide InBlock;
    forall i, id | 0 <= i < n && id in states[..n][i].handlers && states[..n][i].handlers[id].Located?
      ensures var info := states[..n][i].handlers[id].info; InBlock(states[..n][i].chain, info.txInclusionHeight, info.tx)
    {
      assert states[..n][i] == states[i];
    }
  }

  lemma LongerRunSettled(app: SignerApp, states: seq<State>, n: nat, sg: Signing)
    requires n <= |states| && WasSettled(app, states[..n], sg)
    ensures WasSettled(app, states, sg)
  {
    var i: nat :| i < n && SettledIn(app, states[..n][i], InfoOf(sg));
    assert SettledIn(app, states[i], InfoOf(sg));
  }

  lemma OnlyReadTipSigns(d: Deployment, s: State, action: Action, sg: Signing)
    requires Enabled(d, s, action) && sg in Apply(d, s, action).signings && sg !in s.signings
    ensures action.ReadTip?
    ensures var phase := s.handlers[action.id];
            && Conclude(d.app, phase.req, phase.info, BestBlockHeight(action.count), action.raw).result.Success?
            && sg.io.txByHash == Success(phase.info) && sg.req == phase.req
  {
    hide Conclude, Locate, DecodeRequest, UniqueTxids;
  }

  // ---------- Safety ----------

  /** A staking transaction that was signed for is in the chain to the end of the run, at the height it was signed for. */
  lemma SignedForStaysInChain(d: Deployment, states: seq<State>, actions: seq<Action>, sg: Signing)
    requires GoodRun(d, states, actions) && sg in Last(states).signings
    ensures sg.io.txByHash.Success?
    ensures InBlock(Last(states).chain, InfoOf(sg).txInclusionHeight, InfoOf(sg).tx)
  {
    SigningsWereSettled(d, states, actions);
    assert WasSettled(d.app, states, sg);
    var i: nat :| i < |states| && SettledIn(d.app, states[i], InfoOf(sg));
    assert IsDeep(d.app, states[i].chain, InfoOf(sg).txInclusionHeight);
  }

  lemma LastStateOk(d: Deployment, states: seq<State>, actions: seq<Action>)
    requires IsRun(d, states, actions)
    ensures states != [] && StateOk(d, Last(states))
  {
    hide StateOk;
    RunsKeepStateOk(d, states, actions);
  }

  /** Two signatures for one staking transaction id are about the same transaction at the same height. */
  lemma SameStakingTx(d: Deployment, states: seq<State>, actions: seq<Action>, a: Signing, b: Signing)
    requires GoodRun(d, states, actions) && a in Last(states).signings && b in Last(states).signings
    requires SigningOk(d, a) && SigningOk(d, b)
    requires a.req.tx.txIn != [] && b.req.tx.txIn != []
    requires a.req.tx.txIn[0].previousOutPoint.hash == b.req.tx.txIn[0].previousOutPoint.hash
    ensures a.io.txByHash == b.io.txByHash
  {
    hide SignUnbondingTransaction, SigningOk, PhaseOk, DeepBlocksStay, ReadsStayTrue, InBlock;
    SignedForStaysInChain(d, states, actions, a);
    SignedForStaysInChain(d, states, actions, b);
    LastStateOk(d, states, actions);
    SigningOkSigns(d, a);
    SigningOkSigns(d, b);
    assert InfoOf(a).tx == InfoOf(b).tx && InfoOf(a).txInclusionHeight == InfoOf(b).txInclusionHeight;
  }

  lemma SigningsAreOk(d: Deployment, states: seq<State>, actions: seq<Action>, sg: Signing)
    requires IsRun(d, states, actions) && sg in Last(states).signings
    ensures SigningOk(d, sg)
  {
    hide SigningOk;
    RunsKeepStateOk(d, states, actions);
  }

  /** No conflicting signatures. Over any interleaving of blocks, re-organisations and requests, all transactions ever
      signed for one staking transaction id agree in every signed field, and all signatures are over one message. */
  lemma NoConflictingSignatures(d: Deployment, states: seq<State>, actions: seq<Action>, a: Signing, b: Signing)
    requires GoodRun(d, states, actions) && a in Last(states).signings && b in Last(states).signings
    ensures UnbondingShape(a.req.tx) && UnbondingShape(b.req.tx)
    ensures a.req.tx.txIn[0].previousOutPoint.hash == b.req.tx.txIn[0].previousOutPoint.hash ==>
              && FieldsOf(a.req.tx) == FieldsOf(b.req.tx)
              && ApprovedRequest(d.app, a.req, a.io).Success? && ApprovedRequest(d.app, b.req, b.io).Success?
              && SignedMessage(ApprovedRequest(d.app, a.req, a.io).value) == SignedMessage(ApprovedRequest(d.app, b.req, b.io).value)
  {
    hide SignUnbondingTransaction, GoodRun, Signs, ApprovedRequest, SignedMessage;
    assert IsRun(d, states, actions) by {
      RunOfGoodRun(d, states, actions);
    }
    SigningsAreOk(d, states, actions, a);
    SigningsAreOk(d, states, actions, b);
    SigningOkSigns(d, a);
    SigningOkSigns(d, b);
    if a.req.tx.txIn[0].previousOutPoint.hash == b.req.tx.txIn[0].previousOutPoint.hash {
      SameStakingTx(d, states, actions, a, b);
      MembersAgree(d.app, a.req, a.io, d.app, b.req, b.io);
    }
  }

  /** Over any run at all: what was signed twice for one staking transaction id agrees in every signed field exactly when
      the two reads of the staking transaction, with the parameters of their heights, have the same unbonding. */
  lemma ConflictsExactly(d: Deployment, states: seq<State>, actions: seq<Action>, a: Signing, b: Signing)
    requires IsRun(d, states, actions) && a in Last(states).signings && b in Last(states).signings
    ensures UnbondingShape(a.req.tx) && a.io.txByHash.Success? && InclusionParams(d.app, a.io).Success?
    ensures UnbondingShape(b.req.tx) && b.io.txByHash.Success? && InclusionParams(d.app, b.io).Success?
    ensures var hash := a.req.tx.txIn[0].previousOutPoint.hash;
            hash == b.req.tx.txIn[0].previousOutPoint.hash ==>
              (FieldsOf(a.req.tx) == FieldsOf(b.req.tx)
          <==> CanonicalUnbonding(d.app.lib, hash, InfoOf(a).tx, InclusionParams(d.app, a.io).value)
               == CanonicalUnbonding(d.app.lib, hash, InfoOf(b).tx, InclusionParams(d.app, b.io).value))
  {
    hide SignUnbondingTransaction, Signs, CanonicalUnbonding, FieldsOf;
    SigningsAreOk(d, states, actions, a);
    SigningsAreOk(d, states, actions, b);
    SigningOkSigns(d, a);
    SigningOkSigns(d, b);
    AgreeExactly(d.app, a.req, a.io, d.app, b.req, b.io);
  }

  /** Transactions with the same id parse the same, as when ids are collision-free and commit to the outputs. */
  ghost predicate IdsFixStaking(lib: Library) {
    forall tx, tx', magic, keys, quorum | lib.txid(tx) == lib.txid(tx') ::
      lib.parseV0StakingTx(tx, magic, keys, quorum) == lib.parseV0StakingTx(tx', magic, keys, quorum)
  }

  /** Then no re-organisation whatever, of deep blocks or between two reads, makes signatures conflict without carrying the
      staking transaction to a height with other parameters: under equal ones all fields and messages agree. */
  lemma ConflictsNeedOtherParameters(d: Deployment, states: seq<State>, actions: seq<Action>, a: Signing, b: Signing)
    requires IsRun(d, states, actions) && a in Last(states).signings && b in Last(states).signings
    requires IdsFixStaking(d.app.lib) && InclusionParams(d.app, a.io) == InclusionParams(d.app, b.io)
    ensures UnbondingShape(a.req.tx) && UnbondingShape(b.req.tx)
    ensures a.req.tx.txIn[0].previousOutPoint.hash == b.req.tx.txIn[0].previousOutPoint.hash ==>
              && FieldsOf(a.req.tx) == FieldsOf(b.req.tx)
              && ApprovedRequest(d.app, a.req, a.io).Success? && ApprovedRequest(d.app, b.req, b.io).Success?
              && SignedMessage(ApprovedRequest(d.app, a.req, a.io).value) == SignedMessage(ApprovedRequest(d.app, b.req, b.io).value)
  {
    hide SignUnbondingTransaction, Signs, ApprovedRequest, SignedMessage, FieldsOf;
    SigningsAreOk(d, states, actions, a);
    SigningsAreOk(d, states, actions, b);
    SigningOkSigns(d, a);
    SigningOkSigns(d, b);
    if a.req.tx.txIn[0].previousOutPoint.hash == b.req.tx.txIn[0].previousOutPoint.hash {
      SameIdSameStaking(d.app, a, b);
      MembersAgree(d.app, a.req, a.io, d.app, b.req, b.io);
    }
  }

  lemma SameIdSameStaking(app: SignerApp, a: Signing, b: Signing)
    requires IdsFixStaking(app.lib) && InclusionParams(app, a.io) == InclusionParams(app, b.io)
    requires a.io.txByHash.Success? && b.io.txByHash.Success? && app.lib.txid(InfoOf(a).tx) == app.lib.txid(InfoOf(b).tx)
    ensures Staking(app, a.io) == Staking(app, b.io)
  {
  }

  /** A signer whose parameters are the same at all heights up to its cap never signs conflicting transactions, in any run. */
  lemma OneVersionNeverConflicts(d: Deployment, states: seq<State>, actions: seq<Action>, a: Signing, b: Signing)
    requires IsRun(d, states, actions) && a in Last(states).signings && b in Last(states).signings
    requires IdsFixStaking(d.app.lib)
    requires forall h: uint32, h': uint32 | h <= d.app.maxStakingTransactionHeight && h' <= d.app.maxStakingTransactionHeight ::
               d.app.paramsByHeight(h) == d.app.paramsByHeight(h')
    ensures UnbondingShape(a.req.tx) && UnbondingShape(b.req.tx)
    ensures a.req.tx.txIn[0].previousOutPoint.hash == b.req.tx.txIn[0].previousOutPoint.hash ==> FieldsOf(a.req.tx) == FieldsOf(b.req.tx)
  {
    hide SignUnbondingTransaction, FieldsOf;
    SigningsAreOk(d, states, actions, a);
    SigningsAreOk(d, states, actions, b);
    SignedBelowCap(d.app, a);
    SignedBelowCap(d.app, b);
    ConflictsNeedOtherParameters(d, states, actions, a, b);
  }

  lemma SignedBelowCap(app: SignerApp, sg: Signing)
    requires SignUnbondingTransaction(app, sg.req, sg.io).result.Success?
    ensures sg.io.txByHash.Success? && InfoOf(sg).txInclusionHeight <= app.maxStakingTransactionHeight
  {
    hide Conclude;
  }

  lemma RunOfGoodRun(d: Deployment, states: seq<State>, actions: seq<Action>)
    requires GoodRun(d, states, actions)
    ensures IsRun(d, states, actions)
  {
  }
}
