/** What every step of the service keeps: small steps add up to the sequential handler, and ids stay unique on the
    chain. */
module ServiceInvariants {
  import opened Bitcoin
  import opened BtcStaking
  import opened ChainInfo
  import opened Errors
  import opened Handlers
  import opened HttpResponse
  import opened Integers
  import opened Keys
  import opened Service
  import opened SignerApp
  import opened Wrappers

  ghost predicate PhaseOk(d: Deployment, phase: Phase) {
    match phase
    case Arrived(_) => true
    case Received(body, req) => DecodeRequest(d.curve, body) == Success(req)
    case Located(body, req, info) =>
      && DecodeRequest(d.curve, body) == Success(req)
      && Locate(d.app, req, Success(info)).result == Success(info)
      && UnbondingShape(req.tx)
      && d.app.lib.txid(info.tx) == req.tx.txIn[0].previousOutPoint.hash
    case Concluded(body, req, io, result) =>
      && DecodeRequest(d.curve, body) == Success(req)
      && result == SignUnbondingTransaction(d.app, req, io).result
    case Answered(body, io, response) => response == Respond(Handle(d.curve, d.app, body, io))
  }

  ghost predicate SigningOk(d: Deployment, sg: Signing) {
    && SignUnbondingTransaction(d.app, sg.req, sg.io).result == Success(sg.signature)
    && UnbondingShape(sg.req.tx)
    && sg.io.txByHash.Success?
    && d.app.lib.txid(sg.io.txByHash.value.tx) == sg.req.tx.txIn[0].previousOutPoint.hash
  }

  ghost predicate StateOk(d: Deployment, s: State) {
    && s.chain != [] && UniqueTxids(d.app.lib, s.chain)
    && (forall id | id in s.handlers :: PhaseOk(d, s.handlers[id]))
    && (forall sg | sg in s.signings :: SigningOk(d, sg))
  }

  // ---------- The two halves of a decision make the whole ----------

  lemma FirstHalfFails(app: SignerApp, req: Request, io: Answers)
    requires Locate(app, req, io.txByHash).result.Failure?
    ensures SignUnbondingTransaction(app, req, io).result == Failure(Locate(app, req, io.txByHash).result.error)
  {
    hide Locate, Conclude;
  }

  lemma FirstHalfSucceeds(app: SignerApp, req: Request, answer: Result<TxInfo, Error>)
    requires Locate(app, req, answer).result.Success?
    ensures UnbondingShape(req.tx) && answer == Locate(app, req, answer).result
  {
  }

  lemma BothHalves(app: SignerApp, req: Request, info: TxInfo, tip: Result<uint32, Error>, raw: SigningRequest -> Result<Signature, Error>)
    requires Locate(app, req, Success(info)).result == Success(info) && UnbondingShape(req.tx)
    ensures SignUnbondingTransaction(app, req, Answers(Success(info), tip, raw)).result == Conclude(app, req, info, tip, raw).result
  {
    hide Locate, Conclude;
  }

  // ---------- Action by step ----------

  lemma DecodeKeeps(d: Deployment, s: State, id: nat)
    requires StateOk(d, s) && Enabled(d, s, Decode(id))
    ensures StateOk(d, Apply(d, s, Decode(id)))
  {
    hide DecodeRequest, UniqueTxids, SigningOk, Locate, SignUnbondingTransaction;
  }

  lemma ReadTxKeeps(d: Deployment, s: State, id: nat, details: Result<TxConfStatus, Error>)
    requires StateOk(d, s) && Enabled(d, s, ReadTx(id, details))
    ensures StateOk(d, Apply(d, s, ReadTx(id, details)))
  {
    hide DecodeRequest, UniqueTxids, SigningOk, Locate, SignUnbondingTransaction, UnbondingShape, InBlock;
    var phase := s.handlers[id];
    assert PhaseOk(d, phase);
    var answer := TxByHash(details);
    if Locate(d.app, phase.req, answer).result.Success? {
      FirstHalfSucceeds(d.app, phase.req, answer);
      ShapeHasInput(phase.req.tx);
    } else {
      FirstHalfFails(d.app, phase.req, Unasked(answer));
    }
  }

  lemma ShapeHasInput(tx: MsgTx)
    requires UnbondingShape(tx)
    ensures |tx.txIn| == 1 && |tx.txOut| == 1
  {
  }

  lemma ReadTipKeeps(d: Deployment, s: State, id: nat, count: Result<int64, Error>, raw: SigningRequest -> Result<Signature, Error>)
    requires StateOk(d, s) && Enabled(d, s, ReadTip(id, count, raw))
    ensures StateOk(d, Apply(d, s, ReadTip(id, count, raw)))
  {
    hide DecodeRequest, UniqueTxids, Locate, Conclude, SignUnbondingTransaction, BestBlockHeight;
    var phase := s.handlers[id];
    assert PhaseOk(d, phase);
    BothHalves(d.app, phase.req, phase.info, BestBlockHeight(count), raw);
  }

  lemma CountKeeps(d: Deployment, s: State, id: nat)
    requires StateOk(d, s) && Enabled(d, s, Count(id))
    ensures StateOk(d, Apply(d, s, Count(id)))
  {
    hide DecodeRequest, UniqueTxids, SigningOk, Locate, SignUnbondingTransaction, Respond, Classify;
    assert PhaseOk(d, s.handlers[id]);
  }

  lemma DisconnectKeeps(d: Deployment, s: State)
    requires StateOk(d, s) && Enabled(d, s, Disconnect)
    ensures StateOk(d, Apply(d, s, Disconnect))
  {
    hide PhaseOk, SigningOk;
    var shorter := s.chain[..|s.chain| - 1];
    assert forall h, tx | InBlock(shorter, h, tx) :: InBlock(s.chain, h, tx);
  }

  lemma StepKeeps(d: Deployment, s: State, action: Action)
    requires StateOk(d, s) && Enabled(d, s, action)
    ensures StateOk(d, Apply(d, s, action))
  {
    match action {
      case Mine(_) => hide PhaseOk, SigningOk, UniqueTxids;
      case Disconnect => DisconnectKeeps(d, s);
      case Arrive(_, _) => hide SigningOk, UniqueTxids;
      case Decode(id) => DecodeKeeps(d, s, id);
      case ReadTx(id, details) => ReadTxKeeps(d, s, id, details);
      case ReadTip(id, count, raw) => ReadTipKeeps(d, s, id, count, raw);
      case Count(id) => CountKeeps(d, s, id);
    }
  }

  /** In every reachable state, whatever the interleaving: each answer is the one the sequential handler gives on the
      answers it got, each signature is a decision of the signer, and ids are unique on the chain. */
  lemma {:induction false} RunsKeepStateOk(d: Deployment, states: seq<State>, actions: seq<Action>)
    requires IsRun(d, states, actions)
    ensures forall i | 0 <= i < |states| :: StateOk(d, states[i])
    decreases |actions|
  {
    hide StateOk, Enabled, Apply;
    if actions == [] {
      InitOk(d, states[0]);
    } else {
      var n := |actions| - 1;
      RunPrefix(d, states, actions);
      RunsKeepStateOk(d, states[..n + 1], actions[..n]);
      assert states[..n + 1][n] == states[n];
      StepKeeps(d, states[n], actions[n]);
      forall i | 0 <= i < |states| ensures StateOk(d, states[i]) {
        if i <= n {
          assert states[..n + 1][i] == states[i];
        }
      }
    }
  }

  lemma InitOk(d: Deployment, s: State)
    requires Init(d, s)
    ensures StateOk(d, s)
  {
  }

  /** The shape test in front of the second read never blocks a located request. */
  lemma LocatedCanGoOn(d: Deployment, s: State, id: nat, count: Result<int64, Error>, raw: SigningRequest -> Result<Signature, Error>)
    requires StateOk(d, s) && id in s.handlers && s.handlers[id].Located? && TruthfulCount(s.chain, count)
    ensures Enabled(d, s, ReadTip(id, count, raw))
  {
    assert PhaseOk(d, s.handlers[id]);
  }
}
