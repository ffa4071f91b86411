/** When a request can be signed, and that it then stays so while the chain grows. */
module ServiceProgress {
  import opened Bitcoin
  import opened BtcStaking
  import opened ChainInfo
  import opened Handlers
  import opened HttpResponse
  import opened Integers
  import opened Keys
  import opened Service
  import opened ServiceCounters
  import opened ServiceErrors
  import opened ServiceInvariants
  import opened ServiceSafety
  import opened SignerApp
  import opened SignerGate
  import opened UnbondingAgreement
  import opened VersionedParams
  import opened Wrappers

  /** The answers of a node that knows the chain, about a transaction that is in it. */
  ghost predicate AnswersFrom(lib: Library, chain: seq<Block>, hash: Hash, io: Answers) {
    && io.txByHash.Success?
    && var info := io.txByHash.value;
    && InBlock(chain, info.txInclusionHeight, info.tx) && lib.txid(info.tx) == hash
    && io.bestBlock == BestBlockHeight(Success(ToInt64(|chain| - 1)))
  }

  /** Heights below 2^32, as the node reports them. */
  ghost predicate HeightsFit(chain: seq<Block>) {
    0 < |chain| <= 0x1_0000_0000
  }

  lemma TipOf(lib: Library, chain: seq<Block>, hash: Hash, io: Answers)
    requires HeightsFit(chain) && AnswersFrom(lib, chain, hash, io)
    ensures io.bestBlock == Success(|chain| - 1)
  {
    hide InBlock;
  }

  /** On one chain: a request is signed exactly when it is valid but for the tip and the staking transaction has its
      confirmations. */
  lemma SignedWhenMature(app: SignerApp, req: Request, chain: seq<Block>, hash: Hash, io: Answers)
    requires HeightsFit(chain) && AnswersFrom(app.lib, chain, hash, io)
    ensures Signs(app, req, io)
       <==> && ValidButForTip(Look(app, req, io)) && InclusionParams(app, io).Success?
            && |chain| >= io.txByHash.value.txInclusionHeight + InclusionParams(app, io).value.confirmationDepth
  {
    hide Signs, ValidButForTip, InclusionParams, InBlock;
    TipOf(app.lib, chain, hash, io);
    assert io.(bestBlock := Success(|chain| - 1)) == io;
    ExactMaturity(app, req, io, |chain| - 1);
  }

  /** On a chain that only grows the inclusion height of a transaction does not move, and a request that is signed once
      is signed ever after. */
  lemma SignedEverAfter(app: SignerApp, req: Request, chain: seq<Block>, later: seq<Block>, hash: Hash, io: Answers, io': Answers)
    requires HeightsFit(chain) && HeightsFit(later) && chain <= later && UniqueTxids(app.lib, later)
    requires AnswersFrom(app.lib, chain, hash, io) && AnswersFrom(app.lib, later, hash, io')
    requires io.rawSignature == io'.rawSignature
    ensures io.txByHash == io'.txByHash
    ensures Signs(app, req, io) ==> Signs(app, req, io')
  {
    hide *;
    SameInclusion(app.lib, chain, later, hash, io, io');
    if Signs(app, req, io) {
      TipsAgree(app, req, chain, later, hash, io, io');
    }
  }

  lemma TipsAgree(app: SignerApp, req: Request, chain: seq<Block>, later: seq<Block>, hash: Hash, io: Answers, io': Answers)
    requires HeightsFit(chain) && HeightsFit(later) && |chain| <= |later|
    requires AnswersFrom(app.lib, chain, hash, io) && AnswersFrom(app.lib, later, hash, io')
    requires io.txByHash == io'.txByHash && io.rawSignature == io'.rawSignature
    requires Signs(app, req, io)
    ensures Signs(app, req, io')
  {
    hide Signs, InBlock, BestBlockHeight;
    TipOf(app.lib, chain, hash, io);
    TipOf(app.lib, later, hash, io');
    LaterTipSigns(app, req, io, io', |chain| - 1, |later| - 1);
  }

  lemma LaterTipSigns(app: SignerApp, req: Request, io: Answers, io': Answers, tip: uint32, later: uint32)
    requires io.bestBlock == Success(tip) && io' == io.(bestBlock := Success(later)) && tip <= later
    requires Signs(app, req, io)
    ensures Signs(app, req, io')
  {
    hide Signs;
    assert io == io.(bestBlock := Success(tip));
    MaturityPersists(app, req, io, tip, later);
  }

  lemma SameInclusion(lib: Library, chain: seq<Block>, later: seq<Block>, hash: Hash, io: Answers, io': Answers)
    requires chain <= later && UniqueTxids(lib, later)
    requires AnswersFrom(lib, chain, hash, io) && AnswersFrom(lib, later, hash, io')
    ensures io.txByHash == io'.txByHash
  {
    var info, info' := io.txByHash.value, io'.txByHash.value;
    assert InBlock(later, info.txInclusionHeight, info.tx);
    assert info.tx == info'.tx && info.txInclusionHeight == info'.txInclusionHeight;
  }

  /** A received request that would be signed on the current chain can be: the two reads and the count are possible one
      after the other, and lead to an answer with status 200. */
  lemma SignableIsSigned(d: Deployment, s: State, id: nat, io: Answers) returns (actions: seq<Action>, end: State)
    requires StateOk(d, s) && HeightsFit(s.chain)
    requires id in s.handlers && s.handlers[id].Received? && s.handlers[id].req.tx.txIn != []
    requires AnswersFrom(d.app.lib, s.chain, s.handlers[id].req.tx.txIn[0].previousOutPoint.hash, io)
    requires Signs(d.app, s.handlers[id].req, io)
    ensures |actions| == 3
    ensures Enabled(d, s, actions[0])
    ensures var s1 := Apply(d, s, actions[0]);
            && Enabled(d, s1, actions[1])
            && var s2 := Apply(d, s1, actions[1]);
            && Enabled(d, s2, actions[2])
            && end == Apply(d, s2, actions[2])
    ensures end.chain == s.chain && id in end.handlers && end.handlers[id].Answered?
    ensures end.handlers[id].response.status == STATUS_OK && end.succeeded == s.succeeded + 1
  {
    hide SignUnbondingTransaction, DecodeRequest, Locate, Conclude, UniqueTxids, SigningOk, InBlock, Respond, Classify, UnbondingShape;
    var phase, info := s.handlers[id], io.txByHash.value;
    var first := ReadTx(id, Success(TxFoundIndex(info)));
    var second := ReadTip(id, Success(|s.chain| - 1), io.rawSignature);
    TipOf(d.app.lib, s.chain, phase.req.tx.txIn[0].previousOutPoint.hash, io);
    SignedHalves(d.app, phase.req, io);
    assert io == Answers(Success(info), BestBlockHeight(Success(|s.chain| - 1)), io.rawSignature);
    var s1 := Apply(d, s, first);
    assert s1 == s.(handlers := s.handlers[id := Located(phase.body, phase.req, info)]);
    var s2 := Apply(d, s1, second);
    var result := Conclude(d.app, phase.req, info, io.bestBlock, io.rawSignature).result;
    assert s2.handlers[id] == Concluded(phase.body, phase.req, io, result);
    AnswerKind(result);
    actions := [first, second, Count(id)];
    end := Apply(d, s2, Count(id));
  }

  lemma SignedHalves(app: SignerApp, req: Request, io: Answers)
    requires Signs(app, req, io)
    ensures UnbondingShape(req.tx) && io.txByHash.Success?
    ensures Locate(app, req, io.txByHash).result == io.txByHash
    ensures Conclude(app, req, io.txByHash.value, io.bestBlock, io.rawSignature).result.Success?
  {
    hide Locate, Conclude, SignUnbondingTransaction;
    if Locate(app, req, io.txByHash).result.Failure? {
      FirstHalfFails(app, req, io);
    } else {
      FirstHalfSucceeds(app, req, io.txByHash);
      BothHalves(app, req, io.txByHash.value, io.bestBlock, io.rawSignature);
    }
  }
}
