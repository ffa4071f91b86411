/** The service as a system of steps: a chain that grows and is re-organised, and any number of requests in flight,
    each between its atomic actions. */
module Service {
  import opened Bitcoin
  import opened BtcStaking
  import opened ChainInfo
  import opened Errors
  import opened Handlers
  import opened HttpResponse
  import opened Integers
  import opened Keys
  import opened SignerApp
  import opened Wrappers

  // ---------- The chain ----------

  datatype Block = Block(txs: seq<MsgTx>)

  ghost predicate InBlock(chain: seq<Block>, height: nat, tx: MsgTx) {
    height < |chain| && tx in chain[height].txs
  }

  /** A transaction id occurs at one place of a chain only. */
  ghost predicate UniqueTxids(lib: Library, chain: seq<Block>) {
    forall h, h', tx, tx' | InBlock(chain, h, tx) && InBlock(chain, h', tx') && lib.txid(tx) == lib.txid(tx') ::
      h == h' && tx == tx'
  }

  /** What the node may say about a transaction: nothing but errors and absences when it is not there, and its place
      when it is. */
  ghost predicate TruthfulDetails(lib: Library, chain: seq<Block>, hash: Hash, details: Result<TxConfStatus, Error>) {
    details.Success? && (details.value.TxFoundIndex? || details.value.TxFoundManually?) ==>
      var info := details.value.confirmation; InBlock(chain, info.txInclusionHeight, info.tx) && lib.txid(info.tx) == hash
  }

  ghost predicate TruthfulCount(chain: seq<Block>, count: Result<int64, Error>) {
    count.Success? ==> count.value == |chain| - 1
  }

  // ---------- States and steps ----------

  /** Where a request stands between two atomic actions, with the answers it has been given. */
  datatype Phase =
    | Arrived(body: Option<SignUnbondingTxRequest>)
    | Received(body: Option<SignUnbondingTxRequest>, req: Request)
    | Located(body: Option<SignUnbondingTxRequest>, req: Request, info: TxInfo)
    | Concluded(body: Option<SignUnbondingTxRequest>, req: Request, io: Answers, result: Result<Signature, Error>)
    | Answered(body: Option<SignUnbondingTxRequest>, io: Answers, response: Response)

  /** A signature given: for which request, and on which answers. */
  datatype Signing = Signing(req: Request, io: Answers, signature: Signature)

  datatype State = State(
    chain: seq<Block>, handlers: map<nat, Phase>, received: nat, succeeded: nat, failed: nat, signings: seq<Signing>)

  datatype Action =
    | Mine(block: Block)
    | Disconnect
    | Arrive(id: nat, body: Option<SignUnbondingTxRequest>)
    | Decode(id: nat)
    | ReadTx(id: nat, details: Result<TxConfStatus, Error>)
    | ReadTip(id: nat, count: Result<int64, Error>, raw: SigningRequest -> Result<Signature, Error>)
    | Count(id: nat)

  datatype Deployment = Deployment(app: SignerApp, curve: Curve)

  const NOT_ASKED := Errorf("not asked")

  function Unasked(txByHash: Result<TxInfo, Error>): Answers {
    Answers(txByHash, Failure(NOT_ASKED), (r: SigningRequest) => Failure(NOT_ASKED))
  }

  /** A re-organisation is any number of disconnected blocks followed by mined ones; requests act in between. */
  ghost predicate Enabled(d: Deployment, s: State, action: Action) {
    match action
    case Mine(block) => UniqueTxids(d.app.lib, s.chain + [block])
    case Disconnect => |s.chain| > 1
    case Arrive(id, _) => id !in s.handlers
    case Decode(id) => id in s.handlers && s.handlers[id].Arrived?
    case ReadTx(id, details) =>
      && id in s.handlers && s.handlers[id].Received?
      && (s.handlers[id].req.tx.txIn != [] ==>
            TruthfulDetails(d.app.lib, s.chain, s.handlers[id].req.tx.txIn[0].previousOutPoint.hash, details))
    case ReadTip(id, count, _) =>
      && id in s.handlers && s.handlers[id].Located? && UnbondingShape(s.handlers[id].req.tx)
      && TruthfulCount(s.chain, count)
    case Count(id) => id in s.handlers && s.handlers[id].Concluded?
  }

  ghost function Apply(d: Deployment, s: State, action: Action): State
    requires Enabled(d, s, action)
  {
    match action
    case Mine(block) => s.(chain := s.chain + [block])
    case Disconnect => s.(chain := s.chain[..|s.chain| - 1])
    case Arrive(id, body) => s.(handlers := s.handlers[id := Arrived(body)])
    case Decode(id) => ApplyDecode(d, s, id, s.handlers[id].body)
    case ReadTx(id, details) => ApplyReadTx(d, s, id, s.handlers[id].body, s.handlers[id].req, TxByHash(details))
    case ReadTip(id, count, raw) =>
      ApplyReadTip(d, s, id, s.handlers[id].body, s.handlers[id].req, s.handlers[id].info, BestBlockHeight(count), raw)
    case Count(id) => ApplyCount(s, id, s.handlers[id])
  }

  ghost function ApplyDecode(d: Deployment, s: State, id: nat, body: Option<SignUnbondingTxRequest>): State {
    match DecodeRequest(d.curve, body)
    case Failure(e) => s.(handlers := s.handlers[id := Answered(body, Unasked(Failure(NOT_ASKED)), Respond(Failure(e)))])
    case Success(req) => s.(handlers := s.handlers[id := Received(body, req)], received := s.received + 1)
  }

  ghost function ApplyReadTx(
      d: Deployment, s: State, id: nat, body: Option<SignUnbondingTxRequest>, req: Request, answer: Result<TxInfo, Error>): State
  {
    match Locate(d.app, req, answer).result
    case Failure(e) => s.(handlers := s.handlers[id := Concluded(body, req, Unasked(answer), Failure(e))])
    case Success(info) => s.(handlers := s.handlers[id := Located(body, req, info)])
  }

  ghost function ApplyReadTip(
      d: Deployment, s: State, id: nat, body: Option<SignUnbondingTxRequest>, req: Request, info: TxInfo,
      tip: Result<uint32, Error>, raw: SigningRequest -> Result<Signature, Error>): State
    requires UnbondingShape(req.tx)
  {
    var io := Answers(Success(info), tip, raw);
    var result := Conclude(d.app, req, info, tip, raw).result;
    s.(handlers := s.handlers[id := Concluded(body, req, io, result)],
       signings := if result.Success? then s.signings + [Signing(req, io, result.value)] else s.signings)
  }

  ghost function ApplyCount(s: State, id: nat, phase: Phase): State
    requires phase.Concluded?
  {
    var done := s.handlers[id := Answered(phase.body, phase.io, Respond(Classify(phase.result)))];
    if phase.result.Success? then s.(handlers := done, succeeded := s.succeeded + 1)
    else s.(handlers := done, failed := s.failed + 1)
  }

  // ---------- Runs ----------

  ghost predicate Init(d: Deployment, s: State) {
    && s.chain != [] && UniqueTxids(d.app.lib, s.chain)
    && s.handlers == map[] && s.signings == []
    && s.received == s.succeeded == s.failed == 0
  }

  ghost predicate IsRun(d: Deployment, states: seq<State>, actions: seq<Action>) {
    && |states| == |actions| + 1
    && Init(d, states[0])
    && forall i | 0 <= i < |actions| :: Enabled(d, states[i], actions[i]) && states[i + 1] == Apply(d, states[i], actions[i])
  }

  function Last(states: seq<State>): State
    requires states != []
  {
    states[|states| - 1]
  }

  lemma RunPrefix(d: Deployment, states: seq<State>, actions: seq<Action>)
    requires IsRun(d, states, actions) && actions != []
    ensures var n := |actions| - 1;
            && IsRun(d, states[..n + 1], actions[..n]) && Last(states[..n + 1]) == states[n]
            && Enabled(d, states[n], actions[n]) && Last(states) == Apply(d, states[n], actions[n])
  {
  }
}
