/** The assumption on reads is needed: a run in which a re-organisation carries the staking transaction past the activation
    of new parameters between the two reads of one request, no deep block is ever lost, and two conflicting unbondings are
    signed. */
module TornRead {
  import opened Bitcoin
  import opened BtcStaking
  import opened ChainInfo
  import opened Client
  import opened Errors
  import opened FixedWidth
  import opened Handlers
  import opened Integers
  import opened Keys
  import opened Service
  import opened ServiceSafety
  import opened SignatureMessage
  import opened SignerApp
  import opened UnbondingAgreement
  import opened VersionedParams
  import opened Wrappers

  // ---------- Runs, action by action ----------

  datatype Run = Run(before: seq<State>, end: State, actions: seq<Action>) {
    function States(): seq<State> {
      before + [end]
    }
  }

  /** A chain of three blocks or more only grows. */
  ghost predicate Grows(states: seq<State>) {
    forall i, j | 0 <= i <= j < |states| && |states[i].chain| >= 3 :: states[i].chain <= states[j].chain
  }

  ghost predicate Steady(d: Deployment, r: Run) {
    IsRun(d, r.States(), r.actions) && Grows(r.States())
  }

  lemma Begin(d: Deployment, chain: seq<Block>) returns (r: Run)
    requires chain != [] && UniqueTxids(d.app.lib, chain)
    ensures Steady(d, r) && r.end == State(chain, map[], 0, 0, 0, [])
  {
    hide UniqueTxids;
    r := Run([], State(chain, map[], 0, 0, 0, []), []);
  }

  lemma Proceed(d: Deployment, r: Run, action: Action) returns (next: Run)
    requires Steady(d, r) && Enabled(d, r.end, action)
    requires action == Disconnect ==> |r.end.chain| < 3
    ensures Steady(d, next) && r.States() <= next.States() && next.end == Apply(d, r.end, action)
  {
    hide Grows, IsRun, Enabled, Apply;
    assert Last(r.States()) == r.end;
    RunGoesOn(d, r.States(), r.actions, action);
    if action != Disconnect {
      ChainAfter(d, r.end, action);
    }
    GrowsOn(r.States(), Apply(d, r.end, action));
    next := Run(r.States(), Apply(d, r.end, action), r.actions + [action]);
  }

  lemma RunGoesOn(d: Deployment, states: seq<State>, actions: seq<Action>, action: Action)
    requires states != [] && IsRun(d, states, actions) && Enabled(d, Last(states), action)
    ensures IsRun(d, states + [Apply(d, Last(states), action)], actions + [action])
  {
    hide Enabled, Apply, Init;
  }

  lemma GrowsOn(states: seq<State>, s: State)
    requires states != [] && Grows(states)
    requires |Last(states).chain| >= 3 ==> Last(states).chain <= s.chain
    ensures Grows(states + [s])
  {
    forall i | 0 <= i < |states| && |states[i].chain| >= 3 ensures states[i].chain <= s.chain {
      assert states[i].chain <= Last(states).chain;
    }
  }

  lemma ChainAfter(d: Deployment, s: State, action: Action)
    requires Enabled(d, s, action) && action != Disconnect
    ensures s.chain <= Apply(d, s, action).chain
  {
    hide DecodeRequest, Locate, Conclude, UniqueTxids;
  }

  lemma Mined(d: Deployment, r: Run, block: Block) returns (next: Run)
    requires Steady(d, r) && UniqueTxids(d.app.lib, r.end.chain + [block])
    ensures Steady(d, next) && r.States() <= next.States() && next.end == r.end.(chain := r.end.chain + [block])
  {
    hide UniqueTxids;
    next := Proceed(d, r, Mine(block));
  }

  /** A new request arrives and is decoded. */
  lemma Requested(d: Deployment, r: Run, id: nat, body: Option<SignUnbondingTxRequest>, req: Request) returns (next: Run)
    requires Steady(d, r) && id !in r.end.handlers && DecodeRequest(d.curve, body) == Success(req)
    ensures Steady(d, next) && r.States() <= next.States()
    ensures next.end == r.end.(handlers := r.end.handlers[id := Received(body, req)], received := r.end.received + 1)
  {
    hide DecodeRequest;
    var arrived := Proceed(d, r, Arrive(id, body));
    next := Proceed(d, arrived, Decode(id));
    assert arrived.end.handlers[id := Received(body, req)] == r.end.handlers[id := Received(body, req)];
  }

  lemma Found(d: Deployment, r: Run, id: nat, body: Option<SignUnbondingTxRequest>, req: Request, info: TxInfo) returns (next: Run)
    requires Steady(d, r) && id in r.end.handlers && r.end.handlers[id] == Received(body, req)
    requires Locate(d.app, req, Success(info)).result == Success(info)
    requires |req.tx.txIn| == 1 && d.app.lib.txid(info.tx) == req.tx.txIn[0].previousOutPoint.hash
    requires InBlock(r.end.chain, info.txInclusionHeight, info.tx)
    ensures Steady(d, next) && r.States() <= next.States()
    ensures next.end == r.end.(handlers := r.end.handlers[id := Located(body, req, info)])
  {
    hide Locate, InBlock;
    next := Proceed(d, r, ReadTx(id, Success(TxFoundIndex(info))));
  }

  lemma Approved(
      d: Deployment, r: Run, id: nat, body: Option<SignUnbondingTxRequest>, req: Request, info: TxInfo, tip: uint32,
      raw: SigningRequest -> Result<Signature, Error>, sig: Signature) returns (next: Run)
    requires Steady(d, r) && id in r.end.handlers && r.end.handlers[id] == Located(body, req, info)
    requires UnbondingShape(req.tx) && tip == |r.end.chain| - 1
    requires Conclude(d.app, req, info, Success(tip), raw).result == Success(sig)
    ensures Steady(d, next) && r.States() <= next.States()
    ensures var io := Answers(Success(info), Success(tip), raw);
            next.end == r.end.(handlers := r.end.handlers[id := Concluded(body, req, io, Success(sig))],
                                 signings := r.end.signings + [Signing(req, io, sig)])
  {
    hide Conclude, UnbondingShape;
    assert BestBlockHeight(Success(tip)) == Success(tip);
    next := Proceed(d, r, ReadTip(id, Success(tip), raw));
  }

  // ---------- The run, on any service that plays along ----------

  /** A request, where its staking transaction is found, and the signature it is given one block later. */
  datatype Case = Case(body: Option<SignUnbondingTxRequest>, req: Request, info: TxInfo, sig: Signature)

  ghost predicate Serves(d: Deployment, c: Case) {
    && c.info.txInclusionHeight < MAX_UINT32
    && DecodeRequest(d.curve, c.body) == Success(c.req)
    && Locate(d.app, c.req, Success(c.info)).result == Success(c.info)
    && UnbondingShape(c.req.tx) && d.app.lib.txid(c.info.tx) == c.req.tx.txIn[0].previousOutPoint.hash
    && Conclude(d.app, c.req, c.info, Success(c.info.txInclusionHeight + 1), Raw).result == Success(c.sig)
  }

  function Raw(request: SigningRequest): Result<Signature, Error> {
    Success(SIG)
  }

  function Signed(c: Case): Signing
    requires c.info.txInclusionHeight < MAX_UINT32
  {
    Signing(c.req, Answers(Success(c.info), Success(c.info.txInclusionHeight + 1), Raw), c.sig)
  }

  lemma ServedParts(d: Deployment, c: Case)
    requires Serves(d, c)
    ensures DecodeRequest(d.curve, c.body) == Success(c.req) && Locate(d.app, c.req, Success(c.info)).result == Success(c.info)
    ensures |c.req.tx.txIn| == 1 && d.app.lib.txid(c.info.tx) == c.req.tx.txIn[0].previousOutPoint.hash
  {
  }

  lemma Asked(d: Deployment, r: Run, id: nat, c: Case) returns (next: Run)
    requires Steady(d, r) && Serves(d, c) && id !in r.end.handlers
    requires InBlock(r.end.chain, c.info.txInclusionHeight, c.info.tx)
    ensures Steady(d, next) && r.States() <= next.States()
    ensures next.end.chain == r.end.chain && next.end.signings == r.end.signings
    ensures next.end.handlers == r.end.handlers[id := Located(c.body, c.req, c.info)]
  {
    hide *;
    ServedParts(d, c);
    next := Requested(d, r, id, c.body, c.req);
    next := Found(d, next, id, c.body, c.req, c.info);
  }

  lemma Answered(d: Deployment, r: Run, id: nat, c: Case) returns (next: Run)
    requires Steady(d, r) && Serves(d, c)
    requires id in r.end.handlers && r.end.handlers[id] == Located(c.body, c.req, c.info)
    requires |r.end.chain| == c.info.txInclusionHeight + 2
    ensures Steady(d, next) && r.States() <= next.States()
    ensures next.end.chain == r.end.chain && next.end.signings == r.end.signings + [Signed(c)]
    ensures next.end.handlers.Keys == r.end.handlers.Keys
  {
    hide Steady, Conclude, Locate, DecodeRequest, UnbondingShape;
    next := Approved(d, r, id, c.body, c.req, c.info, c.info.txInclusionHeight + 1, Raw, c.sig);
  }

  lemma BlockHolds(chain: seq<Block>, height: nat, tx: MsgTx)
    requires height < |chain| && tx in chain[height].txs
    ensures InBlock(chain, height, tx)
  {
  }

  /** The first request finds the staking transaction at height 1, and loses it. */
  lemma ReadGoesStale(d: Deployment, empty: Block, full: Block, c: Case) returns (r: Run)
    requires Serves(d, c) && c.info.txInclusionHeight == 1 && c.info.tx in full.txs
    requires UniqueTxids(d.app.lib, [empty, full])
    ensures Steady(d, r) && r.end.chain == [empty] && r.end.signings == []
    ensures r.end.handlers == map[0 := Located(c.body, c.req, c.info)]
  {
    hide Serves, UniqueTxids, InBlock, Steady;
    BlockHolds([empty, full], 1, c.info.tx);
    r := Begin(d, [empty, full]);
    r := Asked(d, r, 0, c);
    r := Proceed(d, r, Disconnect);
  }

  /** It is signed at height 1 all the same when the chain has grown again, with the staking transaction at height 2. */
  lemma StaleReadIsSigned(d: Deployment, r: Run, empty: Block, full: Block, c: Case) returns (next: Run)
    requires Steady(d, r) && r.end.chain == [empty] && r.end.signings == []
    requires r.end.handlers == map[0 := Located(c.body, c.req, c.info)]
    requires Serves(d, c) && c.info.txInclusionHeight == 1
    requires UniqueTxids(d.app.lib, [empty, empty]) && UniqueTxids(d.app.lib, [empty, empty, full])
    requires UniqueTxids(d.app.lib, [empty, empty, full, empty])
    ensures Steady(d, next) && r.States() <= next.States()
    ensures next.end.chain == [empty, empty, full, empty] && next.end.signings == [Signed(c)] && 1 !in next.end.handlers
  {
    hide *;
    assert [empty] + [empty] == [empty, empty];
    next := Mined(d, r, empty);
    assert [empty, empty] + [full] == [empty, empty, full];
    next := Mined(d, next, full);
    next := Answered(d, next, 0, c);
    assert [empty, empty, full] + [empty] == [empty, empty, full, empty];
    next := Mined(d, next, empty);
  }

  lemma SecondIsSigned(d: Deployment, r: Run, empty: Block, full: Block, c: Case) returns (next: Run)
    requires Steady(d, r) && r.end.chain == [empty, empty, full, empty] && 1 !in r.end.handlers
    requires Serves(d, c) && c.info.txInclusionHeight == 2 && c.info.tx in full.txs
    ensures Steady(d, next) && r.States() <= next.States() && next.end.signings == r.end.signings + [Signed(c)]
  {
    hide *;
    BlockHolds(r.end.chain, 2, c.info.tx);
    next := Asked(d, r, 1, c);
    next := Answered(d, next, 1, c);
  }

  // ---------- The service ----------

  const KEY: PubKey := PubKey(1, false)
  const SIG: Signature := Signature(1, 1)

  /** A staking transaction with one input and one output, and ids that tell it from all others. */
  const STAKED: TxOut := TxOut(100, [0x51])
  const STAKING_TX: MsgTx := MsgTx(2, [NewTxIn(OutPoint(LittleEndian(7, 32), 0))], [STAKED], 0)

  function Txid(tx: MsgTx): Hash {
    LittleEndian(if tx == STAKING_TX then 1 else 0, 32)
  }

  const STAKING: ParsedStakingTx := ParsedStakingTx(STAKED, 0, OpReturnData(KEY, KEY, 5))

  /** It finds nothing but the staking transaction staked. */
  function ParseStakingTx(tx: MsgTx, magic: bytes, keys: seq<PubKey>, quorum: uint32): Result<ParsedStakingTx, Error> {
    if tx == STAKING_TX then Success(STAKING) else Failure(Errorf("not a staking transaction"))
  }

  function NoFault(tx: MsgTx): Outcome<Error> {
    Pass
  }

  function ParsePkScript(script: bytes): Result<ScriptClass, Error> {
    Success(WitnessV1Taproot)
  }

  function UnbondingScript(staker: PubKey, fps: seq<PubKey>, keys: seq<PubKey>, quorum: uint32, time: uint16, value: int64): Result<bytes, Error> {
    Success([0x51])
  }

  function BuildStaking(staker: PubKey, fps: seq<PubKey>, keys: seq<PubKey>, quorum: uint32, time: uint16, value: int64): Result<StakingInfo, Error> {
    Success(StakingInfo(Success(SpendInfo(ControlBlock(Success([])), NewBaseTapLeaf([])))))
  }

  function Verify(key: PubKey, m: Message, sig: Signature): Outcome<Error> {
    Pass
  }

  function Address(key: PubKey): Result<string, Error> {
    Success("")
  }

  predicate HasPoint(x: nat) {
    true
  }

  predicate IsPoint(x: nat, y: nat) {
    true
  }

  const LIBRARY: Library :=
    Library(Txid, NoFault, NoFault, ParsePkScript, ParseStakingTx, UnbondingScript, BuildStaking, Verify, Address)

  /** Two versions that differ in the fee only. Both ask for two confirmations. */
  const CHEAP: VersionedGlobalParams := VersionedGlobalParams(0, 1, 0, 0, [], [KEY], 1, 1, 10, 1000, 0, 10, 0, 2)
  const DEAR: VersionedGlobalParams := CHEAP.(version := 1, activationHeight := 2, unbondingFee := 20)
  const VERSIONS: seq<VersionedGlobalParams> := [CHEAP, DEAR]

  const APP: SignerApp := Deployed(LIBRARY, VERSIONS, MAX_UINT32)
  const SERVICE: Deployment := Deployment(APP, Curve(HasPoint, IsPoint))

  function Unbond(value: int64): Request {
    Request([], MsgTx(2, [NewTxIn(OutPoint(Txid(STAKING_TX), 0))], [TxOut(value, [0x51])], 0), SIG, KEY)
  }

  function BodyOf(value: int64): Option<SignUnbondingTxRequest> {
    Some(EncodeRequest(Unbond(value)))
  }

  const EMPTY: Block := Block([])
  const WITH_STAKING: Block := Block([STAKING_TX])

  const CHEAP_CASE: Case := Case(BodyOf(90), Unbond(90), TxInfo(STAKING_TX, 1), SIG)
  const DEAR_CASE: Case := Case(BodyOf(80), Unbond(80), TxInfo(STAKING_TX, 2), SIG)

  // ---------- What it decides ----------

  lemma BodiesDecode(value: int64)
    ensures DecodeRequest(SERVICE.curve, BodyOf(value)) == Success(Unbond(value))
  {
    RequestRoundTrip(SERVICE.curve, Unbond(value));
  }

  lemma ParamsInForce(height: uint32)
    ensures VERSIONS == [CHEAP, DEAR]
    ensures APP.paramsByHeight(height) == ParamsByHeight(VERSIONS, height)
    ensures APP.paramsByHeight(height).Success? <==> height >= 1
    ensures height >= 1 ==>
              APP.paramsByHeight(height).value == BabylonParams([KEY], 1, [], 1, if height == 1 then 10 else 20, 1000, 0, 10, 0, 2)
  {
    assert VERSIONS[..1] == [CHEAP] && [CHEAP][..0] == [];
    assert GetVersionedGlobalParamsByHeight([], height) == None;
    assert GetVersionedGlobalParamsByHeight([CHEAP], height) == if height >= 1 then Some(CHEAP) else None;
    assert GetVersionedGlobalParamsByHeight(VERSIONS, height) ==
           if height >= 2 then Some(DEAR) else if height == 1 then Some(CHEAP) else None;
  }

  predicate Leaves(height: uint32, value: int64) {
    (height == 1 && value == 90) || (height == 2 && value == 80)
  }

  lemma InclusionPasses(value: int64, height: uint32)
    requires Leaves(height, value)
    ensures APP.paramsByHeight(height).Success?
    ensures CheckInclusion(Unbond(value), TxInfo(STAKING_TX, height), height + 1, APP.paramsByHeight(height).value).Pass?
  {
    ParamsInForce(height);
    assert NumberOfConfirmations(height + 1, height) == 2;
  }

  lemma StakingPasses(value: int64, height: uint32)
    requires Leaves(height, value)
    ensures APP.paramsByHeight(height).Success? && UnbondingShape(Unbond(value).tx)
    ensures CheckStaking(LIBRARY, Unbond(value), TxInfo(STAKING_TX, height), APP.paramsByHeight(height).value) == Success(STAKING)
  {
    ParamsInForce(height);
  }

  lemma OutputPasses(value: int64, height: uint32)
    requires Leaves(height, value) && UnbondingShape(Unbond(value).tx)
    ensures APP.paramsByHeight(height).Success?
    ensures CheckUnbondingOutput(LIBRARY, Unbond(value), APP.paramsByHeight(height).value, STAKING).Success?
  {
    ParamsInForce(height);
    assert ExpectedUnbondingValue(100, APP.paramsByHeight(height).value.unbondingFee) == value;
  }

  lemma SignaturePasses(value: int64, p: BabylonParams)
    ensures CheckStakerSignature(LIBRARY, Unbond(value), p, STAKING).Success?
  {
  }

  /** With one block above it, the staking transaction at `height` is unbonded to what the fee in force there leaves. */
  lemma Decided(value: int64, height: uint32)
    requires Leaves(height, value)
    ensures UnbondingShape(Unbond(value).tx)
    ensures Conclude(APP, Unbond(value), TxInfo(STAKING_TX, height), Success(height + 1), Raw).result == Success(SIG)
  {
    hide CheckInclusion, CheckStaking, CheckUnbondingOutput, CheckStakerSignature, UnbondingShape;
    InclusionPasses(value, height);
    StakingPasses(value, height);
    OutputPasses(value, height);
    SignaturePasses(value, APP.paramsByHeight(height).value);
  }

  lemma Locates(value: int64, height: uint32)
    ensures |Unbond(value).tx.txIn| == 1 && LIBRARY.txid(STAKING_TX) == Unbond(value).tx.txIn[0].previousOutPoint.hash
    ensures Locate(APP, Unbond(value), Success(TxInfo(STAKING_TX, height))).result == Success(TxInfo(STAKING_TX, height))
  {
  }

  lemma StakingIsAlone(chain: seq<Block>)
    requires forall b | b in chain :: b == EMPTY || b == WITH_STAKING
    requires forall i, j | 0 <= i < j < |chain| && chain[i] == WITH_STAKING :: chain[j] == EMPTY
    ensures UniqueTxids(LIBRARY, chain)
  {
    assert forall tx :: tx in WITH_STAKING.txs ==> tx == STAKING_TX;
    assert forall tx :: tx !in EMPTY.txs;
    assert forall i | 0 <= i < |chain| :: chain[i] in chain;
  }

  lemma ChainsAreFine()
    ensures UniqueTxids(LIBRARY, [EMPTY, WITH_STAKING]) && UniqueTxids(LIBRARY, [EMPTY, EMPTY])
    ensures UniqueTxids(LIBRARY, [EMPTY, EMPTY, WITH_STAKING]) && UniqueTxids(LIBRARY, [EMPTY, EMPTY, WITH_STAKING, EMPTY])
    ensures STAKING_TX in WITH_STAKING.txs && STAKING_TX !in EMPTY.txs
  {
    hide UniqueTxids;
    StakingIsAlone([EMPTY, WITH_STAKING]);
    StakingIsAlone([EMPTY, EMPTY]);
    StakingIsAlone([EMPTY, EMPTY, WITH_STAKING]);
    StakingIsAlone([EMPTY, EMPTY, WITH_STAKING, EMPTY]);
  }

  lemma NothingDeepIsLost(states: seq<State>)
    requires Grows(states)
    ensures DeepBlocksStay(APP, states)
  {
    forall i, j, h: nat | 0 <= i <= j < |states| && IsDeep(APP, states[i].chain, h)
      ensures h < |states[j].chain| && states[j].chain[h] == states[i].chain[h]
    {
      ParamsInForce(h);
      assert states[i].chain <= states[j].chain;
    }
  }

  lemma IdsFix()
    ensures IdsFixStaking(LIBRARY)
  {
    assert LittleEndian(0, 32)[0] != LittleEndian(1, 32)[0];
  }

  // ---------- The conflict ----------

  lemma CasesAreServed()
    ensures Serves(SERVICE, CHEAP_CASE) && Serves(SERVICE, DEAR_CASE)
  {
    BodiesDecode(90);
    BodiesDecode(80);
    Locates(90, 1);
    Locates(80, 2);
    Decided(90, 1);
    Decided(80, 2);
    hide DecodeRequest, Locate, Conclude, UnbondingShape, Unbond, BodyOf;
  }

  lemma ConflictingRun(d: Deployment, empty: Block, full: Block, first: Case, second: Case) returns (r: Run)
    requires Serves(d, first) && first.info.txInclusionHeight == 1 && first.info.tx in full.txs && first.info.tx !in empty.txs
    requires Serves(d, second) && second.info.txInclusionHeight == 2 && second.info.tx in full.txs
    requires UniqueTxids(d.app.lib, [empty, full]) && UniqueTxids(d.app.lib, [empty, empty])
    requires UniqueTxids(d.app.lib, [empty, empty, full]) && UniqueTxids(d.app.lib, [empty, empty, full, empty])
    ensures Steady(d, r) && !ReadsStayTrue(r.States())
    ensures r.end.signings == [Signed(first), Signed(second)]
  {
    hide Serves, UniqueTxids, Steady;
    var stale := ReadGoesStale(d, empty, full, first);
    r := StaleReadIsSigned(d, stale, empty, full, first);
    r := SecondIsSigned(d, r, empty, full, second);
    assert stale.States() <= r.States();
    var s := r.States()[|stale.before|];
    assert s == stale.end && 0 in s.handlers && s.handlers[0].Located?;
    assert !InBlock(s.chain, first.info.txInclusionHeight, first.info.tx);
  }

  lemma UnbondingsDiffer()
    ensures var a, b := Signed(CHEAP_CASE).req.tx, Signed(DEAR_CASE).req.tx;
            && UnbondingShape(a) && UnbondingShape(b)
            && a.txIn[0].previousOutPoint == b.txIn[0].previousOutPoint && FieldsOf(a) != FieldsOf(b)
  {
    assert FieldsOf(Unbond(90).tx).output.value == 90 && FieldsOf(Unbond(80).tx).output.value == 80;
  }

  lemma BothAreSigned() returns (r: Run)
    ensures Steady(SERVICE, r) && !ReadsStayTrue(r.States())
    ensures r.end.signings == [Signed(CHEAP_CASE), Signed(DEAR_CASE)]
  {
    CasesAreServed();
    ChainsAreFine();
    hide Serves, UniqueTxids, Steady, ReadsStayTrue, Signed, BodyOf, Unbond;
    r := ConflictingRun(SERVICE, EMPTY, WITH_STAKING, CHEAP_CASE, DEAR_CASE);
  }

  lemma SteadyIsSafe(d: Deployment, r: Run)
    requires Steady(d, r) && d.app == APP
    ensures IsRun(d, r.States(), r.actions) && DeepBlocksStay(APP, r.States())
    ensures Last(r.States()) == r.end
  {
    hide IsRun, DeepBlocksStay;
    NothingDeepIsLost(r.States());
  }

  /** `SERVICE` has two versions of its parameters, in order, and ids that fix the staking transaction. In one of its runs deep
      blocks are never lost, one read goes stale, and two unbondings of one staking output are signed that differ. */
  lemma TornReadsCanConflict() returns (r: Run, a: Signing, b: Signing)
    ensures Ascending(VERSIONS) && IdsFixStaking(LIBRARY)
    ensures IsRun(SERVICE, r.States(), r.actions) && DeepBlocksStay(APP, r.States()) && !ReadsStayTrue(r.States())
    ensures a in Last(r.States()).signings && b in Last(r.States()).signings
    ensures UnbondingShape(a.req.tx) && UnbondingShape(b.req.tx)
    ensures a.req.tx.txIn[0].previousOutPoint == b.req.tx.txIn[0].previousOutPoint && FieldsOf(a.req.tx) != FieldsOf(b.req.tx)
  {
    assert Ascending(VERSIONS);
    assert SERVICE.app == APP;
    hide *;
    a, b := Signed(CHEAP_CASE), Signed(DEAR_CASE);
    UnbondingsDiffer();
    IdsFix();
    r := BothAreSigned();
    SteadyIsSafe(SERVICE, r);
  }
}
