/** The counters account for every request, in every interleaving. */
module ServiceCounters {
  import opened BtcStaking
  import opened Errors
  import opened Handlers
  import opened HttpResponse
  import opened Keys
  import opened Service
  import opened ServiceErrors
  import opened ServiceInvariants
  import opened SignerApp
  import opened Wrappers

  /** What a request counts as: not decoded yet, turned down at decoding, being worked on, or answered with or
      without a signature. */
  datatype Kind = Undecoded | Refused | InFlight | Succeeded | Failed

  ghost function KindOf(d: Deployment, phase: Phase): Kind {
    match phase
    case Arrived(_) => Undecoded
    case Received(_, _) | Located(_, _, _) | Concluded(_, _, _, _) => InFlight
    case Answered(body, _, response) =>
      if DecodeRequest(d.curve, body).Failure? then Refused
      else if response.status == STATUS_OK then Succeeded
      else Failed
  }

  ghost function Requests(d: Deployment, s: State, kind: Kind): set<nat> {
    set id | id in s.handlers && KindOf(d, s.handlers[id]) == kind
  }

  /** The requests whose signature exists but is not counted yet. */
  ghost function SignedUncounted(s: State): set<nat> {
    set id | id in s.handlers && s.handlers[id].Concluded? && s.handlers[id].result.Success?
  }

  ghost predicate CountersOk(d: Deployment, s: State) {
    && s.succeeded == |Requests(d, s, Succeeded)|
    && s.failed == |Requests(d, s, Failed)|
    && s.received == |Requests(d, s, InFlight)| + |Requests(d, s, Succeeded)| + |Requests(d, s, Failed)|
    && |s.signings| == |Requests(d, s, Succeeded)| + |SignedUncounted(s)|
  }

  function Bit(b: bool): int {
    if b then 1 else 0
  }

  lemma SizeWithout(a: set<nat>, id: nat)
    ensures |a| == |a - {id}| + Bit(id in a)
  {
    if id in a {
      assert a == (a - {id}) + {id};
    } else {
      assert a - {id} == a;
    }
  }

  /** When one request moves to another phase, only its own kind changes. */
  lemma Moved(d: Deployment, s: State, id: nat, phase: Phase, kind: Kind)
    ensures |Requests(d, s.(handlers := s.handlers[id := phase]), kind)|
         == |Requests(d, s, kind)| - Bit(id in Requests(d, s, kind)) + Bit(KindOf(d, phase) == kind)
  {
    hide KindOf;
    var before, after := Requests(d, s, kind), Requests(d, s.(handlers := s.handlers[id := phase]), kind);
    assert after - {id} == before - {id};
    SizeWithout(before, id);
    SizeWithout(after, id);
  }

  lemma MovedUncounted(s: State, id: nat, phase: Phase)
    ensures |SignedUncounted(s.(handlers := s.handlers[id := phase]))|
         == |SignedUncounted(s)| - Bit(id in SignedUncounted(s)) + Bit(phase.Concluded? && phase.result.Success?)
  {
    var before, after := SignedUncounted(s), SignedUncounted(s.(handlers := s.handlers[id := phase]));
    assert after - {id} == before - {id};
    SizeWithout(before, id);
    SizeWithout(after, id);
  }

  /** The sets do not depend on anything but the handlers. */
  lemma SameHandlers(d: Deployment, s: State, s': State)
    requires s.handlers == s'.handlers
    ensures forall kind :: Requests(d, s, kind) == Requests(d, s', kind)
    ensures SignedUncounted(s) == SignedUncounted(s')
  {
    hide KindOf;
  }

  lemma OnlyTheChainMoved(d: Deployment, s: State, s': State)
    requires CountersOk(d, s) && s' == s.(chain := s'.chain)
    ensures CountersOk(d, s')
  {
    hide Requests, SignedUncounted;
    SameHandlers(d, s, s');
  }

  lemma AllMoved(d: Deployment, s: State, s': State, id: nat, phase: Phase)
    requires s'.handlers == s.handlers[id := phase]
    ensures forall kind :: |Requests(d, s', kind)| == |Requests(d, s, kind)| - Bit(id in Requests(d, s, kind)) + Bit(KindOf(d, phase) == kind)
    ensures |SignedUncounted(s')| == |SignedUncounted(s)| - Bit(id in SignedUncounted(s)) + Bit(phase.Concluded? && phase.result.Success?)
  {
    hide KindOf, Bit, Requests, SignedUncounted;
    SameHandlers(d, s', s.(handlers := s.handlers[id := phase]));
    MovedUncounted(s, id, phase);
    forall kind
      ensures |Requests(d, s', kind)| == |Requests(d, s, kind)| - Bit(id in Requests(d, s, kind)) + Bit(KindOf(d, phase) == kind)
    {
      Moved(d, s, id, phase, kind);
    }
  }

  /** Counting at the end matches the answer that is given. */
  lemma AnswerKind(result: Result<Signature, Error>)
    ensures Respond(Classify(result)).status == STATUS_OK <==> result.Success?
  {
    hide SerializeSignature;
  }

  lemma CountKeepsCounters(d: Deployment, s: State, id: nat)
    requires StateOk(d, s) && CountersOk(d, s) && Enabled(d, s, Count(id))
    ensures CountersOk(d, Apply(d, s, Count(id)))
  {
    hide DecodeRequest, Respond, Classify, SignUnbondingTransaction, UniqueTxids, SigningOk, Requests, SignedUncounted;
    var phase := s.handlers[id];
    assert PhaseOk(d, phase);
    AnswerKind(phase.result);
    Counted(d, s, Apply(d, s, Count(id)), id, phase);
  }

  lemma Counted(d: Deployment, s: State, s': State, id: nat, phase: Phase)
    requires CountersOk(d, s) && id in s.handlers && s.handlers[id] == phase && phase.Concluded?
    requires DecodeRequest(d.curve, phase.body).Success?
    requires Respond(Classify(phase.result)).status == STATUS_OK <==> phase.result.Success?
    requires s' == ApplyCount(s, id, phase)
    ensures CountersOk(d, s')
  {
    hide DecodeRequest, Respond, Classify;
    AllMoved(d, s, s', id, Answered(phase.body, phase.io, Respond(Classify(phase.result))));
  }

  lemma StepKeepsCounters(d: Deployment, s: State, action: Action)
    requires StateOk(d, s) && CountersOk(d, s) && Enabled(d, s, action)
    ensures CountersOk(d, Apply(d, s, action))
  {
    hide DecodeRequest, Respond, Classify, SignUnbondingTransaction, UniqueTxids, SigningOk, PhaseOk, Locate, Conclude,
      TruthfulDetails, TruthfulCount, UnbondingShape, Requests, SignedUncounted, CountersOk, StateOk;
    var s' := Apply(d, s, action);
    match action {
      case Mine(_) => OnlyTheChainMoved(d, s, s');
      case Disconnect => OnlyTheChainMoved(d, s, s');
      case Arrive(id, body) => MovedTo(d, s, s', id);
      case Decode(id) => MovedTo(d, s, s', id);
      case ReadTx(id, _) => MovedTo(d, s, s', id);
      case ReadTip(id, _, _) => MovedTo(d, s, s', id);
      case Count(id) => CountKeepsCounters(d, s, id);
    }
  }

  lemma MovedTo(d: Deployment, s: State, s': State, id: nat)
    requires id in s'.handlers && s'.handlers == s.handlers[id := s'.handlers[id]]
    requires CountersOk(d, s)
    requires id in s.handlers ==> s.handlers[id].Arrived? || s.handlers[id].Received? || s.handlers[id].Located?
    requires var was, now := if id in s.handlers then KindOf(d, s.handlers[id]) else Undecoded, KindOf(d, s'.handlers[id]);
             && now != Succeeded && now != Failed
             && s'.received == s.received + Bit(was != InFlight && now == InFlight) && (was == InFlight ==> now == InFlight)
             && s'.succeeded == s.succeeded && s'.failed == s.failed
             && |s'.signings| == |s.signings| + Bit(s'.handlers[id].Concluded? && s'.handlers[id].result.Success?)
    ensures CountersOk(d, s')
  {
    hide DecodeRequest;
    AllMoved(d, s, s', id, s'.handlers[id]);
  }

  /** Conservation: in every reachable state of any number of interleaved requests, those received are those answered
      with a signature, those answered without, and those in flight; and there are as many signatures as
      requests that obtained one. */
  lemma {:induction false} CountersBalance(d: Deployment, states: seq<State>, actions: seq<Action>)
    requires IsRun(d, states, actions)
    ensures forall i | 0 <= i < |states| :: CountersOk(d, states[i])
    ensures forall i | 0 <= i < |states| :: states[i].received == states[i].succeeded + states[i].failed + |Requests(d, states[i], InFlight)|
    decreases |actions|
  {
    hide StateOk, Enabled, Apply, Requests, SignedUncounted;
    if actions == [] {
      InitialCounters(d, states[0]);
    } else {
      var n := |actions| - 1;
      RunPrefix(d, states, actions);
      CountersBalance(d, states[..n + 1], actions[..n]);
      RunsKeepStateOk(d, states, actions);
      assert CountersOk(d, states[..n + 1][n]);
      StepKeepsCounters(d, states[n], actions[n]);
      forall i | 0 <= i < |states| ensures CountersOk(d, states[i]) {
        if i <= n {
          assert CountersOk(d, states[..n + 1][i]);
        }
      }
    }
  }

  lemma InitialCounters(d: Deployment, s: State)
    requires Init(d, s)
    ensures CountersOk(d, s)
  {
    assert forall kind :: Requests(d, s, kind) == {};
    assert SignedUncounted(s) == {};
  }

  /** A request that does not decode moves no counter. */
  lemma RefusedIsUncounted(d: Deployment, s: State, id: nat)
    requires Enabled(d, s, Decode(id)) && DecodeRequest(d.curve, s.handlers[id].body).Failure?
    ensures var s' := Apply(d, s, Decode(id));
            && s'.received == s.received && s'.succeeded == s.succeeded && s'.failed == s.failed
            && KindOf(d, s'.handlers[id]) == Refused
  {
    hide DecodeRequest, Respond;
  }
}
