/** From a handler's outcome to the one response that is written. */
module HttpResponse {
  import opened Handlers
  import opened Hex
  import opened Keys
  import opened ServiceErrors
  import opened SignerApp
  import opened SignerGate
  import opened SigningTheorems
  import opened Wrappers

  datatype Body =
    | ErrorBody(errorCode: string, message: string)
    | DataBody(signatureHex: string)
    | TextBody(text: string)

  datatype Response = Response(status: int, body: Body)

  const HIDDEN_MESSAGE: string := "Internal service error"

  const APOLOGY: string := "Failed to process the request. Please try again later."

  /** Whether `http.StatusText` has a text for the code. */
  predicate HasStatusText(code: int) {
    || 100 <= code <= 103
    || 200 <= code <= 208 || code == 226
    || (300 <= code <= 308 && code != 306)
    || (400 <= code <= 418) || (421 <= code <= 426) || code == 428 || code == 429 || code == 431 || code == 451
    || (500 <= code <= 508) || code == 510 || code == 511
  }

  class ResponseWriter {
    var sent: seq<Response>

    constructor ()
      ensures sent == []
    {
      sent := [];
    }

    /** The status and the body are those given; a body that cannot be marshalled is replaced by a plain 500. */
    method WriteResponse(marshals: Body -> bool, statusCode: int, body: Body)
      modifies this
      ensures marshals(body) ==> sent == old(sent) + [Response(statusCode, body)]
      ensures !marshals(body) ==> sent == old(sent) + [Response(500, TextBody(APOLOGY))]
    {
      if !marshals(body) {
        sent := sent + [Response(STATUS_INTERNAL_SERVER_ERROR, TextBody(APOLOGY))];
        return;
      }
      sent := sent + [Response(statusCode, body)];
    }
  }

  function NewInternalServiceError(): Body {
    ErrorBody(INTERNAL_SERVICE_ERROR, HIDDEN_MESSAGE)
  }

  /** The response for an outcome, before marshalling. */
  function Respond(outcome: Result<HandlerResult, ServiceError>): Response {
    match outcome
    case Failure(e) =>
      var status := if HasStatusText(e.statusCode) then e.statusCode else STATUS_INTERNAL_SERVER_ERROR;
      Response(status, ErrorBody(e.errorCode, if status >= STATUS_INTERNAL_SERVER_ERROR then HIDDEN_MESSAGE else e.err.message))
    case Success(result) =>
      if HasStatusText(result.status) then Response(result.status, DataBody(result.signatureHex))
      else Response(STATUS_INTERNAL_SERVER_ERROR, NewInternalServiceError())
  }

  /** The one right response to a body: 400 with the reason when it is refused; 200 with the signature when every validation
      holds; and otherwise, by the first that does not, 400 with the reason when it concerns the request's content and 500
      with a fixed message when it does not, as far as failures of collaborators do not pose as invalid requests. */
  ghost predicate IsRightResponse(h: Handler, body: Option<SignUnbondingTxRequest>, io: Answers, resp: Response) {
    var decoded := DecodeRequest(h.curve, body);
    if decoded.Failure? then resp == Response(400, ErrorBody("BAD_REQUEST", decoded.error.err.message))
    else
      var v, signed := Look(h.s, decoded.value, io), SignUnbondingTransaction(h.s, decoded.value, io).result;
      && (HoldUpTo(STEPS, v) ==>
            signed.Success? && resp == Response(200, DataBody(EncodeToString(SerializeSignature(signed.value)))))
      && (!HoldUpTo(STEPS, v) ==> signed.Failure? && (resp.status == 400 || resp.status == 500))
      && (forall n: nat | StopsAt(n, v) && PlainErrors(v) ::
            signed.Failure?
            && resp == (if Blamed(StepAt(n)) == Content then Response(400, ErrorBody("BAD_REQUEST", signed.error.message))
                        else Response(500, ErrorBody("INTERNAL_SERVICE_ERROR", "Internal service error"))))
  }

  lemma RespondsRightly(h: Handler, body: Option<SignUnbondingTxRequest>, io: Answers)
    ensures IsRightResponse(h, body, io, Respond(Handle(h.curve, h.s, body, io)))
  {
    hide SignUnbondingTransaction, Look, HoldUpTo, Holds, PlainErrors, Blamed, StepAt, EncodeToString, DecodeRequest;
    var decoded := DecodeRequest(h.curve, body);
    ResponseClass(h.curve, h.s, body, io);
    if decoded.Success? {
      SignsExactly(h.s, decoded.value, io);
      forall n: nat | StopsAt(n, Look(h.s, decoded.value, io)) && PlainErrors(Look(h.s, decoded.value, io))
        ensures SignUnbondingTransaction(h.s, decoded.value, io).result.Failure?
        ensures SignUnbondingTransaction(h.s, decoded.value, io).result.error.invalidRequest <==> Blamed(StepAt(n)) == Content
      {
        FirstFaultDecides(n, h.s, decoded.value, io);
      }
    }
  }

  /** The route: exactly one response is written, whatever happens, and when its body can be marshalled it is the right one. */
  method ServeSignUnbonding(
      h: Handler, w: ResponseWriter, marshals: Body -> bool, body: Option<SignUnbondingTxRequest>, io: Answers)
    modifies h.m, w
    ensures |w.sent| == |old(w.sent)| + 1 && w.sent[..|old(w.sent)|] == old(w.sent)
    ensures var resp := Respond(Handle(h.curve, h.s, body, io));
            w.sent[|old(w.sent)|] == if marshals(resp.body) then resp else Response(500, TextBody(APOLOGY))
    ensures var sent := w.sent[|old(w.sent)|];
            IsRightResponse(h, body, io, sent) || sent == Response(500, TextBody(APOLOGY))
    ensures (forall b :: marshals(b)) ==> IsRightResponse(h, body, io, w.sent[|old(w.sent)|])
  {
    RespondsRightly(h, body, io);
    hide IsRightResponse, Handle;
    var outcome := h.SignUnbonding(body, io);
    if outcome.Failure? {
      var err := outcome.error;
      if !HasStatusText(err.statusCode) {
        err := err.(statusCode := STATUS_INTERNAL_SERVER_ERROR);
      }
      var errorResponse := ErrorBody(err.errorCode, err.err.message);
      if err.statusCode >= STATUS_INTERNAL_SERVER_ERROR {
        errorResponse := errorResponse.(message := HIDDEN_MESSAGE);
      }
      w.WriteResponse(marshals, err.statusCode, errorResponse);
      return;
    }
    if !HasStatusText(outcome.value.status) {
      w.WriteResponse(marshals, STATUS_INTERNAL_SERVER_ERROR, NewInternalServiceError());
      return;
    }
    w.WriteResponse(marshals, outcome.value.status, DataBody(outcome.value.signatureHex));
  }

  /** A response of the 5xx class carries the fixed message exactly when it comes from an error or from a result with an
      unknown status; the one way around it is a result that a handler itself gives such a status. */
  lemma ServerErrorsAreHidden(outcome: Result<HandlerResult, ServiceError>)
    requires Respond(outcome).status >= STATUS_INTERNAL_SERVER_ERROR
    ensures Respond(outcome).body.ErrorBody? && Respond(outcome).body.message == HIDDEN_MESSAGE
       <==> outcome.Failure? || !HasStatusText(outcome.value.status)
    ensures outcome.Success? && HasStatusText(outcome.value.status) ==> Respond(outcome).body == DataBody(outcome.value.signatureHex)
  {
  }

  /** This handler gives its results no status but 200, so none of its 5xx responses shows anything else. */
  lemma HandledServerErrorsAreHidden(curve: Curve, app: SignerApp, body: Option<SignUnbondingTxRequest>, io: Answers)
    requires Respond(Handle(curve, app, body, io)).status >= STATUS_INTERNAL_SERVER_ERROR
    ensures Respond(Handle(curve, app, body, io)).body == NewInternalServiceError()
  {
    hide SignUnbondingTransaction, EncodeToString;
    ServerErrorsAreHidden(Handle(curve, app, body, io));
    if DecodeRequest(curve, body).Failure? {
      RefusalsAreBadRequests(curve, body);
    }
  }

  lemma RefusalsAreBadRequests(curve: Curve, body: Option<SignUnbondingTxRequest>)
    requires DecodeRequest(curve, body).Failure?
    ensures DecodeRequest(curve, body).error.statusCode == STATUS_BAD_REQUEST
  {
  }

  /** The response class of a request follows from where it stops: at decoding, at the first validation that fails, or
      not at all. The three statuses below are the only ones. */
  lemma ResponseClass(curve: Curve, app: SignerApp, body: Option<SignUnbondingTxRequest>, io: Answers)
    ensures var resp, decoded := Respond(Handle(curve, app, body, io)), DecodeRequest(curve, body);
            && (decoded.Failure? ==> resp.status == STATUS_BAD_REQUEST && resp.body == ErrorBody(BAD_REQUEST, decoded.error.err.message))
            && (decoded.Success? ==>
                  var v, signed := Look(app, decoded.value, io), SignUnbondingTransaction(app, decoded.value, io).result;
                  && (resp.status == STATUS_OK <==> HoldUpTo(STEPS, v))
                  && (resp.status == STATUS_OK ==> signed.Success? && resp.body == DataBody(EncodeToString(SerializeSignature(signed.value))))
                  && (forall n: nat | StopsAt(n, v) && PlainErrors(v) ::
                        resp.status == (if Blamed(StepAt(n)) == Content then STATUS_BAD_REQUEST else STATUS_INTERNAL_SERVER_ERROR))
                  && (signed.Failure? ==>
                        resp == (if signed.error.invalidRequest then Response(STATUS_BAD_REQUEST, ErrorBody(BAD_REQUEST, signed.error.message))
                                 else Response(STATUS_INTERNAL_SERVER_ERROR, NewInternalServiceError()))))
  {
    hide SignUnbondingTransaction, Look, HoldUpTo, Holds, PlainErrors, Blamed, StepAt, EncodeToString;
    var decoded := DecodeRequest(curve, body);
    if decoded.Success? {
      SignsExactly(app, decoded.value, io);
      forall n: nat | StopsAt(n, Look(app, decoded.value, io)) && PlainErrors(Look(app, decoded.value, io))
        ensures SignUnbondingTransaction(app, decoded.value, io).result.Failure?
        ensures SignUnbondingTransaction(app, decoded.value, io).result.error.invalidRequest <==> Blamed(StepAt(n)) == Content
      {
        FirstFaultDecides(n, app, decoded.value, io);
      }
    }
  }
}
