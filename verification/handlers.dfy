/** The signing endpoint: decode, count, decide, classify. */
module Handlers {
  import opened Bitcoin
  import opened Errors
  import opened Hex
  import opened Keys
  import opened Metrics
  import opened ServiceErrors
  import opened SignerApp
  import opened TxCodec
  import opened Wire
  import opened WireLayout
  import opened Wrappers

  datatype SignUnbondingTxRequest = SignUnbondingTxRequest(
    stakingOutputPkScriptHex: string, unbondingTxHex: string, stakerUnbondingSigHex: string, covenantPublicKey: string)

  datatype HandlerResult = HandlerResult(signatureHex: string, status: int)

  function ParseSchnorrSigFromHex(hexStr: string): Option<Signature> {
    match DecodeString(hexStr)
    case None => None
    case Some(b) => ParseSignature(b)
  }

  function Malformed<T>(msg: string): Result<T, ServiceError> {
    Failure(NewErrorWithMsg(STATUS_BAD_REQUEST, BAD_REQUEST, msg))
  }

  /** The arguments in a request body; a body that is no JSON object of the right type is `None`. */
  function DecodeRequest(curve: Curve, body: Option<SignUnbondingTxRequest>): Result<Request, ServiceError> {
    match body
    case None => Malformed("invalid request payload")
    case Some(payload) =>
      match DecodeString(payload.stakingOutputPkScriptHex)
      case None => Malformed("invalid staking output pk script")
      case Some(pkScript) =>
        match DecodeString(payload.covenantPublicKey)
        case None => Malformed("invalid covenant public key")
        case Some(keyBytes) =>
          match ParsePubKey(curve, keyBytes)
          case None => Malformed("invalid covenant public key")
          case Some(key) =>
            match NewBTCTxFromHex(payload.unbondingTxHex)
            case None => Malformed("invalid unbonding transaction")
            case Some((tx, _)) =>
              match ParseSchnorrSigFromHex(payload.stakerUnbondingSigHex)
              case None => Malformed("invalid staker unbonding signature")
              case Some(sig) => Success(Request(pkScript, tx, sig, key))
  }

  // ---------- Which bodies are requests ----------

  ghost predicate IsKeyText(curve: Curve, s: string, key: PubKey) {
    exists b :: EncodeToString(b) == LowerCase(s) && ParsePubKey(curve, b) == Some(key)
  }

  ghost predicate IsTxText(s: string, tx: MsgTx) {
    exists b, flagged, rest :: EncodeToString(b) == LowerCase(s) && IsForm(tx, flagged, rest, b)
  }

  ghost predicate IsSignatureText(s: string, sig: Signature) {
    EncodeToString(SerializeSignature(sig)) == LowerCase(s)
  }

  /** What a body says, field by field, up to letter case: the script and the signature are their own encodings, the key is in
      one of its forms, and the transaction in one of its forms with any bytes after it. */
  ghost predicate Says(curve: Curve, payload: SignUnbondingTxRequest, req: Request) {
    && EncodeToString(req.pkScript) == LowerCase(payload.stakingOutputPkScriptHex)
    && IsKeyText(curve, payload.covenantPublicKey, req.covenantKey)
    && IsTxText(payload.unbondingTxHex, req.tx)
    && IsSignatureText(payload.stakerUnbondingSigHex, req.stakerSig)
  }

  lemma KeyTexts(curve: Curve, s: string, key: PubKey)
    ensures IsKeyText(curve, s, key) <==> DecodeString(s).Some? && ParsePubKey(curve, DecodeString(s).value) == Some(key)
  {
    hide ParsePubKey, DecodeString, EncodeToString, LowerCase;
    forall b ensures DecodeString(s) == Some(b) <==> EncodeToString(b) == LowerCase(s) {
      Hex.DecodesExactly(s, b);
    }
  }

  lemma TxTexts(s: string, tx: MsgTx)
    ensures IsTxText(s, tx) <==> NewBTCTxFromHex(s).Some? && NewBTCTxFromHex(s).value.0 == tx
  {
    hide Deserialize, DecodeString, EncodeToString, LowerCase, IsForm;
    if NewBTCTxFromHex(s).Some? && NewBTCTxFromHex(s).value.0 == tx {
      var b := DecodeString(s).value;
      Hex.DecodesExactly(s, b);
      WireLayout.DecodesExactly(b, tx, Deserialize(b).rest);
      var flagged :| IsForm(tx, flagged, Deserialize(b).rest, b);
    }
    if b, flagged, rest :| EncodeToString(b) == LowerCase(s) && IsForm(tx, flagged, rest, b) {
      Hex.DecodesExactly(s, b);
      WireLayout.DecodesExactly(b, tx, rest);
    }
  }

  lemma SignatureTexts(s: string, sig: Signature)
    ensures IsSignatureText(s, sig) <==> ParseSchnorrSigFromHex(s) == Some(sig)
    ensures IsSignatureText(s, sig) ==> |s| == 128
  {
    hide ParseSignature, SerializeSignature, DecodeString, EncodeToString;
    Hex.DecodesExactly(s, SerializeSignature(sig));
    if DecodeString(s).Some? {
      ParsesSignatureExactly(DecodeString(s).value, sig);
      Hex.DecodesExactly(s, DecodeString(s).value);
    }
  }

  /** A body decodes to a request exactly when it says so. */
  lemma DecodesExactly(curve: Curve, payload: SignUnbondingTxRequest, req: Request)
    ensures DecodeRequest(curve, Some(payload)) == Success(req) <==> Says(curve, payload, req)
  {
    hide ParsePubKey, DecodeString, EncodeToString, LowerCase, NewBTCTxFromHex, ParseSchnorrSigFromHex, IsKeyText, IsTxText, IsSignatureText;
    Hex.DecodesExactly(payload.stakingOutputPkScriptHex, req.pkScript);
    KeyTexts(curve, payload.covenantPublicKey, req.covenantKey);
    TxTexts(payload.unbondingTxHex, req.tx);
    SignatureTexts(payload.stakerUnbondingSigHex, req.stakerSig);
  }

  /** The answer to a body that is refused, by the first of its fields that is at fault. */
  ghost predicate IsRefusal(e: ServiceError, msg: string) {
    e == ServiceError(Error(msg, false), 400, "BAD_REQUEST")
  }

  /** Exactly which bodies are refused, and with which answer: no JSON, then script, key, transaction and signature. */
  lemma RefusesExactly(curve: Curve, payload: SignUnbondingTxRequest)
    ensures DecodeRequest(curve, None).Failure? && IsRefusal(DecodeRequest(curve, None).error, "invalid request payload")
    ensures var script, r := payload.stakingOutputPkScriptHex, DecodeRequest(curve, Some(payload));
            if !IsHex(script) then r.Failure? && IsRefusal(r.error, "invalid staking output pk script")
            else if !exists key :: IsKeyText(curve, payload.covenantPublicKey, key) then
              r.Failure? && IsRefusal(r.error, "invalid covenant public key")
            else if !exists tx :: IsTxText(payload.unbondingTxHex, tx) then
              r.Failure? && IsRefusal(r.error, "invalid unbonding transaction")
            else if !exists sig :: IsSignatureText(payload.stakerUnbondingSigHex, sig) then
              r.Failure? && IsRefusal(r.error, "invalid staker unbonding signature")
            else r.Success?
  {
    hide ParsePubKey, DecodeString, EncodeToString, LowerCase, NewBTCTxFromHex, ParseSchnorrSigFromHex, IsHex, IsKeyText, IsTxText, IsSignatureText;
    DecodeThenEncode(payload.stakingOutputPkScriptHex);
    forall key ensures IsKeyText(curve, payload.covenantPublicKey, key)
        <==> DecodeString(payload.covenantPublicKey).Some? && ParsePubKey(curve, DecodeString(payload.covenantPublicKey).value) == Some(key) {
      KeyTexts(curve, payload.covenantPublicKey, key);
    }
    forall tx ensures IsTxText(payload.unbondingTxHex, tx)
        <==> NewBTCTxFromHex(payload.unbondingTxHex).Some? && NewBTCTxFromHex(payload.unbondingTxHex).value.0 == tx {
      TxTexts(payload.unbondingTxHex, tx);
    }
    assert NewBTCTxFromHex(payload.unbondingTxHex).Some? ==>
             IsTxText(payload.unbondingTxHex, NewBTCTxFromHex(payload.unbondingTxHex).value.0);
    forall sig ensures IsSignatureText(payload.stakerUnbondingSigHex, sig) <==> ParseSchnorrSigFromHex(payload.stakerUnbondingSigHex) == Some(sig) {
      SignatureTexts(payload.stakerUnbondingSigHex, sig);
    }
  }

  /** The answer to a decoded request, from the outcome of the signing decision. */
  function Classify(signed: Result<Signature, Error>): Result<HandlerResult, ServiceError> {
    match signed
    case Success(sig) => Success(HandlerResult(EncodeToString(SerializeSignature(sig)), STATUS_OK))
    case Failure(e) =>
      if e.invalidRequest then Failure(NewErrorWithMsg(STATUS_BAD_REQUEST, BAD_REQUEST, e.message))
      else Failure(NewErrorWithMsg(STATUS_INTERNAL_SERVER_ERROR, INTERNAL_SERVICE_ERROR, e.message))
  }

  function Handle(curve: Curve, app: SignerApp, body: Option<SignUnbondingTxRequest>, io: Answers): Result<HandlerResult, ServiceError> {
    var req :- DecodeRequest(curve, body);
    Classify(SignUnbondingTransaction(app, req, io).result)
  }

  class Handler {
    const s: SignerApp
    const m: CovenantSignerMetrics
    const curve: Curve

    constructor (s: SignerApp, m: CovenantSignerMetrics, curve: Curve)
      ensures this.s == s && this.m == m && this.curve == curve
    {
      this.s, this.m, this.curve := s, m, curve;
    }

    /** A request that does not decode is not counted; any other is counted as received and as one of succeeded
        and failed, according to whether a signature is returned. */
    method SignUnbonding(body: Option<SignUnbondingTxRequest>, io: Answers) returns (r: Result<HandlerResult, ServiceError>)
      modifies m
      ensures r == Handle(curve, s, body, io)
      ensures var counted := DecodeRequest(curve, body).Success?;
              && m.receivedSigningRequests == old(m.receivedSigningRequests) + (if counted then 1 else 0)
              && m.successfulSigningRequests == old(m.successfulSigningRequests) + (if r.Success? then 1 else 0)
              && m.failedSigningRequests == old(m.failedSigningRequests) + (if counted && r.Failure? then 1 else 0)
    {
      var decoded := DecodeRequest(curve, body);
      if decoded.Failure? {
        return Failure(decoded.error);
      }
      m.IncReceivedSigningRequests();
      var signed := SignUnbondingTransaction(s, decoded.value, io).result;
      if signed.Failure? {
        m.IncFailedSigningRequests();
        return Classify(signed);
      }
      var resp := EncodeToString(SerializeSignature(signed.value));
      m.IncSuccessfulSigningRequests();
      return Success(HandlerResult(resp, STATUS_OK));
    }
  }
}
