/** The client of the service, and that client and server undo each other. */
module Client {
  import opened Bitcoin
  import opened Handlers
  import opened Hex
  import opened HttpResponse
  import opened Keys
  import opened ServiceErrors
  import opened SignerApp
  import opened TxCodec
  import opened Wire
  import opened Wrappers

  function EncodeRequest(req: Request): SignUnbondingTxRequest {
    SignUnbondingTxRequest(
      EncodeToString(req.pkScript),
      SerializeBTCTxToHex(req.tx),
      EncodeToString(SerializeSignature(req.stakerSig)),
      EncodeToString(SerializeCompressed(req.covenantKey)))
  }

  /** The client's reading of a response. */
  function DecodeResponse(resp: Response): Option<Signature> {
    if resp.status != STATUS_OK then None
    else
      match resp.body
      case DataBody(signatureHex) => SchnorrSignatureFromHex(signatureHex)
      case _ => None
  }

  /** The client takes a signature from a response with status 200 and from no other, and only from its exact text. */
  lemma AcceptsExactly(resp: Response, sig: Signature)
    ensures DecodeResponse(resp) == Some(sig)
       <==> resp.status == 200 && resp.body.DataBody? && EncodeToString(SerializeSignature(sig)) == LowerCase(resp.body.signatureHex)
  {
    hide EncodeToString, LowerCase, DecodeString, ParseSignature, SerializeSignature;
    if resp.body.DataBody? {
      SignatureTexts(resp.body.signatureHex, sig);
    }
  }

  /** The server decodes what the client encoded, exactly for transactions with an input and keys on the curve. */
  lemma RequestRoundTrip(curve: Curve, req: Request)
    requires Sized(req.tx)
    ensures DecodeRequest(curve, Some(EncodeRequest(req))) == Success(req)
       <==> req.tx.txIn != [] && curve.hasPoint(req.covenantKey.x)
  {
    EncodeThenDecode(req.pkScript);
    EncodeThenDecode(SerializeSignature(req.stakerSig));
    EncodeThenDecode(SerializeCompressed(req.covenantKey));
    SignatureRoundTrip(req.stakerSig);
    PubKeyRoundTrip(curve, req.covenantKey);
    TxHexRoundTrip(req.tx);
    hide EncodeToString, DecodeString, SerializeBTCTxToHex, ParseSignature, ParsePubKey;
    OtherTx(req.tx);
  }

  /** The text of a transaction, read back, either gives the transaction with its own bytes or another one. */
  lemma OtherTx(tx: MsgTx)
    ensures var r := NewBTCTxFromHex(SerializeBTCTxToHex(tx)); r.Some? ==> r.value.1 == Serialize(tx)
  {
    EncodeThenDecode(Serialize(tx));
  }

  /** Through the whole service and back, the client obtains a signature exactly when the decision is to sign, and then
      the one the signer gave. */
  lemma ClientGetsTheSignature(curve: Curve, app: SignerApp, req: Request, io: Answers)
    requires Sized(req.tx) && req.tx.txIn != [] && curve.hasPoint(req.covenantKey.x)
    ensures var signed := SignUnbondingTransaction(app, req, io).result;
            DecodeResponse(Respond(Handle(curve, app, Some(EncodeRequest(req)), io)))
            == (if signed.Success? then Some(signed.value) else None)
  {
    RequestRoundTrip(curve, req);
    var signed := SignUnbondingTransaction(app, req, io).result;
    hide SignUnbondingTransaction, DecodeRequest, EncodeRequest, EncodeToString, SchnorrSignatureFromHex;
    if signed.Success? {
      SignatureHexRoundTrip(signed.value);
    }
  }
}
