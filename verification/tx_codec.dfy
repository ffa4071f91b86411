/** Transactions as the service passes them around: bytes and hexadecimal text. */
module TxCodec {
  import opened Bitcoin
  import opened Hex
  import opened Integers
  import opened Keys
  import opened Parsing
  import opened Wire
  import opened Wrappers

  /** A reader over bytes, and a buffer that bytes are appended to. */
  class Reader {
    var unread: bytes

    constructor (b: bytes)
      ensures unread == b
    {
      unread := b;
    }

    /** Reads one transaction off the front. */
    method ReadTx() returns (r: Option<MsgTx>)
      modifies this
      ensures Deserialize(old(unread)).Malformed? ==> r == None && unread == old(unread)
      ensures Deserialize(old(unread)).Parsed? ==>
                r == Some(Deserialize(old(unread)).value) && unread == Deserialize(old(unread)).rest
    {
      match Deserialize(unread) {
        case Malformed =>
          r := None;
        case Parsed(tx, rest) =>
          unread := rest;
          r := Some(tx);
      }
    }
  }

  class Buffer {
    var written: bytes

    constructor ()
      ensures written == []
    {
      written := [];
    }

    method Write(b: bytes)
      modifies this
      ensures written == old(written) + b
    {
      written := written + b;
    }
  }

  function TxFromBytes(b: bytes): Option<MsgTx> {
    match Deserialize(b)
    case Malformed => None
    case Parsed(tx, _) => Some(tx)
  }

  /** Whatever begins with an encoded transaction is read as that transaction, and the bytes after it are ignored. Whatever is
      read began with one of the two forms of the result. */
  method NewBTCTxFromBytes(txBytes: bytes) returns (r: Option<MsgTx>)
    ensures r == TxFromBytes(txBytes)
    ensures forall tx | Sized(tx) && tx.txIn != [] && Serialize(tx) <= txBytes :: r == Some(tx)
    ensures r.Some? ==>
              exists rest ::
                || txBytes == SerializeBefore(rest, r.value, true)
                || (txBytes == SerializeBefore(rest, r.value, false) && r.value.txIn != [] && !HasWitness(r.value))
  {
    hide Deserialize, Serialize, SerializeBefore, HasWitness, Sized;
    var rbuf := new Reader(txBytes);
    r := rbuf.ReadTx();
    forall tx | Sized(tx) && tx.txIn != [] && Serialize(tx) <= txBytes
      ensures r == Some(tx)
    {
      assert txBytes == Serialize(tx) + txBytes[|Serialize(tx)|..];
      DeserializeOfSerialize(tx, txBytes[|Serialize(tx)|..]);
    }
    if r.Some? {
      DeserializeOnly(txBytes);
    }
  }

  /** What is written is read back, whatever follows it, from every transaction with an input. */
  method SerializeBTCTx(tx: MsgTx) returns (b: bytes)
    ensures b == Serialize(tx)
    ensures Sized(tx) && tx.txIn != [] ==> forall rest :: Deserialize(b + rest) == Parsed(tx, rest)
  {
    hide Deserialize, Serialize, Sized;
    var txBuf := new Buffer();
    txBuf.Write(Serialize(tx));
    b := txBuf.written;
    assert b == Serialize(tx);
    if Sized(tx) && tx.txIn != [] {
      forall rest ensures Deserialize(b + rest) == Parsed(tx, rest) {
        DeserializeOfSerialize(tx, rest);
      }
    }
  }

  function NewBTCTxFromHex(txHex: string): Option<(MsgTx, bytes)> {
    match DecodeString(txHex)
    case None => None
    case Some(txBytes) =>
      match TxFromBytes(txBytes)
      case None => None
      case Some(tx) => Some((tx, txBytes))
  }

  function SerializeBTCTxToHex(tx: MsgTx): string {
    EncodeToString(Serialize(tx))
  }

  function SchnorrSignatureFromHex(hexStr: string): Option<Signature> {
    match DecodeString(hexStr)
    case None => None
    case Some(b) => ParseSignature(b)
  }

  /** Text and back, exactly for the transactions that have an input. */
  lemma TxHexRoundTrip(tx: MsgTx)
    requires Sized(tx)
    ensures NewBTCTxFromHex(SerializeBTCTxToHex(tx)) == Some((tx, Serialize(tx))) <==> tx.txIn != []
  {
    EncodeThenDecode(Serialize(tx));
    RoundTripExactly(tx, []);
    if tx.txIn == [] {
      var parsed := Deserialize(Serialize(tx));
      assert Serialize(tx) + [] == Serialize(tx);
      if parsed.Parsed? && parsed.value == tx {
        NothingIsLeft(tx, parsed.rest);
      }
    } else {
      assert Serialize(tx) + [] == Serialize(tx);
    }
  }

  /** A transaction read back from its own bytes uses them up. */
  lemma NothingIsLeft(tx: MsgTx, rest: bytes)
    requires Deserialize(Serialize(tx)) == Parsed(tx, rest)
    ensures rest == []
  {
    DeserializeOnly(Serialize(tx));
    SerializeAppend(rest, tx, true);
    SerializeAppend(rest, tx, false);
    if HasWitness(tx) {
    } else {
      UnflaggedIsShorter(tx);
    }
  }

  lemma UnflaggedIsShorter(tx: MsgTx)
    ensures |SerializeBefore([], tx, false)| < |SerializeBefore([], tx, true)|
  {
  }

  lemma SignatureHexRoundTrip(sig: Signature)
    ensures SchnorrSignatureFromHex(EncodeToString(SerializeSignature(sig))) == Some(sig)
  {
    EncodeThenDecode(SerializeSignature(sig));
    SignatureRoundTrip(sig);
  }
}
