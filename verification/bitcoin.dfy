/** Bitcoin transactions, with the field widths of the Go types that carry them. */
module Bitcoin {
  import opened Integers

  type Hash = b: bytes | |b| == 32 witness seq(32, _ => 0)

  datatype OutPoint = OutPoint(hash: Hash, index: uint32)

  datatype TxIn = TxIn(previousOutPoint: OutPoint, signatureScript: bytes, witnessStack: seq<bytes>, sequence: uint32)

  datatype TxOut = TxOut(value: int64, pkScript: bytes)

  datatype MsgTx = MsgTx(version: int32, txIn: seq<TxIn>, txOut: seq<TxOut>, lockTime: uint32)

  /** The sequence number of an input that is final: neither time-locked nor replaceable. */
  const MAX_TX_IN_SEQUENCE_NUM: uint32 := MAX_UINT32

  /** An unsigned, final input spending `outPoint`. */
  function NewTxIn(outPoint: OutPoint): TxIn {
    TxIn(outPoint, [], [], MAX_TX_IN_SEQUENCE_NUM)
  }

  predicate HasWitness(tx: MsgTx) {
    exists i | 0 <= i < |tx.txIn| :: tx.txIn[i].witnessStack != []
  }
}
