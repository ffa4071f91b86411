/** What a taproot script-path signature commits to ("Common signature message" of BIP 341, with the
    extension of BIP 342). The hashes in it are taken to be injective, so the message is kept as a record. */
module SignatureMessage {
  import opened Bitcoin
  import opened Integers
  import opened Parsing

  datatype TapLeaf = TapLeaf(leafVersion: byte, script: bytes)

  const BASE_LEAF_VERSION: byte := 0xc0
  const SIGHASH_DEFAULT: byte := 0x00

  function NewBaseTapLeaf(script: bytes): TapLeaf {
    TapLeaf(BASE_LEAF_VERSION, script)
  }

  datatype Message = Message(
    hashType: byte,
    version: int32,
    lockTime: uint32,
    prevouts: seq<OutPoint>,
    amounts: seq<int64>,
    pkScripts: seq<bytes>,
    sequences: seq<uint32>,
    outputs: seq<TxOut>,
    spendType: byte,
    inputIndex: nat,
    leaf: TapLeaf)

  /** The message for input `inputIndex` of `tx`, which spends `spent` through `leaf`, with no annex. */
  function ScriptSpendMessage(tx: MsgTx, spent: seq<TxOut>, inputIndex: nat, leaf: TapLeaf): Message {
    Message(
      SIGHASH_DEFAULT,
      tx.version,
      tx.lockTime,
      Map((i: TxIn) => i.previousOutPoint, tx.txIn),
      Map((o: TxOut) => o.value, spent),
      Map((o: TxOut) => o.pkScript, spent),
      Map((i: TxIn) => i.sequence, tx.txIn),
      tx.txOut,
      0x02,
      inputIndex,
      leaf)
  }
  /** Everything the message commits to, for any number of inputs, in the order of the inputs. */
  lemma MessageInFull(tx: MsgTx, spent: seq<TxOut>, inputIndex: nat, leaf: TapLeaf)
    ensures var m := ScriptSpendMessage(tx, spent, inputIndex, leaf);
            && m.hashType == 0x00 && m.spendType == 0x02 && m.inputIndex == inputIndex && m.leaf == leaf
            && m.version == tx.version && m.lockTime == tx.lockTime && m.outputs == tx.txOut
            && |m.prevouts| == |m.sequences| == |tx.txIn| && |m.amounts| == |m.pkScripts| == |spent|
            && (forall i | 0 <= i < |tx.txIn| :: m.prevouts[i] == tx.txIn[i].previousOutPoint && m.sequences[i] == tx.txIn[i].sequence)
            && (forall i | 0 <= i < |spent| :: m.amounts[i] == spent[i].value && m.pkScripts[i] == spent[i].pkScript)
  {
  }
}
