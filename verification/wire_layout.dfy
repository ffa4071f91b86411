/** Where every byte of a transaction stands, and which byte strings are transactions at all. */
module WireLayout {
  import opened Bitcoin
  import opened FixedWidth
  import opened Integers
  import opened Parsing
  import opened Wire

  // ---------- Bytes ----------

  function Bytes2(v: nat): bytes {
    [v % 0x100, v / 0x100 % 0x100]
  }

  function Bytes4(v: nat): bytes {
    Bytes2(v) + Bytes2(v / 0x1_0000)
  }

  function Bytes8(v: nat): bytes {
    Bytes4(v) + Bytes4(v / 0x1_0000_0000)
  }

  lemma Unroll(v: nat, n: nat)
    requires n >= 2
    ensures LittleEndian(v, n) == Bytes2(v) + LittleEndian(v / 0x1_0000, n - 2)
  {
    assert LittleEndian(v, n) == [v % 0x100] + LittleEndian(v / 0x100, n - 1);
    assert LittleEndian(v / 0x100, n - 1) == [v / 0x100 % 0x100] + LittleEndian(v / 0x100 / 0x100, n - 2);
    assert v / 0x100 / 0x100 == v / 0x1_0000;
  }

  lemma UnrollTwice(v: nat, n: nat)
    requires n >= 4
    ensures LittleEndian(v, n) == Bytes4(v) + LittleEndian(v / 0x1_0000_0000, n - 4)
  {
    Unroll(v, n);
    Unroll(v / 0x1_0000, n - 2);
    assert v / 0x1_0000 / 0x1_0000 == v / 0x1_0000_0000;
    hide LittleEndian, Bytes2;
  }

  /** The least significant byte comes first. */
  lemma LittleEndianBytes(v: nat)
    ensures LittleEndian(v, 2) == Bytes2(v)
    ensures LittleEndian(v, 4) == Bytes4(v)
    ensures LittleEndian(v, 8) == Bytes8(v)
  {
    Unroll(v, 2);
    UnrollTwice(v, 4);
    UnrollTwice(v, 8);
    UnrollTwice(v / 0x1_0000_0000, 4);
    hide LittleEndian, Bytes2, Bytes4;
  }

  /** The most significant byte comes first: the same bytes the other way round. */
  lemma {:induction false} BigEndianIsReversed(v: nat, n: nat, k: nat)
    requires k < n
    ensures BigEndian(v, n)[k] == LittleEndian(v, n)[n - 1 - k]
  {
    if k < n - 1 {
      BigEndianIsReversed(v / 0x100, n - 1, k);
    }
  }

  /** The four length classes, with their prefixes. */
  lemma CompactSizeBytes(n: nat)
    ensures n < 0xfd ==> WriteCompactSize(n) == [n]
    ensures 0xfd <= n <= 0xffff ==> WriteCompactSize(n) == [0xfd] + Bytes2(n)
    ensures 0xffff < n <= 0xffff_ffff ==> WriteCompactSize(n) == [0xfe] + Bytes4(n)
    ensures 0xffff_ffff < n ==> WriteCompactSize(n) == [0xff] + Bytes8(n)
  {
    LittleEndianBytes(n);
    hide LittleEndian, Bytes2, Bytes4, Bytes8;
  }

  // ---------- The layout of a transfer ----------

  /** What is written as it stands after one byte for its length. */
  function ShortBytes(s: bytes): bytes
    requires IsShort(s)
  {
    [|s|] + s
  }

  predicate IsShort(s: bytes) {
    |s| < 0xfd
  }

  function InputBytes(i: TxIn): bytes
    requires IsShort(i.signatureScript)
  {
    i.previousOutPoint.hash + (Bytes4(i.previousOutPoint.index) + (ShortBytes(i.signatureScript) + Bytes4(i.sequence)))
  }

  function OutputBytes(o: TxOut): bytes
    requires IsShort(o.pkScript)
  {
    Bytes8(o.value % 0x1_0000_0000_0000_0000) + ShortBytes(o.pkScript)
  }

  predicate IsShortTransfer(tx: MsgTx) {
    |tx.txIn| == |tx.txOut| == 1 && IsShort(tx.txIn[0].signatureScript) && IsShort(tx.txOut[0].pkScript)
  }

  /** Version, marker and flag if any, input count, input, output count, output, witness if any, lock time. */
  function TransferBytes(tx: MsgTx, marker: bytes, stack: bytes): bytes
    requires IsShortTransfer(tx)
  {
    Bytes4(tx.version % 0x1_0000_0000)
    + (marker + ([1] + (InputBytes(tx.txIn[0]) + ([1] + (OutputBytes(tx.txOut[0]) + (stack + Bytes4(tx.lockTime)))))))
  }

  lemma ShortVarBytes(s: bytes)
    requires IsShort(s)
    ensures WriteVarBytes(s) == ShortBytes(s)
  {
  }

  lemma TxInBytes(i: TxIn)
    requires IsShort(i.signatureScript)
    ensures WriteTxIn(i) == InputBytes(i)
  {
    LittleEndianBytes(i.previousOutPoint.index);
    LittleEndianBytes(i.sequence);
    ShortVarBytes(i.signatureScript);
    hide LittleEndian, Bytes2, Bytes4, Bytes8, WriteVarBytes, ShortBytes;
  }

  lemma TxOutBytes(o: TxOut)
    requires IsShort(o.pkScript)
    ensures WriteTxOut(o) == OutputBytes(o)
  {
    assert Unsigned64(o.value) == o.value % 0x1_0000_0000_0000_0000;
    LittleEndianBytes(Unsigned64(o.value));
    ShortVarBytes(o.pkScript);
    hide LittleEndian, Bytes2, Bytes4, Bytes8, WriteVarBytes, ShortBytes, Unsigned64;
  }

  lemma OneWritten<T>(write: T -> bytes, x: T)
    ensures WriteAll(write, [x]) == write(x)
  {
    assert WriteAll(write, [x][1..]) == [];
  }

  lemma TransferEnd(tx: MsgTx, flagged: bool)
    requires |tx.txIn| == 1
    ensures WitnessesBefore([], tx, flagged) == (if flagged then WriteWitness(tx.txIn[0].witnessStack) else []) + Bytes4(tx.lockTime)
  {
    assert Map(WitnessOf, tx.txIn) == [tx.txIn[0].witnessStack];
    OneWritten(WriteWitness, tx.txIn[0].witnessStack);
    LittleEndianBytes(tx.lockTime);
    hide LittleEndian, Bytes2, Bytes4, Bytes8, WriteWitness, WriteAll;
    assert LittleEndian(tx.lockTime, 4) + [] == Bytes4(tx.lockTime);
  }

  lemma TransferForm(tx: MsgTx, flagged: bool)
    requires IsShortTransfer(tx)
    ensures SerializeBefore([], tx, flagged)
         == TransferBytes(tx, if flagged then [0, 1] else [], if flagged then WriteWitness(tx.txIn[0].witnessStack) else [])
  {
    assert tx.txIn == [tx.txIn[0]] && tx.txOut == [tx.txOut[0]];
    assert Unsigned32(tx.version) == tx.version % 0x1_0000_0000;
    CompactSizeBytes(1);
    OneWritten(WriteTxIn, tx.txIn[0]);
    OneWritten(WriteTxOut, tx.txOut[0]);
    TxInBytes(tx.txIn[0]);
    TxOutBytes(tx.txOut[0]);
    TransferEnd(tx, flagged);
    LittleEndianBytes(Unsigned32(tx.version));
    hide LittleEndian, Bytes2, Bytes4, Bytes8, WriteTxIn, WriteTxOut, WriteWitness, WriteAll, InputBytes, OutputBytes,
      WriteCompactSize, WitnessesBefore, Unsigned32;
    assert InputsBefore([], tx, flagged) == [] + InputsBefore([], tx, flagged);
  }

  /** A transfer without witness is written without marker. */
  lemma PlainTransfer(tx: MsgTx)
    requires IsShortTransfer(tx) && tx.txIn[0].witnessStack == []
    ensures Serialize(tx) == TransferBytes(tx, [], [])
  {
    assert !HasWitness(tx);
    TransferForm(tx, false);
    hide SerializeBefore, TransferBytes, WriteWitness;
  }

  /** With a witness of one item the marker and the flag follow the version, and the witness precedes the lock time. */
  lemma SpentTransfer(tx: MsgTx, item: bytes)
    requires IsShortTransfer(tx) && tx.txIn[0].witnessStack == [item] && IsShort(item)
    ensures Serialize(tx) == TransferBytes(tx, [0, 1], [1] + ShortBytes(item))
  {
    assert HasWitness(tx);
    TransferForm(tx, true);
    OneWritten(WriteVarBytes, item);
    ShortVarBytes(item);
    CompactSizeBytes(1);
    hide SerializeBefore, TransferBytes, WriteVarBytes, ShortBytes, WriteAll, WriteCompactSize;
  }

  // ---------- Which byte strings are transactions ----------

  predicate SizedWitness(stack: seq<bytes>) {
    |stack| < 0x1_0000_0000_0000_0000 && forall k | 0 <= k < |stack| :: SizedBytes(stack[k])
  }

  predicate SizedTxOut(o: TxOut) {
    SizedBytes(o.pkScript)
  }

  lemma {:induction false} ReadAllKeeps<T(!new)>(read: bytes -> Parse<T>, good: T -> bool, n: nat, b: bytes)
    requires forall c | read(c).Parsed? :: good(read(c).value)
    requires ReadAll(read, n, b).Parsed?
    ensures forall i | 0 <= i < n :: good(ReadAll(read, n, b).value[i])
  {
    if n > 0 {
      ReadAllKeeps(read, good, n - 1, read(b).rest);
    }
  }

  lemma VarBytesSized(b: bytes)
    requires ReadVarBytes(b).Parsed?
    ensures SizedBytes(ReadVarBytes(b).value)
  {
    CompactSizeOnly(b);
  }

  lemma TxInSized(b: bytes)
    requires ReadTxIn(b).Parsed?
    ensures SizedTxIn(ReadTxIn(b).value)
  {
    VarBytesSized(ReadUint32(Take(32, b).rest).rest);
  }

  lemma TxOutSized(b: bytes)
    requires ReadTxOut(b).Parsed?
    ensures SizedTxOut(ReadTxOut(b).value)
  {
    VarBytesSized(ReadInt64(b).rest);
  }

  lemma WitnessSized(b: bytes)
    requires ReadWitness(b).Parsed?
    ensures SizedWitness(ReadWitness(b).value)
  {
    CompactSizeOnly(b);
    forall c | ReadVarBytes(c).Parsed? ensures SizedBytes(ReadVarBytes(c).value) {
      VarBytesSized(c);
    }
    ReadAllKeeps(ReadVarBytes, SizedBytes, ReadCompactSize(b).value, ReadCompactSize(b).rest);
  }

  lemma BodySized(version: uint32, flagged: bool, b: bytes)
    requires ReadCompactSize(b).Parsed?
    requires ReadBody(version, flagged, ReadCompactSize(b).value, ReadCompactSize(b).rest).Parsed?
    ensures Sized(ReadBody(version, flagged, ReadCompactSize(b).value, ReadCompactSize(b).rest).value)
  {
    var count := ReadCompactSize(b);
    CompactSizeOnly(b);
    forall c | ReadTxIn(c).Parsed? ensures SizedTxIn(ReadTxIn(c).value) {
      TxInSized(c);
    }
    ReadAllKeeps(ReadTxIn, SizedTxIn, count.value, count.rest);
    var ins := ReadAll(ReadTxIn, count.value, count.rest);
    var n := ReadCompactSize(ins.rest);
    CompactSizeOnly(ins.rest);
    forall c | ReadTxOut(c).Parsed? ensures SizedTxOut(ReadTxOut(c).value) {
      TxOutSized(c);
    }
    ReadAllKeeps(ReadTxOut, SizedTxOut, n.value, n.rest);
    var outs := ReadAll(ReadTxOut, n.value, n.rest);
    EndSized(version, flagged, ins.value, outs.value, outs.rest);
  }

  lemma EndSized(version: uint32, flagged: bool, ins: seq<TxIn>, outs: seq<TxOut>, b: bytes)
    requires ReadEnd(version, flagged, ins, outs, b).Parsed?
    requires |ins| < 0x1_0000_0000_0000_0000 && |outs| < 0x1_0000_0000_0000_0000
    requires (forall k | 0 <= k < |ins| :: SizedTxIn(ins[k])) && (forall k | 0 <= k < |outs| :: SizedTxOut(outs[k]))
    ensures Sized(ReadEnd(version, flagged, ins, outs, b).value)
  {
    if flagged {
      forall c | ReadWitness(c).Parsed? ensures SizedWitness(ReadWitness(c).value) {
        WitnessSized(c);
      }
      ReadAllKeeps(ReadWitness, SizedWitness, |ins|, b);
    }
    var stacks := ReadStacks(flagged, |ins|, b);
    var tx := ReadEnd(version, flagged, ins, outs, b).value;
    forall k | 0 <= k < |ins| ensures SizedTxIn(tx.txIn[k]) {
      assert SizedWitness(stacks.value[k]) && SizedTxIn(ins[k]);
    }
    assert tx.txOut == outs;
  }

  /** The two forms of a transaction: the flagged one, and for a transaction with inputs and no witness the plain one. */
  ghost predicate IsForm(tx: MsgTx, flagged: bool, rest: bytes, b: bytes) {
    Sized(tx) && (flagged || (tx.txIn != [] && !HasWitness(tx))) && b == SerializeBefore(rest, tx, flagged)
  }

  /** The decoder reads `tx` and leaves `rest` exactly when the bytes are a form of the one followed by the other. */
  lemma DecodesExactly(b: bytes, tx: MsgTx, rest: bytes)
    ensures Deserialize(b) == Parsed(tx, rest) <==> exists flagged :: IsForm(tx, flagged, rest, b)
  {
    if Deserialize(b) == Parsed(tx, rest) {
      ParsedIsSized(b);
      DeserializeOnly(b);
      assert IsForm(tx, true, rest, b) || IsForm(tx, false, rest, b);
    }
    if flagged :| IsForm(tx, flagged, rest, b) {
      DeserializeOfForm(tx, flagged, rest);
    }
  }

  lemma ParsedIsSized(b: bytes)
    requires Deserialize(b).Parsed?
    ensures Sized(Deserialize(b).value)
  {
    hide ReadBody, Sized;
    var version := ReadUint32(b);
    if ReadCompactSize(version.rest).value != 0 {
      BodySized(version.value, false, version.rest);
    } else {
      var flag := Take(1, ReadCompactSize(version.rest).rest);
      BodySized(version.value, true, flag.rest);
    }
  }
}
