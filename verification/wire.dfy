/** The byte form of transactions ("Serialization" section of BIP 144), as btcd's wire package writes and reads it. */
module Wire {
  import opened Bitcoin
  import opened FixedWidth
  import opened Integers
  import opened Parsing

  // ---------- CompactSize ----------

  function WriteCompactSize(n: nat): bytes {
    if n < 0xfd then [n]
    else if n <= 0xffff then [0xfd] + LittleEndian(n, 2)
    else if n <= 0xffff_ffff then [0xfe] + LittleEndian(n, 4)
    else [0xff] + LittleEndian(n, 8)
  }

  /** A length written in more bytes than it needs is an error. */
  function ReadCompactSize(b: bytes): Parse<nat> {
    var (first, b) :- Take(1, b);
    if first[0] < 0xfd then Parsed(first[0], b)
    else
      var (width, least) := if first[0] == 0xfd then (2, 0xfd) else if first[0] == 0xfe then (4, 0x1_0000) else (8, 0x1_0000_0000);
      var (n, b) :- ReadUint(width, b);
      if n < least then Malformed else Parsed(n, b)
  }

  function ReadUint(width: nat, b: bytes): Parse<nat> {
    var (word, b) :- Take(width, b);
    Parsed(FromLittleEndian(word), b)
  }

  lemma ReadUintOfWritten(v: nat, width: nat, rest: bytes)
    requires v < Capacity(width)
    ensures ReadUint(width, LittleEndian(v, width) + rest) == Parsed(v, rest)
  {
    TakeExactly(LittleEndian(v, width), rest);
    LittleEndianRoundTrip(v, width);
  }

  lemma ReadUintOnly(width: nat, b: bytes)
    requires ReadUint(width, b).Parsed?
    ensures ReadUint(width, b).value < Capacity(width)
    ensures b == LittleEndian(ReadUint(width, b).value, width) + ReadUint(width, b).rest
  {
    FromLittleEndianRoundTrip(Take(width, b).value);
  }

  function ReadUint32(b: bytes): Parse<uint32> {
    var (v, b) :- ReadUint(4, b);
    Parsed(ToUint32(v), b)
  }

  function ReadInt64(b: bytes): Parse<int64> {
    var (v, b) :- ReadUint(8, b);
    Parsed(Signed64(v % 0x1_0000_0000_0000_0000), b)
  }

  lemma Uint32RoundTrip(v: uint32, rest: bytes)
    ensures ReadUint32(LittleEndian(v, 4) + rest) == Parsed(v, rest)
  {
    assert ReadUint(4, LittleEndian(v, 4) + rest) == Parsed(v, rest) by {
      Capacities();
      ReadUintOfWritten(v, 4, rest);
    }
    NoBitsLost(v);
  }

  lemma Uint32Only(b: bytes)
    requires ReadUint32(b).Parsed?
    ensures b == LittleEndian(ReadUint32(b).value, 4) + ReadUint32(b).rest
  {
    var word := ReadUint(4, b);
    assert word.value < 0x1_0000_0000 && b == LittleEndian(word.value, 4) + word.rest by {
      Capacities();
      ReadUintOnly(4, b);
    }
    NoBitsLost(word.value);
  }

  lemma Int64RoundTrip(v: int64, rest: bytes)
    ensures ReadInt64(LittleEndian(Unsigned64(v), 8) + rest) == Parsed(v, rest)
  {
    var u := Unsigned64(v);
    assert ReadUint(8, LittleEndian(u, 8) + rest) == Parsed(u, rest) by {
      Capacities();
      ReadUintOfWritten(u, 8, rest);
    }
    NoSignLost(u);
  }

  lemma Int64Only(b: bytes)
    requires ReadInt64(b).Parsed?
    ensures b == LittleEndian(Unsigned64(ReadInt64(b).value), 8) + ReadInt64(b).rest
  {
    var word := ReadUint(8, b);
    assert word.value < 0x1_0000_0000_0000_0000 && b == LittleEndian(word.value, 8) + word.rest by {
      Capacities();
      ReadUintOnly(8, b);
    }
    NoSignLost(word.value);
  }

  lemma NoBitsLost(v: nat)
    requires v < 0x1_0000_0000
    ensures ToUint32(v) == v
  {
  }

  lemma NoSignLost(v: nat)
    requires v < 0x1_0000_0000_0000_0000
    ensures v % 0x1_0000_0000_0000_0000 == v && Unsigned64(Signed64(v)) == v
  {
  }

  lemma CompactSizeRoundTrip(n: nat, rest: bytes)
    requires n < 0x1_0000_0000_0000_0000
    ensures ReadCompactSize(WriteCompactSize(n) + rest) == Parsed(n, rest)
  {
    Capacities();
    var w := WriteCompactSize(n);
    TakeExactly(w[..1], w[1..] + rest);
    assert w + rest == w[..1] + (w[1..] + rest);
    if n >= 0xfd {
      ReadUintOfWritten(n, |w| - 1, rest);
    }
  }

  lemma CompactSizeOnly(b: bytes)
    requires ReadCompactSize(b).Parsed?
    ensures ReadCompactSize(b).value < 0x1_0000_0000_0000_0000
    ensures b == WriteCompactSize(ReadCompactSize(b).value) + ReadCompactSize(b).rest
  {
    Capacities();
    if b[0] >= 0xfd {
      ReadUintOnly(if b[0] == 0xfd then 2 else if b[0] == 0xfe then 4 else 8, b[1..]);
    }
  }

  // ---------- The parts of a transaction ----------

  function WriteVarBytes(s: bytes): bytes {
    WriteCompactSize(|s|) + s
  }

  function ReadVarBytes(b: bytes): Parse<bytes> {
    var (n, b) :- ReadCompactSize(b);
    Take(n, b)
  }

  function WriteTxIn(i: TxIn): bytes {
    i.previousOutPoint.hash + (LittleEndian(i.previousOutPoint.index, 4)
      + (WriteVarBytes(i.signatureScript) + LittleEndian(i.sequence, 4)))
  }

  /** Witness data is stored apart from the inputs, so an input is read without it. */
  function ReadTxIn(b: bytes): Parse<TxIn> {
    var (hash, b) :- Take(32, b);
    var (index, b) :- ReadUint32(b);
    var (script, b) :- ReadVarBytes(b);
    var (sequence, b) :- ReadUint32(b);
    Parsed(TxIn(OutPoint(hash, index), script, [], sequence), b)
  }

  function WriteTxOut(o: TxOut): bytes {
    LittleEndian(Unsigned64(o.value), 8) + WriteVarBytes(o.pkScript)
  }

  function ReadTxOut(b: bytes): Parse<TxOut> {
    var (value, b) :- ReadInt64(b);
    var (script, b) :- ReadVarBytes(b);
    Parsed(TxOut(value, script), b)
  }

  function WriteWitness(stack: seq<bytes>): bytes {
    WriteCompactSize(|stack|) + WriteAll(WriteVarBytes, stack)
  }

  function ReadWitness(b: bytes): Parse<seq<bytes>> {
    var (n, b) :- ReadCompactSize(b);
    ReadAll(ReadVarBytes, n, b)
  }

  function WithoutWitness(i: TxIn): TxIn {
    i.(witnessStack := [])
  }

  function WitnessOf(i: TxIn): seq<bytes> {
    i.witnessStack
  }

  function Same<T>(x: T): T {
    x
  }

  // ---------- Transactions ----------

  /** The bytes of a transaction followed by `rest`; `flagged` selects the form with a marker,
      a flag and witness data. */
  function SerializeBefore(rest: bytes, tx: MsgTx, flagged: bool): bytes {
    LittleEndian(Unsigned32(tx.version), 4)
    + (if flagged then [0x00, 0x01] + InputsBefore(rest, tx, flagged) else InputsBefore(rest, tx, flagged))
  }

  function InputsBefore(rest: bytes, tx: MsgTx, flagged: bool): bytes {
    WriteCompactSize(|tx.txIn|) + (WriteAll(WriteTxIn, tx.txIn) + OutputsBefore(rest, tx, flagged))
  }

  function OutputsBefore(rest: bytes, tx: MsgTx, flagged: bool): bytes {
    WriteCompactSize(|tx.txOut|) + (WriteAll(WriteTxOut, tx.txOut) + WitnessesBefore(rest, tx, flagged))
  }

  function WitnessesBefore(rest: bytes, tx: MsgTx, flagged: bool): bytes {
    var lockTime := LittleEndian(tx.lockTime, 4) + rest;
    if flagged then WriteAll(WriteWitness, Map(WitnessOf, tx.txIn)) + lockTime else lockTime
  }

  function Serialize(tx: MsgTx): bytes {
    SerializeBefore([], tx, HasWitness(tx))
  }

  /** A zero input count is read as the marker of the flagged form, whose flag must then be 1. */
  function Deserialize(b: bytes): Parse<MsgTx> {
    var (version, b) :- ReadUint32(b);
    var (count, b) :- ReadCompactSize(b);
    if count != 0 then ReadBody(version, false, count, b) else ReadFlagged(version, b)
  }

  function ReadFlagged(version: uint32, b: bytes): Parse<MsgTx> {
    var (flag, b) :- Take(1, b);
    if flag != [0x01] then Malformed
    else
      var (count, b) :- ReadCompactSize(b);
      ReadBody(version, true, count, b)
  }

  function ReadBody(version: uint32, flagged: bool, count: nat, b: bytes): Parse<MsgTx> {
    var (ins, b) :- ReadAll(ReadTxIn, count, b);
    ReadOutputs(version, flagged, ins, b)
  }

  function ReadOutputs(version: uint32, flagged: bool, ins: seq<TxIn>, b: bytes): Parse<MsgTx> {
    var (n, b) :- ReadCompactSize(b);
    var (outs, b) :- ReadAll(ReadTxOut, n, b);
    ReadEnd(version, flagged, ins, outs, b)
  }

  function ReadEnd(version: uint32, flagged: bool, ins: seq<TxIn>, outs: seq<TxOut>, b: bytes): Parse<MsgTx> {
    var (stacks, b) :- ReadStacks(flagged, |ins|, b);
    var (lockTime, b) :- ReadUint32(b);
    Parsed(MsgTx(Signed32(version), Attach(ins, stacks), outs, lockTime), b)
  }

  function ReadStacks(flagged: bool, count: nat, b: bytes): (r: Parse<seq<seq<bytes>>>)
    ensures r.Parsed? ==> |r.value| == count
  {
    if flagged then ReadAll(ReadWitness, count, b) else Parsed(seq(count, _ => []), b)
  }

  function Attach(ins: seq<TxIn>, stacks: seq<seq<bytes>>): (r: seq<TxIn>)
    requires |ins| == |stacks|
    ensures |r| == |ins|
  {
    seq(|ins|, i requires 0 <= i < |ins| => ins[i].(witnessStack := stacks[i]))
  }

  // ---------- What is written is read back ----------

  predicate SizedBytes(s: bytes) {
    |s| < 0x1_0000_0000_0000_0000
  }

  predicate SizedTxIn(i: TxIn) {
    SizedBytes(i.signatureScript) && |i.witnessStack| < 0x1_0000_0000_0000_0000
    && forall k | 0 <= k < |i.witnessStack| :: SizedBytes(i.witnessStack[k])
  }

  /** Every length fits in 64 bits, as the length of any Go slice does. */
  predicate Sized(tx: MsgTx) {
    |tx.txIn| < 0x1_0000_0000_0000_0000 && |tx.txOut| < 0x1_0000_0000_0000_0000
    && (forall k | 0 <= k < |tx.txIn| :: SizedTxIn(tx.txIn[k]))
    && (forall k | 0 <= k < |tx.txOut| :: SizedBytes(tx.txOut[k].pkScript))
  }

  lemma VarBytesRoundTrip(s: bytes, rest: bytes)
    requires SizedBytes(s)
    ensures ReadVarBytes(WriteVarBytes(s) + rest) == Parsed(s, rest)
  {
    assert WriteVarBytes(s) + rest == WriteCompactSize(|s|) + (s + rest);
    CompactSizeRoundTrip(|s|, s + rest);
    TakeExactly(s, rest);
  }

  lemma TxInRoundTrip(i: TxIn, rest: bytes)
    requires SizedTxIn(i)
    ensures ReadTxIn(WriteTxIn(i) + rest) == Parsed(WithoutWitness(i), rest)
  {
    var b3 := LittleEndian(i.sequence, 4) + rest;
    var b2 := WriteVarBytes(i.signatureScript) + b3;
    var b1 := LittleEndian(i.previousOutPoint.index, 4) + b2;
    assert WriteTxIn(i) + rest == i.previousOutPoint.hash + b1;
    TakeExactly(i.previousOutPoint.hash, b1);
    Uint32RoundTrip(i.previousOutPoint.index, b2);
    VarBytesRoundTrip(i.signatureScript, b3);
    Uint32RoundTrip(i.sequence, rest);
  }

  lemma TxOutRoundTrip(o: TxOut, rest: bytes)
    requires SizedBytes(o.pkScript)
    ensures ReadTxOut(WriteTxOut(o) + rest) == Parsed(o, rest)
  {
    assert WriteTxOut(o) + rest == LittleEndian(Unsigned64(o.value), 8) + (WriteVarBytes(o.pkScript) + rest);
    Int64RoundTrip(o.value, WriteVarBytes(o.pkScript) + rest);
    VarBytesRoundTrip(o.pkScript, rest);
  }

  lemma WitnessRoundTrip(stack: seq<bytes>, rest: bytes)
    requires |stack| < 0x1_0000_0000_0000_0000 && forall k | 0 <= k < |stack| :: SizedBytes(stack[k])
    ensures ReadWitness(WriteWitness(stack) + rest) == Parsed(stack, rest)
  {
    var items := WriteAll(WriteVarBytes, stack) + rest;
    assert WriteWitness(stack) + rest == WriteCompactSize(|stack|) + items;
    CompactSizeRoundTrip(|stack|, items);
    forall i | 0 <= i < |stack| ensures Reads(WriteVarBytes, ReadVarBytes, Same, stack[i]) {
      forall r ensures ReadVarBytes(WriteVarBytes(stack[i]) + r) == Parsed(Same(stack[i]), r) {
        VarBytesRoundTrip(stack[i], r);
      }
    }
    ReadAllOfWriteAll(WriteVarBytes, ReadVarBytes, Same, stack, rest);
    assert Map(Same, stack) == stack;
  }

  lemma TxInsRoundTrip(ins: seq<TxIn>, rest: bytes)
    requires forall k | 0 <= k < |ins| :: SizedTxIn(ins[k])
    ensures ReadAll(ReadTxIn, |ins|, WriteAll(WriteTxIn, ins) + rest) == Parsed(Map(WithoutWitness, ins), rest)
  {
    forall i | 0 <= i < |ins| ensures Reads(WriteTxIn, ReadTxIn, WithoutWitness, ins[i]) {
      forall r ensures ReadTxIn(WriteTxIn(ins[i]) + r) == Parsed(WithoutWitness(ins[i]), r) {
        TxInRoundTrip(ins[i], r);
      }
    }
    ReadAllOfWriteAll(WriteTxIn, ReadTxIn, WithoutWitness, ins, rest);
  }

  lemma TxOutsRoundTrip(outs: seq<TxOut>, rest: bytes)
    requires forall k | 0 <= k < |outs| :: SizedBytes(outs[k].pkScript)
    ensures ReadAll(ReadTxOut, |outs|, WriteAll(WriteTxOut, outs) + rest) == Parsed(outs, rest)
  {
    forall i | 0 <= i < |outs| ensures Reads(WriteTxOut, ReadTxOut, Same, outs[i]) {
      forall r ensures ReadTxOut(WriteTxOut(outs[i]) + r) == Parsed(Same(outs[i]), r) {
        TxOutRoundTrip(outs[i], r);
      }
    }
    ReadAllOfWriteAll(WriteTxOut, ReadTxOut, Same, outs, rest);
    assert Map(Same, outs) == outs;
  }

  lemma WitnessesRoundTrip(ins: seq<TxIn>, rest: bytes)
    requires forall k | 0 <= k < |ins| :: SizedTxIn(ins[k])
    ensures ReadAll(ReadWitness, |ins|, WriteAll(WriteWitness, Map(WitnessOf, ins)) + rest) == Parsed(Map(WitnessOf, ins), rest)
  {
    var stacks := Map(WitnessOf, ins);
    forall i | 0 <= i < |stacks| ensures Reads(WriteWitness, ReadWitness, Same, stacks[i]) {
      forall r ensures ReadWitness(WriteWitness(stacks[i]) + r) == Parsed(Same(stacks[i]), r) {
        WitnessRoundTrip(stacks[i], r);
      }
    }
    ReadAllOfWriteAll(WriteWitness, ReadWitness, Same, stacks, rest);
    assert Map(Same, stacks) == stacks;
  }

  lemma Regroup(a: bytes, b: bytes, c: bytes)
    ensures (a + b) + c == a + (b + c)
  {
  }

  lemma WitnessesAppend(rest: bytes, tx: MsgTx, flagged: bool)
    ensures WitnessesBefore([], tx, flagged) + rest == WitnessesBefore(rest, tx, flagged)
  {
    var lockTime := LittleEndian(tx.lockTime, 4);
    assert lockTime + [] == lockTime;
    Regroup(WriteAll(WriteWitness, Map(WitnessOf, tx.txIn)), lockTime, rest);
  }

  lemma OutputsAppend(rest: bytes, tx: MsgTx, flagged: bool)
    ensures OutputsBefore([], tx, flagged) + rest == OutputsBefore(rest, tx, flagged)
  {
    WitnessesAppend(rest, tx, flagged);
    Regroup(WriteAll(WriteTxOut, tx.txOut), WitnessesBefore([], tx, flagged), rest);
    Regroup(WriteCompactSize(|tx.txOut|), WriteAll(WriteTxOut, tx.txOut) + WitnessesBefore([], tx, flagged), rest);
  }

  lemma InputsAppend(rest: bytes, tx: MsgTx, flagged: bool)
    ensures InputsBefore([], tx, flagged) + rest == InputsBefore(rest, tx, flagged)
  {
    OutputsAppend(rest, tx, flagged);
    Regroup(WriteAll(WriteTxIn, tx.txIn), OutputsBefore([], tx, flagged), rest);
    Regroup(WriteCompactSize(|tx.txIn|), WriteAll(WriteTxIn, tx.txIn) + OutputsBefore([], tx, flagged), rest);
  }

  lemma SerializeAppend(rest: bytes, tx: MsgTx, flagged: bool)
    ensures SerializeBefore([], tx, flagged) + rest == SerializeBefore(rest, tx, flagged)
  {
    var version, marker := LittleEndian(Unsigned32(tx.version), 4), [0x00, 0x01];
    var inputs := InputsBefore([], tx, flagged);
    InputsAppend(rest, tx, flagged);
    Regroup(marker, inputs, rest);
    Regroup(version, marker + inputs, rest);
    Regroup(version, inputs, rest);
  }

  lemma AttachStripped(ins: seq<TxIn>)
    ensures Attach(Map(WithoutWitness, ins), Map(WitnessOf, ins)) == ins
    ensures (forall k | 0 <= k < |ins| :: ins[k].witnessStack == []) ==> Attach(Map(WithoutWitness, ins), seq(|ins|, _ => [])) == ins
  {
  }

  lemma EndRoundTrip(tx: MsgTx, flagged: bool, rest: bytes)
    requires Sized(tx) && (HasWitness(tx) ==> flagged)
    ensures ReadEnd(Unsigned32(tx.version), flagged, Map(WithoutWitness, tx.txIn), tx.txOut, WitnessesBefore(rest, tx, flagged))
         == Parsed(tx, rest)
  {
    WitnessesRoundTrip(tx.txIn, LittleEndian(tx.lockTime, 4) + rest);
    Uint32RoundTrip(tx.lockTime, rest);
    AttachStripped(tx.txIn);
  }

  lemma OutputsRoundTrip(tx: MsgTx, flagged: bool, rest: bytes)
    requires Sized(tx) && (HasWitness(tx) ==> flagged)
    ensures ReadOutputs(Unsigned32(tx.version), flagged, Map(WithoutWitness, tx.txIn), OutputsBefore(rest, tx, flagged))
         == Parsed(tx, rest)
  {
    var end := WitnessesBefore(rest, tx, flagged);
    CompactSizeRoundTrip(|tx.txOut|, WriteAll(WriteTxOut, tx.txOut) + end);
    TxOutsRoundTrip(tx.txOut, end);
    EndRoundTrip(tx, flagged, rest);
  }

  lemma BodyRoundTrip(tx: MsgTx, flagged: bool, rest: bytes)
    requires Sized(tx) && (HasWitness(tx) ==> flagged)
    ensures ReadBody(Unsigned32(tx.version), flagged, |tx.txIn|, WriteAll(WriteTxIn, tx.txIn) + OutputsBefore(rest, tx, flagged))
         == Parsed(tx, rest)
  {
    TxInsRoundTrip(tx.txIn, OutputsBefore(rest, tx, flagged));
    OutputsRoundTrip(tx, flagged, rest);
  }

  lemma FlagRoundTrip(b: bytes)
    ensures ReadCompactSize([0x00, 0x01] + b) == Parsed(0, [0x01] + b)
    ensures Take(1, [0x01] + b) == Parsed([0x01], b)
  {
    assert [0x00, 0x01] + b == WriteCompactSize(0) + ([0x01] + b);
    CompactSizeRoundTrip(0, [0x01] + b);
    TakeExactly([0x01], b);
  }

  /** The decoder undoes either form: it reads exactly one transaction and leaves the rest unread. */
  lemma DeserializeOfForm(tx: MsgTx, flagged: bool, rest: bytes)
    requires Sized(tx) && (HasWitness(tx) ==> flagged) && (tx.txIn == [] ==> flagged)
    ensures Deserialize(SerializeBefore(rest, tx, flagged)) == Parsed(tx, rest)
  {
    var body := WriteAll(WriteTxIn, tx.txIn) + OutputsBefore(rest, tx, flagged);
    CompactSizeRoundTrip(|tx.txIn|, body);
    BodyRoundTrip(tx, flagged, rest);
    var inputs := InputsBefore(rest, tx, flagged);
    if flagged {
      Uint32RoundTrip(Unsigned32(tx.version), [0x00, 0x01] + inputs);
      FlagRoundTrip(inputs);
    } else {
      Uint32RoundTrip(Unsigned32(tx.version), inputs);
    }
  }

  /** The decoder undoes the encoder on every transaction with an input, whatever bytes follow. */
  lemma DeserializeOfSerialize(tx: MsgTx, rest: bytes)
    requires Sized(tx) && tx.txIn != []
    ensures Deserialize(Serialize(tx) + rest) == Parsed(tx, rest)
  {
    SerializeAppend(rest, tx, HasWitness(tx));
    DeserializeOfForm(tx, HasWitness(tx), rest);
  }

  // ---------- Only what is written is read ----------

  lemma VarBytesOnly(b: bytes)
    requires ReadVarBytes(b).Parsed?
    ensures b == WriteVarBytes(ReadVarBytes(b).value) + ReadVarBytes(b).rest
  {
    CompactSizeOnly(b);
    var r := ReadVarBytes(b);
    Regroup(WriteCompactSize(|r.value|), r.value, r.rest);
  }

  lemma TxInOnly(b: bytes)
    requires ReadTxIn(b).Parsed?
    ensures b == WriteTxIn(ReadTxIn(b).value) + ReadTxIn(b).rest
  {
    var b1 := Take(32, b).rest;
    var b2 := ReadUint32(b1).rest;
    var b3 := ReadVarBytes(b2).rest;
    Uint32Only(b1);
    VarBytesOnly(b2);
    Uint32Only(b3);
    var i, rest := ReadTxIn(b).value, ReadTxIn(b).rest;
    var sequence, script := LittleEndian(i.sequence, 4), WriteVarBytes(i.signatureScript);
    var index := LittleEndian(i.previousOutPoint.index, 4);
    Regroup(script, sequence, rest);
    Regroup(index, script + sequence, rest);
    Regroup(i.previousOutPoint.hash, index + (script + sequence), rest);
  }

  lemma TxOutOnly(b: bytes)
    requires ReadTxOut(b).Parsed?
    ensures b == WriteTxOut(ReadTxOut(b).value) + ReadTxOut(b).rest
  {
    var b1 := ReadInt64(b).rest;
    Int64Only(b);
    VarBytesOnly(b1);
    var o, rest := ReadTxOut(b).value, ReadTxOut(b).rest;
    Regroup(LittleEndian(Unsigned64(o.value), 8), WriteVarBytes(o.pkScript), rest);
  }

  lemma WitnessOnly(b: bytes)
    requires ReadWitness(b).Parsed?
    ensures b == WriteWitness(ReadWitness(b).value) + ReadWitness(b).rest
  {
    CompactSizeOnly(b);
    var n := ReadCompactSize(b);
    forall c | ReadVarBytes(c).Parsed? ensures c == WriteVarBytes(ReadVarBytes(c).value) + ReadVarBytes(c).rest {
      VarBytesOnly(c);
    }
    WriteAllOfReadAll(WriteVarBytes, ReadVarBytes, n.value, n.rest);
    var r := ReadWitness(b);
    Regroup(WriteCompactSize(|r.value|), WriteAll(WriteVarBytes, r.value), r.rest);
  }

  lemma EndOnly(version: uint32, flagged: bool, ins: seq<TxIn>, outs: seq<TxOut>, b: bytes)
    requires ReadEnd(version, flagged, ins, outs, b).Parsed?
    ensures var r := ReadEnd(version, flagged, ins, outs, b);
            b == WitnessesBefore(r.rest, r.value, flagged) && r.value.txOut == outs
            && |r.value.txIn| == |ins| && WriteAll(WriteTxIn, r.value.txIn) == WriteAll(WriteTxIn, ins)
            && (!flagged ==> !HasWitness(r.value))
  {
    var stacks := ReadStacks(flagged, |ins|, b);
    var tx := ReadEnd(version, flagged, ins, outs, b).value;
    forall c | ReadWitness(c).Parsed? ensures c == WriteWitness(ReadWitness(c).value) + ReadWitness(c).rest {
      WitnessOnly(c);
    }
    if flagged {
      WriteAllOfReadAll(WriteWitness, ReadWitness, |ins|, b);
      assert Map(WitnessOf, tx.txIn) == stacks.value;
    }
    Uint32Only(stacks.rest);
    assert Map(WithoutWitness, tx.txIn) == Map(WithoutWitness, ins);
    WriteAllOfViews(WriteTxIn, WithoutWitness, tx.txIn);
    WriteAllOfViews(WriteTxIn, WithoutWitness, ins);
  }

  lemma OutputsOnly(version: uint32, flagged: bool, ins: seq<TxIn>, b: bytes)
    requires ReadOutputs(version, flagged, ins, b).Parsed?
    ensures var r := ReadOutputs(version, flagged, ins, b);
            b == OutputsBefore(r.rest, r.value, flagged)
            && |r.value.txIn| == |ins| && WriteAll(WriteTxIn, r.value.txIn) == WriteAll(WriteTxIn, ins)
            && (!flagged ==> !HasWitness(r.value))
  {
    CompactSizeOnly(b);
    var n := ReadCompactSize(b);
    forall c | ReadTxOut(c).Parsed? ensures c == WriteTxOut(ReadTxOut(c).value) + ReadTxOut(c).rest {
      TxOutOnly(c);
    }
    WriteAllOfReadAll(WriteTxOut, ReadTxOut, n.value, n.rest);
    var outs := ReadAll(ReadTxOut, n.value, n.rest);
    EndOnly(version, flagged, ins, outs.value, outs.rest);
  }

  lemma BodyOnly(version: uint32, flagged: bool, b: bytes)
    requires ReadCompactSize(b).Parsed?
    requires ReadBody(version, flagged, ReadCompactSize(b).value, ReadCompactSize(b).rest).Parsed?
    ensures var r := ReadBody(version, flagged, ReadCompactSize(b).value, ReadCompactSize(b).rest);
            b == InputsBefore(r.rest, r.value, flagged)
            && |r.value.txIn| == ReadCompactSize(b).value
            && (!flagged ==> !HasWitness(r.value))
  {
    CompactSizeOnly(b);
    var n := ReadCompactSize(b);
    forall c | ReadTxIn(c).Parsed? ensures c == WriteTxIn(ReadTxIn(c).value) + ReadTxIn(c).rest {
      TxInOnly(c);
    }
    WriteAllOfReadAll(WriteTxIn, ReadTxIn, n.value, n.rest);
    var ins := ReadAll(ReadTxIn, n.value, n.rest);
    OutputsOnly(version, flagged, ins.value, ins.rest);
  }

  lemma ReadVersion(version: uint32, flagged: bool, count: nat, b: bytes)
    requires ReadBody(version, flagged, count, b).Parsed?
    ensures ReadBody(version, flagged, count, b).value.version == Signed32(version)
  {
  }

  lemma MarkerThenFlag(b: bytes)
    ensures [0x00] + ([0x01] + b) == [0x00, 0x01] + b
  {
  }

  lemma UnflaggedOnly(version: uint32, b: bytes)
    requires ReadCompactSize(b).Parsed? && ReadCompactSize(b).value != 0
    requires ReadBody(version, false, ReadCompactSize(b).value, ReadCompactSize(b).rest).Parsed?
    ensures var r := ReadBody(version, false, ReadCompactSize(b).value, ReadCompactSize(b).rest);
            && LittleEndian(version, 4) + b == SerializeBefore(r.rest, r.value, false)
            && r.value.txIn != [] && !HasWitness(r.value)
  {
    var count := ReadCompactSize(b);
    BodyOnly(version, false, b);
    ReadVersion(version, false, count.value, count.rest);
  }

  lemma FlaggedOnly(version: uint32, b: bytes)
    requires ReadCompactSize(b).Parsed? && ReadCompactSize(b).value == 0
    requires ReadFlagged(version, ReadCompactSize(b).rest).Parsed?
    ensures var r := ReadFlagged(version, ReadCompactSize(b).rest);
            LittleEndian(version, 4) + b == SerializeBefore(r.rest, r.value, true)
  {
    CompactSizeOnly(b);
    var flag := Take(1, ReadCompactSize(b).rest);
    var count := ReadCompactSize(flag.rest);
    BodyOnly(version, true, flag.rest);
    ReadVersion(version, true, count.value, count.rest);
    MarkerThenFlag(flag.rest);
  }

  /** Every byte string the decoder accepts is one of the two forms of the transaction it returns,
      followed by the bytes it leaves. The unflagged form has at least one input and no witness. */
  lemma DeserializeOnly(b: bytes)
    requires Deserialize(b).Parsed?
    ensures var r := Deserialize(b);
            || b == SerializeBefore(r.rest, r.value, true)
            || (b == SerializeBefore(r.rest, r.value, false) && r.value.txIn != [] && !HasWitness(r.value))
  {
    Uint32Only(b);
    var version := ReadUint32(b);
    if ReadCompactSize(version.rest).value != 0 {
      UnflaggedOnly(version.value, version.rest);
    } else {
      FlaggedOnly(version.value, version.rest);
    }
  }

  lemma FormsDiffer(tx: MsgTx, rest: bytes)
    requires tx.txIn == []
    ensures |SerializeBefore(rest, tx, true)| == |SerializeBefore(rest, tx, false)| + 2
  {
    assert Map(WitnessOf, tx.txIn) == [];
    assert WitnessesBefore(rest, tx, true) == WitnessesBefore(rest, tx, false);
  }

  /** The encoder and the decoder agree on a transaction exactly when it has an input: without one, the
      input count is taken for the marker of the flagged form. */
  lemma RoundTripExactly(tx: MsgTx, rest: bytes)
    requires Sized(tx)
    ensures Deserialize(Serialize(tx) + rest) == Parsed(tx, rest) <==> tx.txIn != []
  {
    var b := Serialize(tx) + rest;
    SerializeAppend(rest, tx, HasWitness(tx));
    if tx.txIn != [] {
      DeserializeOfSerialize(tx, rest);
    } else {
      FormsDiffer(tx, rest);
      if Deserialize(b).Parsed? {
        DeserializeOnly(b);
      }
    }
  }

  /** No encoding of a transaction with an input is a proper prefix of another one's, and none is shared. */
  lemma PrefixFree(tx: MsgTx, other: MsgTx, rest: bytes, otherRest: bytes)
    requires Sized(tx) && Sized(other) && tx.txIn != [] && other.txIn != []
    requires Serialize(tx) + rest == Serialize(other) + otherRest
    ensures tx == other && rest == otherRest
  {
    DeserializeOfSerialize(tx, rest);
    DeserializeOfSerialize(other, otherRest);
  }
}
