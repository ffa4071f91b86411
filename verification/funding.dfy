/** Funding a payment from the wallet: listing, conversion, order, and the transaction builder that draws on the source. */
module Funding {
  import opened Bitcoin
  import opened CoinSelection
  import opened Errors
  import opened InputSources
  import opened Integers
  import opened Parsing
  import opened Wrappers

  ghost predicate DistinctOutPoints(utxos: seq<Utxo>) {
    forall i, j | 0 <= i < j < |utxos| :: utxos[i].outPoint != utxos[j].outPoint
  }

  lemma RepeatedElement(s: seq<Utxo>, i: nat, j: nat)
    requires i < j < |s| && s[i] == s[j]
    ensures multiset(s)[s[i]] >= 2
  {
    assert s == s[..j] + [s[j]] + s[j + 1..];
    assert s[i] in s[..j];
  }

  lemma RareElement(s: seq<Utxo>, u: Utxo)
    requires DistinctOutPoints(s)
    ensures multiset(s)[u] <= 1
  {
    if u in s {
      var i :| 0 <= i < |s| && s[i] == u;
      assert s == s[..i] + [u] + s[i + 1..];
      assert u !in s[..i] && u !in s[i + 1..];
    }
  }

  /** Reordering keeps outpoints distinct. */
  lemma ReorderedStayDistinct(a: seq<Utxo>, b: seq<Utxo>)
    requires DistinctOutPoints(a) && multiset(a) == multiset(b)
    ensures DistinctOutPoints(b)
  {
    forall i, j | 0 <= i < j < |b| ensures b[i].outPoint != b[j].outPoint {
      if b[i] == b[j] {
        RepeatedElement(b, i, j);
        RareElement(a, b[i]);
      } else {
        assert b[i] in multiset(b) && b[j] in multiset(b);
        assert b[i] in a && b[j] in a;
      }
    }
  }

  /** Inputs given out never spend the same output twice. */
  lemma InputsAreDistinct(all: seq<Utxo>, asked: seq<int64>)
    requires DistinctOutPoints(all)
    ensures DistinctInputs(Map(InputOf, all[..Selected(all, asked)]))
  {
  }

  ghost predicate DistinctInputs(inputs: seq<TxIn>) {
    forall i, j | 0 <= i < j < |inputs| :: inputs[i].previousOutPoint != inputs[j].previousOutPoint
  }

  predicate WellFormed(c: Conversions, results: seq<ListUnspentResult>) {
    forall x | x in KeptResults(true, results) :: ToUtxo(c, x).Success?
  }

  /** The spendable outputs of a wallet listing, when all of them are well formed. */
  function Spendable(c: Conversions, results: seq<ListUnspentResult>): seq<Utxo>
    requires WellFormed(c, results)
  {
    var kept := KeptResults(true, results);
    seq(|kept|, i requires 0 <= i < |kept| => ToUtxo(c, kept[i]).value)
  }

  /** No two spendable results of a listing name the same output. */
  ghost predicate DistinctlyListed(c: Conversions, results: seq<ListUnspentResult>) {
    var kept := KeptResults(true, results);
    forall i, j | 0 <= i < j < |kept| ::
      kept[i].vout != kept[j].vout || c.newHashFromStr(kept[i].txid) != c.newHashFromStr(kept[j].txid)
  }

  lemma ConversionKeepsOutPoints(c: Conversions, result: ListUnspentResult)
    requires ToUtxo(c, result).Success?
    ensures ToUtxo(c, result).value.outPoint.index == result.vout
    ensures Success(ToUtxo(c, result).value.outPoint.hash) == c.newHashFromStr(result.txid)
  {
  }

  /** Every spendable output comes from a result that is listed as spendable, and from every such result comes one. */
  lemma SpendableExactly(c: Conversions, results: seq<ListUnspentResult>, u: Utxo)
    requires WellFormed(c, results)
    ensures u in Spendable(c, results) <==> exists x | x in results && x.spendable :: ToUtxo(c, x) == Success(u)
  {
    hide ToUtxo, KeptResults;
    KeptExactly(results);
    var kept := KeptResults(true, results);
    if u in Spendable(c, results) {
      var i :| 0 <= i < |kept| && Spendable(c, results)[i] == u;
      assert kept[i] in kept;
    }
    if x :| x in results && x.spendable && ToUtxo(c, x) == Success(u) {
      var i :| 0 <= i < |kept| && kept[i] == x;
      assert Spendable(c, results)[i] == u;
    }
  }

  /** Distinct spendable outputs listed, distinct inputs out: through filter, conversion, sorting and any targets. */
  lemma FundingInputsAreDistinct(c: Conversions, results: seq<ListUnspentResult>, all: seq<Utxo>, asked: seq<int64>)
    requires WellFormed(c, results) && DistinctlyListed(c, results)
    requires multiset(all) == multiset(Spendable(c, results))
    ensures DistinctInputs(Map(InputOf, all[..Selected(all, asked)]))
  {
    hide ToUtxo, KeptResults;
    var kept, spendable := KeptResults(true, results), Spendable(c, results);
    forall i, j | 0 <= i < j < |spendable| ensures spendable[i].outPoint != spendable[j].outPoint {
      ConversionKeepsOutPoints(c, kept[i]);
      ConversionKeepsOutPoints(c, kept[j]);
    }
    ReorderedStayDistinct(spendable, all);
    InputsAreDistinct(all, asked);
  }

  /** What the source hands out for one target. */
  datatype Drawn = Drawn(total: int64, inputs: seq<TxIn>, values: seq<int64>, scripts: seq<bytes>)

  function DrawnAfter(all: seq<Utxo>, asked: seq<int64>): Drawn {
    var n := Selected(all, asked);
    Drawn(RunningTotal(all, n), Map(InputOf, all[..n]), Map(ValueOf, all[..n]), Map(ScriptOf, all[..n]))
  }

  /** The answers to all targets, one after the other. */
  function AllDrawn(all: seq<Utxo>, asked: seq<int64>): seq<Drawn> {
    if asked == [] then [] else AllDrawn(all, asked[..|asked| - 1]) + [DrawnAfter(all, asked)]
  }

  lemma OneMoreDrawn(all: seq<Utxo>, asked: seq<int64>, target: int64)
    ensures AllDrawn(all, asked + [target]) == AllDrawn(all, asked) + [DrawnAfter(all, asked + [target])]
  {
    hide DrawnAfter;
    assert (asked + [target])[..|asked|] == asked;
  }

  /** Each answer hands out the outputs that the targets so far need, in full. */
  lemma {:induction false} AllDrawnInFull(all: seq<Utxo>, asked: seq<int64>, i: nat)
    requires i < |asked|
    ensures |AllDrawn(all, asked)| == |asked|
    ensures var d, outputs := AllDrawn(all, asked)[i], all[..Selected(all, asked[..i + 1])];
            HandsOut(outputs, d.total, d.inputs, d.values, d.scripts)
  {
    hide HandsOut, Selected, RunningTotal, Map;
    var m := |asked| - 1;
    AllDrawnCount(all, asked);
    AllDrawnCount(all, asked[..m]);
    if i < m {
      AllDrawnInFull(all, asked[..m], i);
      assert asked[..m][..i + 1] == asked[..i + 1];
    } else {
      assert asked[..i + 1] == asked;
      HandsOutPrefix(all, Selected(all, asked));
    }
  }

  lemma {:induction false} AllDrawnCount(all: seq<Utxo>, asked: seq<int64>)
    ensures |AllDrawn(all, asked)| == |asked|
  {
    hide DrawnAfter;
    if asked != [] {
      AllDrawnCount(all, asked[..|asked| - 1]);
    }
  }

  /** The transaction builder, as far as it is known: the targets it asks for in a call, in any order, and the transaction
      it authors from the payment, the fee rate, the change script and the answers. */
  datatype Builder = Builder(targets: seq<int64>, author: (seq<TxOut>, int64, bytes, seq<Drawn>) -> Result<MsgTx, Error>)

  const NO_UTXO: Error := Errorf("there must be at least 1 usable UTXO to build transaction")
  const NO_OUTPUT: Error := Errorf("there must be at least 1 output in transaction")

  /** The builder asks for its targets one after the other and sees the outputs only through the answers. */
  method NewUnsignedTransaction(
      outputs: seq<TxOut>, feeRatePerKb: int64, source: InputSource, changeScript: bytes, builder: Builder)
    returns (r: Result<MsgTx, Error>)
    requires source.Valid() && source.asked == []
    modifies source
    ensures source.Valid() && source.asked == builder.targets
    ensures r == builder.author(outputs, feeRatePerKb, changeScript, AllDrawn(source.all, builder.targets))
  {
    hide Selected, RunningTotal, Map, InputSource.Valid;
    var drawn := [];
    assert AllDrawn(source.all, []) == [];
    hide AllDrawn;
    for i := 0 to |builder.targets|
      invariant source.Valid() && source.asked == builder.targets[..i]
      invariant drawn == AllDrawn(source.all, builder.targets[..i])
    {
      assert builder.targets[..i + 1] == builder.targets[..i] + [builder.targets[i]];
      OneMoreDrawn(source.all, builder.targets[..i], builder.targets[i]);
      var total, inputs, values, scripts := source.Next(builder.targets[i]);
      drawn := drawn + [Drawn(total, inputs, values, scripts)];
    }
    assert builder.targets[..|builder.targets|] == builder.targets;
    return builder.author(outputs, feeRatePerKb, changeScript, drawn);
  }

  method BuildTxFromOutputs(utxos: seq<Utxo>, outputs: seq<TxOut>, feeRatePerKb: int64, changeScript: bytes, builder: Builder)
    returns (r: Result<MsgTx, Error>)
    ensures utxos == [] ==> r == Failure(NO_UTXO)
    ensures utxos != [] && outputs == [] ==> r == Failure(NO_OUTPUT)
    ensures utxos != [] && outputs != [] ==>
              r == builder.author(outputs, feeRatePerKb, changeScript, AllDrawn(utxos, builder.targets))
  {
    if |utxos| == 0 {
      return Failure(NO_UTXO);
    }
    if |outputs| == 0 {
      return Failure(NO_OUTPUT);
    }
    var source := new InputSource(utxos);
    r := NewUnsignedTransaction(outputs, feeRatePerKb, source, changeScript, builder);
  }

  lemma SortedExactly(c: Conversions, results: seq<ListUnspentResult>, sorted: seq<Utxo>)
    requires WellFormed(c, results) && multiset(sorted) == multiset(Spendable(c, results))
    ensures forall u :: u in sorted <==> exists x | x in results && x.spendable :: ToUtxo(c, x) == Success(u)
  {
    hide ToUtxo, Spendable, WellFormed;
    forall u ensures u in sorted <==> exists x | x in results && x.spendable :: ToUtxo(c, x) == Success(u) {
      assert u in sorted <==> u in multiset(sorted);
      assert u in Spendable(c, results) <==> u in multiset(Spendable(c, results));
      SpendableExactly(c, results, u);
    }
  }

  /** The whole of funding a payment: the first fault in the order of the checks is returned, and without one the result is
      the builder's, over the spendable outputs sorted largest first. */
  method CreateTransaction(
      c: Conversions, listUnspent: Result<seq<ListUnspentResult>, Error>, outputs: seq<TxOut>, feeRatePerKb: int64,
      changeScript: Result<bytes, Error>, builder: Builder)
    returns (r: Result<MsgTx, Error>, ghost sorted: seq<Utxo>)
    ensures listUnspent.Failure? ==> r == Failure(listUnspent.error)
    ensures listUnspent.Success? && !WellFormed(c, listUnspent.value) ==>
              exists k | 0 <= k < |listUnspent.value| ::
                && listUnspent.value[k].spendable
                && ToUtxo(c, listUnspent.value[k]).Failure? && r == Failure(ToUtxo(c, listUnspent.value[k]).error)
                && forall j | 0 <= j < k && listUnspent.value[j].spendable :: ToUtxo(c, listUnspent.value[j]).Success?
    ensures listUnspent.Success? && WellFormed(c, listUnspent.value) ==>
              && Descending(sorted) && multiset(sorted) == multiset(Spendable(c, listUnspent.value))
              && (forall u :: u in sorted <==> exists x | x in listUnspent.value && x.spendable :: ToUtxo(c, x) == Success(u))
              && r == (if changeScript.Failure? then Failure(changeScript.error)
                       else if sorted == [] then Failure(NO_UTXO)
                       else if outputs == [] then Failure(NO_OUTPUT)
                       else builder.author(outputs, feeRatePerKb, changeScript.value, AllDrawn(sorted, builder.targets)))
  {
    hide ToUtxo, KeptResults;
    sorted := [];
    if listUnspent.Failure? {
      return Failure(listUnspent.error), [];
    }
    var converted := ResultsToUtxos(c, listUnspent.value, true);
    if converted.Failure? {
      return Failure(converted.error), [];
    }
    var utxos := converted.value;
    assert utxos == Spendable(c, listUnspent.value);
    var a := new Utxo[|utxos|](i requires 0 <= i < |utxos| => utxos[i]);
    assert a[..] == utxos;
    SortReverseByAmount(a);
    sorted := a[..];
    SortedExactly(c, listUnspent.value, sorted);
    if changeScript.Failure? {
      return Failure(changeScript.error), sorted;
    }
    r := BuildTxFromOutputs(a[..], outputs, feeRatePerKb, changeScript.value, builder);
  }

  /** The builder spends what it drew last: the inputs of its transaction are those of the last answer. */
  ghost predicate SpendsLastDrawn(builder: Builder, outputs: seq<TxOut>, feeRatePerKb: int64, changeScript: bytes, drawn: seq<Drawn>) {
    var authored := builder.author(outputs, feeRatePerKb, changeScript, drawn);
    authored.Success? ==> drawn != [] && authored.value.txIn == drawn[|drawn| - 1].inputs
  }

  /** An unsigned, final input that spends an output listed as spendable. */
  ghost predicate SpendsListed(c: Conversions, results: seq<ListUnspentResult>, i: TxIn) {
    && i.signatureScript == [] && i.witnessStack == [] && i.sequence == 0xffff_ffff
    && exists x | x in results && x.spendable ::
         c.newHashFromStr(x.txid) == Success(i.previousOutPoint.hash) && x.vout == i.previousOutPoint.index
  }

  /** With such a builder a funded transaction spends spendable wallet outputs only, and none twice. */
  lemma FundedTransactionIsSound(
      c: Conversions, results: seq<ListUnspentResult>, sorted: seq<Utxo>, outputs: seq<TxOut>, feeRatePerKb: int64,
      changeScript: bytes, builder: Builder)
    requires WellFormed(c, results) && DistinctlyListed(c, results)
    requires multiset(sorted) == multiset(Spendable(c, results))
    requires SpendsLastDrawn(builder, outputs, feeRatePerKb, changeScript, AllDrawn(sorted, builder.targets))
    requires builder.author(outputs, feeRatePerKb, changeScript, AllDrawn(sorted, builder.targets)).Success?
    ensures var tx := builder.author(outputs, feeRatePerKb, changeScript, AllDrawn(sorted, builder.targets)).value;
            DistinctInputs(tx.txIn) && forall i | i in tx.txIn :: SpendsListed(c, results, i)
  {
    hide ToUtxo, KeptResults, Selected, RunningTotal, DistinctlyListed, DistinctInputs, Spendable, WellFormed, SpendsListed;
    var targets := builder.targets;
    var tx := builder.author(outputs, feeRatePerKb, changeScript, AllDrawn(sorted, targets)).value;
    var n := Selected(sorted, targets);
    assert tx.txIn == Map(InputOf, sorted[..n]);
    FundingInputsAreDistinct(c, results, sorted, targets);
    SortedExactly(c, results, sorted);
    forall i | i in tx.txIn ensures SpendsListed(c, results, i) {
      var k :| 0 <= k < n && i == InputOf(sorted[k]);
      assert sorted[k] in sorted;
      InputIsListed(c, results, sorted[k]);
    }
  }

  lemma InputIsListed(c: Conversions, results: seq<ListUnspentResult>, u: Utxo)
    requires exists x | x in results && x.spendable :: ToUtxo(c, x) == Success(u)
    ensures SpendsListed(c, results, InputOf(u))
  {
    hide ToUtxo;
    var x :| x in results && x.spendable && ToUtxo(c, x) == Success(u);
    ConversionKeepsOutPoints(c, x);
  }
}
