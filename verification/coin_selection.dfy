/** Choosing the wallet outputs that fund a transaction: conversion, largest-first order, and the stateful source
    of inputs that the transaction builder draws from. */
module CoinSelection {
  import opened Bitcoin
  import opened Errors
  import opened Hex
  import opened Integers
  import opened Wrappers

  datatype ListUnspentResult = ListUnspentResult(
    txid: string, vout: uint32, address: string, scriptPubKey: string, redeemScript: string, amount: real, spendable: bool)

  datatype Utxo = Utxo(amount: int64, outPoint: OutPoint, pkScript: bytes, redeemScript: bytes, address: string)

  /** The library conversions of amounts and transaction ids. */
  datatype Conversions = Conversions(newAmount: real -> Result<int64, Error>, newHashFromStr: string -> Result<Hash, Error>)

  // ---------- Conversion ----------

  function ToUtxo(c: Conversions, result: ListUnspentResult): Result<Utxo, Error> {
    var amount :- c.newAmount(result.amount);
    var hash :- c.newHashFromStr(result.txid);
    match (DecodeString(result.scriptPubKey), DecodeString(result.redeemScript))
    case (Some(script), Some(redeemScript)) =>
      Success(Utxo(amount, OutPoint(hash, result.vout), script, redeemScript, result.address))
    case _ => Failure(Errorf("encoding/hex"))
  }

  /** What a well-formed result becomes, field by field, and which results are well formed. */
  lemma ConvertsExactly(c: Conversions, result: ListUnspentResult, u: Utxo)
    ensures ToUtxo(c, result) == Success(u)
       <==> && c.newAmount(result.amount) == Success(u.amount)
            && c.newHashFromStr(result.txid) == Success(u.outPoint.hash) && u.outPoint.index == result.vout
            && EncodeToString(u.pkScript) == LowerCase(result.scriptPubKey)
            && EncodeToString(u.redeemScript) == LowerCase(result.redeemScript)
            && u.address == result.address
  {
    hide DecodeString, EncodeToString, LowerCase;
    DecodesExactly(result.scriptPubKey, u.pkScript);
    DecodesExactly(result.redeemScript, u.redeemScript);
  }

  predicate Kept(onlySpendable: bool, result: ListUnspentResult) {
    !onlySpendable || result.spendable
  }

  /** The results that are looked at, in order. */
  function KeptResults(onlySpendable: bool, results: seq<ListUnspentResult>): seq<ListUnspentResult> {
    if results == [] then []
    else
      var last := results[|results| - 1];
      KeptResults(onlySpendable, results[..|results| - 1]) + (if Kept(onlySpendable, last) then [last] else [])
  }

  /** Fails exactly when a result that is kept is malformed, with the error of the first such; results that are
      skipped are never looked at. Otherwise converts the kept results in order. */
  method ResultsToUtxos(c: Conversions, results: seq<ListUnspentResult>, onlySpendable: bool) returns (r: Result<seq<Utxo>, Error>)
    ensures r.Success? <==> forall x | x in KeptResults(onlySpendable, results) :: ToUtxo(c, x).Success?
    ensures r.Success? ==>
              && |r.value| == |KeptResults(onlySpendable, results)|
              && forall i | 0 <= i < |r.value| :: ToUtxo(c, KeptResults(onlySpendable, results)[i]) == Success(r.value[i])
    ensures r.Failure? ==>
              exists k | 0 <= k < |results| ::
                && (!onlySpendable || results[k].spendable) && ToUtxo(c, results[k]) == Failure(r.error)
                && forall j | 0 <= j < k && (!onlySpendable || results[j].spendable) :: ToUtxo(c, results[j]).Success?
  {
    hide ToUtxo;
    var utxos := [];
    for i := 0 to |results|
      invariant |utxos| == |KeptResults(onlySpendable, results[..i])|
      invariant forall k | 0 <= k < |utxos| :: ToUtxo(c, KeptResults(onlySpendable, results[..i])[k]) == Success(utxos[k])
      invariant forall j | 0 <= j < i && Kept(onlySpendable, results[j]) :: ToUtxo(c, results[j]).Success?
    {
      assert results[..i + 1][..i] == results[..i];
      if onlySpendable && !results[i].spendable {
        continue;
      }
      var utxo := ToUtxo(c, results[i]);
      if utxo.Failure? {
        KeptIsKept(onlySpendable, results, i);
        return Failure(utxo.error);
      }
      utxos := utxos + [utxo.value];
    }
    assert results[..|results|] == results;
    return Success(utxos);
  }

  lemma {:induction false} KeptIsKept(onlySpendable: bool, results: seq<ListUnspentResult>, k: nat)
    requires k < |results| && Kept(onlySpendable, results[k])
    ensures results[k] in KeptResults(onlySpendable, results)
  {
    var n := |results| - 1;
    if k < n {
      KeptIsKept(onlySpendable, results[..n], k);
    }
  }

  /** The filter keeps everything when it is off, and exactly the spendable results, as often as they are listed and in their
      order, when it is on. */
  lemma {:induction false} KeptExactly(results: seq<ListUnspentResult>)
    ensures KeptResults(false, results) == results
    ensures forall x :: multiset(KeptResults(true, results))[x] == if x.spendable then multiset(results)[x] else 0
    ensures forall x :: x in KeptResults(true, results) <==> x in results && x.spendable
  {
    if results != [] {
      var n := |results| - 1;
      KeptExactly(results[..n]);
      assert results == results[..n] + [results[n]];
    }
  }

  lemma {:induction false} KeptInOrder(a: seq<ListUnspentResult>, b: seq<ListUnspentResult>)
    ensures KeptResults(true, a + b) == KeptResults(true, a) + KeptResults(true, b)
  {
    if b == [] {
      assert a + b == a;
    } else {
      var n := |b| - 1;
      KeptInOrder(a, b[..n]);
      assert (a + b)[..|a + b| - 1] == a + b[..n];
    }
  }

  // ---------- Order ----------

  predicate Descending(utxos: seq<Utxo>) {
    forall i, j | 0 <= i < j < |utxos| :: utxos[i].amount >= utxos[j].amount
  }

  /** `byAmount.Less`, and the same through `sort.Reverse`. */
  predicate Less(a: Utxo, b: Utxo) {
    a.amount < b.amount
  }

  predicate ReverseLess(a: Utxo, b: Utxo) {
    Less(b, a)
  }

  method Swap(a: array<Utxo>, i: nat, j: nat)
    requires i < a.Length && j < a.Length
    modifies a
    ensures a[..] == old(a[..])[i := old(a[j])][j := old(a[i])]
    ensures multiset(a[..]) == multiset(old(a[..]))
  {
    a[i], a[j] := a[j], a[i];
  }

  /** An in-place sort through `Less` and `Swap` only: insertion of each element into the sorted part before it. */
  method SortReverseByAmount(a: array<Utxo>)
    modifies a
    ensures Descending(a[..])
    ensures multiset(a[..]) == multiset(old(a[..]))
  {
    for i := 0 to a.Length
      invariant Descending(a[..i])
      invariant multiset(a[..]) == multiset(old(a[..]))
    {
      var j := i;
      while j > 0 && ReverseLess(a[j], a[j - 1])
        invariant 0 <= j <= i
        invariant multiset(a[..]) == multiset(old(a[..]))
        invariant forall p, q | 0 <= p < q <= i && p != j && q != j :: a[p].amount >= a[q].amount
        invariant forall q | j < q <= i :: a[j].amount > a[q].amount
      {
        Swap(a, j, j - 1);
        j := j - 1;
      }
    }
    assert a[..a.Length] == a[..];
  }
}
