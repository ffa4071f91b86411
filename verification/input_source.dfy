/** The stateful source of inputs, and what its greedy order is good for. */
module InputSources {
  import opened Bitcoin
  import opened CoinSelection
  import opened Integers
  import opened Parsing

  function InputOf(u: Utxo): TxIn {
    NewTxIn(u.outPoint)
  }

  function ValueOf(u: Utxo): int64 {
    u.amount
  }

  function ScriptOf(u: Utxo): bytes {
    u.pkScript
  }

  /** The `int64` running total of the first `n` outputs, wrap-around included. */
  function RunningTotal(utxos: seq<Utxo>, n: nat): int64
    requires n <= |utxos|
  {
    if n == 0 then 0 else ToInt64(RunningTotal(utxos, n - 1) + utxos[n - 1].amount)
  }

  /** The least prefix, of `from` outputs or more, whose running total reaches `target`; all of them if none does. */
  function FirstReaching(utxos: seq<Utxo>, target: int64, from: nat): (n: nat)
    requires from <= |utxos|
    ensures from <= n <= |utxos|
    ensures forall j | from <= j < n :: RunningTotal(utxos, j) < target
    ensures n < |utxos| ==> RunningTotal(utxos, n) >= target
    decreases |utxos| - from
  {
    if RunningTotal(utxos, from) >= target || from == |utxos| then from else FirstReaching(utxos, target, from + 1)
  }

  function Max(s: seq<int64>): int64
    requires s != []
  {
    if |s| == 1 then s[0]
    else
      var m := Max(s[..|s| - 1]);
      if s[|s| - 1] > m then s[|s| - 1] else m
  }

  /** How many outputs are consumed after the targets `asked`, in whatever order they came: as many as the greatest
      of them needs. */
  function Selected(utxos: seq<Utxo>, asked: seq<int64>): (n: nat)
    ensures n <= |utxos|
  {
    if asked == [] then 0 else FirstReaching(utxos, Max(asked), 0)
  }

  lemma {:induction false} SkipShortPrefixes(utxos: seq<Utxo>, target: int64, from: nat, n: nat)
    requires from <= n <= |utxos| && forall j | from <= j < n :: RunningTotal(utxos, j) < target
    ensures FirstReaching(utxos, target, from) == FirstReaching(utxos, target, n)
    decreases n - from
  {
    if from < n {
      SkipShortPrefixes(utxos, target, from + 1, n);
    }
  }

  /** Going on from where the earlier targets led gives what the greatest target alone would have given. */
  lemma OneMoreTarget(utxos: seq<Utxo>, asked: seq<int64>, target: int64)
    ensures Selected(utxos, asked + [target]) == FirstReaching(utxos, target, Selected(utxos, asked))
  {
    var all := asked + [target];
    assert all[..|all| - 1] == asked;
    if asked != [] {
      var m, n := Max(asked), Selected(utxos, asked);
      if target > m {
        SkipShortPrefixes(utxos, target, 0, n);
      }
    }
  }

  lemma OneMoreConsumed(all: seq<Utxo>, n: nat, target: int64)
    requires n < |all| && RunningTotal(all, n) < target
    ensures Map(InputOf, all[..n + 1]) == Map(InputOf, all[..n]) + [InputOf(all[n])]
    ensures Map(ScriptOf, all[..n + 1]) == Map(ScriptOf, all[..n]) + [ScriptOf(all[n])]
    ensures Map(ValueOf, all[..n + 1]) == Map(ValueOf, all[..n]) + [ValueOf(all[n])]
    ensures all[n..][0] == all[n] && all[n..][1..] == all[n + 1..]
    ensures RunningTotal(all, n + 1) == ToInt64(RunningTotal(all, n) + all[n].amount)
    ensures FirstReaching(all, target, n) == FirstReaching(all, target, n + 1)
  {
  }

  lemma NoMoreNeeded(all: seq<Utxo>, n: nat, target: int64)
    requires n <= |all| && (RunningTotal(all, n) >= target || n == |all|)
    ensures FirstReaching(all, target, n) == n
  {
  }

  lemma {:induction false} MaxIsGreatest(s: seq<int64>)
    requires s != []
    ensures Max(s) in s && forall t | t in s :: t <= Max(s)
  {
    if |s| > 1 {
      MaxIsGreatest(s[..|s| - 1]);
      assert s == s[..|s| - 1] + [s[|s| - 1]];
    }
  }

  /** What is consumed, said without the greatest target: every shorter prefix misses one of the targets, and unless
      everything is consumed none is missed. */
  lemma SelectedExactly(utxos: seq<Utxo>, asked: seq<int64>)
    ensures var n := Selected(utxos, asked);
            && (forall j | 0 <= j < n :: exists t | t in asked :: RunningTotal(utxos, j) < t)
            && (n < |utxos| ==> forall t | t in asked :: RunningTotal(utxos, n) >= t)
  {
    if asked != [] {
      MaxIsGreatest(asked);
    }
  }

  /** The answer for some outputs: an unsigned final input, the amount and the script of each, at its place, and the sum of the
      amounts as far as `int64` goes. */
  ghost predicate HandsOut(outputs: seq<Utxo>, total: int64, inputs: seq<TxIn>, values: seq<int64>, scripts: seq<bytes>) {
    && |inputs| == |values| == |scripts| == |outputs|
    && (forall i | 0 <= i < |outputs| ::
          && inputs[i] == TxIn(outputs[i].outPoint, [], [], 0xffff_ffff)
          && values[i] == outputs[i].amount
          && scripts[i] == outputs[i].pkScript)
    && total == ToInt64(SumOf(values))
  }

  function SumOf(values: seq<int64>): int {
    if values == [] then 0 else values[0] + SumOf(values[1..])
  }

  lemma {:induction false} SumOfValues(outputs: seq<Utxo>)
    ensures SumOf(Map(ValueOf, outputs)) == Sum(outputs)
  {
    if outputs != [] {
      SumOfValues(outputs[1..]);
      assert Map(ValueOf, outputs)[1..] == Map(ValueOf, outputs[1..]);
    }
  }

  lemma HandsOutPrefix(all: seq<Utxo>, n: nat)
    requires n <= |all|
    ensures HandsOut(all[..n], RunningTotal(all, n), Map(InputOf, all[..n]), Map(ValueOf, all[..n]), Map(ScriptOf, all[..n]))
  {
    hide RunningTotal, ToInt64, Sum, SumOf;
    RunningTotalIsSum(all, n);
    SumOfValues(all[..n]);
  }

  class InputSource {
    ghost const all: seq<Utxo>
    ghost var asked: seq<int64>
    var currentTotal: int64
    var utxos: seq<Utxo>
    var currentInputs: seq<TxIn>
    var currentScripts: seq<bytes>
    var currentInputValues: seq<int64>

    /** The first `n` outputs are consumed, the others remain, and the four accumulators describe the consumed ones. */
    ghost predicate Consumed(n: nat)
      reads this
    {
      && n <= |all|
      && utxos == all[n..]
      && currentTotal == RunningTotal(all, n)
      && currentInputs == Map(InputOf, all[..n])
      && currentScripts == Map(ScriptOf, all[..n])
      && currentInputValues == Map(ValueOf, all[..n])
    }

    ghost predicate Valid()
      reads this
    {
      Consumed(Selected(all, asked))
    }

    constructor (utxos: seq<Utxo>)
      ensures Valid() && all == utxos && asked == []
    {
      this.all := utxos;
      this.asked := [];
      this.currentTotal := 0;
      this.utxos := utxos;
      this.currentInputs := [];
      this.currentScripts := [];
      this.currentInputValues := [];
    }

    method Next(target: int64) returns (total: int64, inputs: seq<TxIn>, values: seq<int64>, scripts: seq<bytes>)
      requires Valid()
      modifies this
      ensures Valid() && asked == old(asked) + [target]
      ensures total == RunningTotal(all, Selected(all, asked))
      ensures inputs == Map(InputOf, all[..Selected(all, asked)])
      ensures values == Map(ValueOf, all[..Selected(all, asked)])
      ensures scripts == Map(ScriptOf, all[..Selected(all, asked)])
      ensures HandsOut(all[..Selected(all, asked)], total, inputs, values, scripts)
    {
      hide RunningTotal, FirstReaching, Selected, Map, ToInt64, HandsOut;
      ghost var n: nat := Selected(all, asked);
      OneMoreTarget(all, asked, target);
      while currentTotal < target && |utxos| != 0
        invariant Consumed(n)
        invariant asked == old(asked)
        invariant FirstReaching(all, target, n) == Selected(all, asked + [target])
        decreases |utxos|
      {
        OneMoreConsumed(all, n, target);
        var nextCredit := utxos[0];
        utxos := utxos[1..];
        var nextInput := NewTxIn(nextCredit.outPoint);
        currentTotal := ToInt64(currentTotal + nextCredit.amount);
        currentInputs := currentInputs + [nextInput];
        currentScripts := currentScripts + [nextCredit.pkScript];
        currentInputValues := currentInputValues + [nextCredit.amount];
        n := n + 1;
      }
      NoMoreNeeded(all, n, target);
      asked := asked + [target];
      HandsOutPrefix(all, Selected(all, asked));
      return currentTotal, currentInputs, currentInputValues, currentScripts;
    }
  }

  // ---------- Sums ----------

  function Sum(utxos: seq<Utxo>): int {
    if utxos == [] then 0 else utxos[0].amount + Sum(utxos[1..])
  }

  lemma {:induction false} SumOfAppend(a: seq<Utxo>, u: Utxo)
    ensures Sum(a + [u]) == Sum(a) + u.amount
  {
    if a == [] {
      assert a + [u] == [u];
    } else {
      assert (a + [u])[1..] == a[1..] + [u];
      SumOfAppend(a[1..], u);
    }
  }

  /** The running total is the sum, up to wrap-around. */
  lemma {:induction false} RunningTotalIsSum(utxos: seq<Utxo>, n: nat)
    requires n <= |utxos|
    ensures RunningTotal(utxos, n) == ToInt64(Sum(utxos[..n]))
  {
    if n > 0 {
      RunningTotalIsSum(utxos, n - 1);
      assert utxos[..n] == utxos[..n - 1] + [utxos[n - 1]];
      SumOfAppend(utxos[..n - 1], utxos[n - 1]);
      WrapTwice(Sum(utxos[..n - 1]), utxos[n - 1].amount);
    }
  }

  lemma WrapTwice(x: int, y: int)
    ensures ToInt64(ToInt64(x) + y) == ToInt64(x + y)
  {
  }

  /** No running total leaves `int64`, as with amounts that add up to at most the coin supply. */
  ghost predicate TotalsFit(utxos: seq<Utxo>) {
    forall n: nat | n <= |utxos| :: FitsInt64(Sum(utxos[..n]))
  }

  /** The source counts right exactly when no total leaves `int64`. */
  lemma TotalsExactly(utxos: seq<Utxo>)
    ensures TotalsFit(utxos) <==> forall n: nat | n <= |utxos| :: RunningTotal(utxos, n) == Sum(utxos[..n])
  {
    hide RunningTotal, Sum, ToInt64, FitsInt64;
    forall n: nat | n <= |utxos|
      ensures FitsInt64(Sum(utxos[..n])) <==> RunningTotal(utxos, n) == Sum(utxos[..n])
    {
      RunningTotalIsSum(utxos, n);
      FitsExactly(Sum(utxos[..n]));
    }
  }

  lemma FitsExactly(x: int)
    ensures FitsInt64(x) <==> ToInt64(x) == x
  {
  }

  /** When totals leave `int64` greed can fail: two outputs worth 2^63 together do not reach a target of 2^62 + 1. */
  lemma WrappedTotalFallsShort(u: Utxo)
    requires u.amount == 0x4000_0000_0000_0000
    ensures Sum([u, u]) >= u.amount + 1 > RunningTotal([u, u], FirstReaching([u, u], u.amount + 1, 0))
  {
    assert Sum([u, u]) == u.amount + Sum([u]) == u.amount + u.amount;
    assert RunningTotal([u, u], 1) == u.amount;
    assert RunningTotal([u, u], 2) == ToInt64(u.amount + u.amount) < 0;
    assert RunningTotal([u, u], 0) == 0;
  }

  lemma {:induction false} SumWithout(utxos: seq<Utxo>, i: nat)
    requires i < |utxos|
    ensures Sum(utxos) == utxos[i].amount + Sum(utxos[..i] + utxos[i + 1..])
  {
    if i > 0 {
      SumWithout(utxos[1..], i - 1);
      assert (utxos[..i] + utxos[i + 1..])[1..] == utxos[1..][..i - 1] + utxos[1..][i..];
    } else {
      assert utxos[..0] + utxos[1..] == utxos[1..];
    }
  }

  lemma {:induction false} SumIsMonotonic(a: seq<Utxo>, b: seq<Utxo>)
    requires |a| == |b| && forall i | 0 <= i < |a| :: a[i].amount <= b[i].amount
    ensures Sum(a) <= Sum(b)
  {
    if a != [] {
      SumIsMonotonic(a[1..], b[1..]);
    }
  }

  lemma MultisetWithout(utxos: seq<Utxo>, i: nat)
    requires i < |utxos|
    ensures multiset(utxos) == multiset{utxos[i]} + multiset(utxos[..i] + utxos[i + 1..])
  {
    assert utxos == utxos[..i] + [utxos[i]] + utxos[i + 1..];
  }

  lemma RemoveFromBoth<T>(x: T, a: multiset<T>, b: multiset<T>)
    requires multiset{x} + a <= multiset{x} + b
    ensures a <= b
  {
    forall y ensures a[y] <= b[y] {
      assert (multiset{x} + a)[y] <= (multiset{x} + b)[y];
    }
  }

  lemma PickWithout(all: seq<Utxo>, pick: seq<Utxo>, i: nat)
    requires all != [] && i < |pick| && pick[i] == all[0] && multiset(pick) <= multiset(all)
    ensures multiset(pick[..i] + pick[i + 1..]) <= multiset(all[1..])
  {
    var rest, others := all[1..], pick[..i] + pick[i + 1..];
    assert all == [all[0]] + rest;
    MultisetWithout(pick, i);
    RemoveFromBoth(all[0], multiset(others), multiset(rest));
  }

  lemma PickBelowTop(all: seq<Utxo>, pick: seq<Utxo>)
    requires all != [] && all[0] !in pick && multiset(pick) <= multiset(all)
    ensures multiset(pick) <= multiset(all[1..])
  {
    assert all == [all[0]] + all[1..];
    assert all[0] !in multiset(pick);
  }

  lemma PickIsNoLonger(all: seq<Utxo>, pick: seq<Utxo>)
    requires multiset(pick) <= multiset(all)
    ensures |pick| <= |all|
  {
    assert multiset(all) == multiset(pick) + (multiset(all) - multiset(pick));
    assert |pick| == |multiset(pick)| <= |multiset(all)| == |all|;
  }

  lemma SumOfTop(all: seq<Utxo>, k: nat)
    requires 0 < k <= |all|
    ensures Sum(all[..k]) == all[0].amount + Sum(all[1..][..k - 1])
  {
    assert all[..k][1..] == all[1..][..k - 1];
  }

  lemma ShiftedSum(all: seq<Utxo>, k: nat)
    requires Descending(all) && k < |all|
    ensures Sum(all[1..][..k]) <= Sum(all[..k])
  {
    SumIsMonotonic(all[1..][..k], all[..k]);
  }

  /** Any choice of outputs is worth at most as much as equally many of the largest: those the order puts first. */
  lemma {:induction false} LargestFirst(all: seq<Utxo>, pick: seq<Utxo>)
    requires Descending(all) && multiset(pick) <= multiset(all)
    ensures |pick| <= |all| && Sum(pick) <= Sum(all[..|pick|])
    decreases |all|
  {
    PickIsNoLonger(all, pick);
    if pick != [] {
      assert Descending(all[1..]);
      hide Descending;
      if i :| 0 <= i < |pick| && pick[i] == all[0] {
        PickWithout(all, pick, i);
        SumWithout(pick, i);
        LargestFirst(all[1..], pick[..i] + pick[i + 1..]);
        SumOfTop(all, |pick|);
      } else {
        PickBelowTop(all, pick);
        LargestFirst(all[1..], pick);
        ShiftedSum(all, |pick|);
      }
    }
  }

  // ---------- Greedy selection ----------

  /** `k` is the least number of outputs, from the front, that are worth `target`. */
  ghost predicate Shortest(all: seq<Utxo>, target: int64, k: nat) {
    k <= |all| && Sum(all[..k]) >= target && forall j: nat | j < k :: Sum(all[..j]) < target
  }

  lemma {:induction false} ShortestOrNone(all: seq<Utxo>, target: int64, m: nat) returns (k: nat)
    requires m <= |all|
    ensures (k <= m && Shortest(all, target, k)) || forall j: nat | j <= m :: Sum(all[..j]) < target
  {
    k := 0;
    if m > 0 {
      k := ShortestOrNone(all, target, m - 1);
      if forall j: nat | j <= m - 1 :: Sum(all[..j]) < target {
        k := m;
      }
    }
  }

  lemma SumOfNext(all: seq<Utxo>, j: nat)
    requires j < |all|
    ensures Sum(all[..j + 1]) == Sum(all[..j]) + all[j].amount
  {
    assert all[..j + 1] == all[..j] + [all[j]];
    SumOfAppend(all[..j], all[j]);
  }

  lemma {:induction false} SumsGrow(all: seq<Utxo>, j: nat, k: nat)
    requires j <= k <= |all| && forall i | j <= i < k :: all[i].amount >= 0
    ensures Sum(all[..j]) <= Sum(all[..k])
    decreases k
  {
    hide Sum;
    if j < k {
      SumsGrow(all, j, k - 1);
      SumOfNext(all, k - 1);
    }
  }

  /** Up to the shortest sufficient prefix of a sorted list amounts are not negative, so totals below it are exact. */
  lemma BelowShortest(all: seq<Utxo>, target: int64, k: nat, j: nat)
    requires Descending(all) && Shortest(all, target, k) && j < k
    ensures 0 <= Sum(all[..j]) < target && RunningTotal(all, j) == Sum(all[..j])
  {
    hide RunningTotal;
    SumOfNext(all, k - 1);
    assert Sum(all[..k - 1]) < target;
    SumsGrow(all, 0, j);
    RunningTotalIsSum(all, j);
  }

  /** The total of the shortest sufficient prefix is seen to suffice unless it leaves `int64`, and then it turns negative. */
  lemma AtShortest(all: seq<Utxo>, target: int64, k: nat)
    requires Descending(all) && Shortest(all, target, k)
    ensures if FitsInt64(Sum(all[..k])) then RunningTotal(all, k) == Sum(all[..k]) else RunningTotal(all, k) < target
  {
    hide RunningTotal, Descending;
    RunningTotalIsSum(all, k);
    if k > 0 {
      SumOfNext(all, k - 1);
      BelowShortest(all, target, k, k - 1);
    }
  }

  /** No choice of outputs, of whatever composition, reaches the target with fewer inputs than the source, or where the
      source does not. */
  ghost predicate Optimal(all: seq<Utxo>, target: int64) {
    var n := FirstReaching(all, target, 0);
    forall pick: seq<Utxo> | multiset(pick) <= multiset(all) && Sum(pick) >= target ::
      n <= |pick| && RunningTotal(all, n) >= target
  }

  /** Greedy selection is optimal exactly when the outputs it needs are worth no more than `int64` holds. */
  lemma GreedyIsOptimal(all: seq<Utxo>, target: int64)
    requires Descending(all)
    ensures Optimal(all, target) <==> forall k: nat | Shortest(all, target, k) :: FitsInt64(Sum(all[..k]))
  {
    hide RunningTotal, Descending, Sum, FitsInt64;
    var k := ShortestOrNone(all, target, |all|);
    if Shortest(all, target, k) {
      if FitsInt64(Sum(all[..k])) {
        ShortestIsOptimal(all, target, k);
      } else {
        WrappedIsNotOptimal(all, target, k);
      }
    } else {
      forall pick: seq<Utxo> | multiset(pick) <= multiset(all) ensures Sum(pick) < target {
        LargestFirst(all, pick);
      }
    }
  }

  lemma ShortestIsOptimal(all: seq<Utxo>, target: int64, k: nat)
    requires Descending(all) && Shortest(all, target, k) && FitsInt64(Sum(all[..k]))
    ensures FirstReaching(all, target, 0) == k && Optimal(all, target)
  {
    hide RunningTotal, Descending, Sum, FitsInt64;
    var n := FirstReaching(all, target, 0);
    AtShortest(all, target, k);
    if n < k {
      BelowShortest(all, target, k, n);
    }
    forall pick: seq<Utxo> | multiset(pick) <= multiset(all) && Sum(pick) >= target ensures k <= |pick| {
      LargestFirst(all, pick);
    }
  }

  lemma WrappedIsNotOptimal(all: seq<Utxo>, target: int64, k: nat)
    requires Descending(all) && Shortest(all, target, k) && !FitsInt64(Sum(all[..k]))
    ensures !Optimal(all, target)
  {
    hide RunningTotal, Descending, Sum, FitsInt64;
    var n := FirstReaching(all, target, 0);
    AtShortest(all, target, k);
    if n < k {
      BelowShortest(all, target, k, n);
    }
    assert all == all[..k] + all[k..];
    assert multiset(all[..k]) <= multiset(all);
  }

  /** The source reaches a target exactly when the wrapped sum of some prefix does. */
  lemma ReachesExactly(all: seq<Utxo>, target: int64)
    ensures RunningTotal(all, FirstReaching(all, target, 0)) >= target
       <==> exists j: nat :: j <= |all| && ToInt64(Sum(all[..j])) >= target
  {
    hide Sum, ToInt64, RunningTotal;
    forall j: nat | j <= |all| ensures RunningTotal(all, j) == ToInt64(Sum(all[..j])) {
      RunningTotalIsSum(all, j);
    }
  }

  /** Some choice of outputs reaches a target exactly when a prefix of the sorted list does. */
  lemma PrefixesSuffice(all: seq<Utxo>, target: int64)
    requires Descending(all)
    ensures (exists pick: seq<Utxo> :: multiset(pick) <= multiset(all) && Sum(pick) >= target)
       <==> exists j: nat :: j <= |all| && Sum(all[..j]) >= target
  {
    hide Descending, Sum;
    if pick: seq<Utxo> :| multiset(pick) <= multiset(all) && Sum(pick) >= target {
      LargestFirst(all, pick);
      assert Sum(all[..|pick|]) >= target;
    }
    if j: nat :| j <= |all| && Sum(all[..j]) >= target {
      assert all == all[..j] + all[j..];
      assert multiset(all[..j]) <= multiset(all);
    }
  }

  ghost predicate FallsShort(all: seq<Utxo>, target: int64) {
    RunningTotal(all, FirstReaching(all, target, 0)) < target
  }

  /** Every choice of outputs is worth less than the target. */
  ghost predicate CannotPay(all: seq<Utxo>, target: int64) {
    forall pick: seq<Utxo> | multiset(pick) <= multiset(all) :: Sum(pick) < target
  }

  /** With amounts that are not negative, a target out of reach is never said to be reached; and falling short means that it
      is out of reach exactly when the shortest sufficient prefix, or one beyond it, is seen to suffice. In particular
      it does when the former fits `int64`. */
  lemma ExhaustionIsDefinitive(all: seq<Utxo>, target: int64)
    requires Descending(all) && forall u | u in all :: u.amount >= 0
    ensures CannotPay(all, target) ==> FallsShort(all, target)
    ensures (FallsShort(all, target) <==> CannotPay(all, target))
       <==> forall k: nat | Shortest(all, target, k) :: exists j: nat :: k <= j <= |all| && ToInt64(Sum(all[..j])) >= target
    ensures (forall k: nat | Shortest(all, target, k) :: FitsInt64(Sum(all[..k]))) ==> (FallsShort(all, target) <==> CannotPay(all, target))
  {
    hide RunningTotal, Descending, Sum, FitsInt64, ToInt64, FirstReaching;
    ReachesExactly(all, target);
    PrefixesSuffice(all, target);
    var k := ShortestOrNone(all, target, |all|);
    if Shortest(all, target, k) {
      assert !CannotPay(all, target);
      ReachesFromShortest(all, target, k);
    } else {
      assert CannotPay(all, target);
      SmallSumsAreExact(all, target);
    }
  }

  lemma ReachesFromShortest(all: seq<Utxo>, target: int64, k: nat)
    requires Descending(all) && Shortest(all, target, k)
    ensures forall j: nat | j < k :: ToInt64(Sum(all[..j])) < target
    ensures FitsInt64(Sum(all[..k])) ==> ToInt64(Sum(all[..k])) >= target
  {
    hide RunningTotal, Descending, Sum;
    forall j: nat | j < k ensures ToInt64(Sum(all[..j])) < target {
      BelowShortest(all, target, k, j);
    }
  }

  lemma SmallSumsAreExact(all: seq<Utxo>, target: int64)
    requires forall u | u in all :: u.amount >= 0
    requires forall j: nat | j <= |all| :: Sum(all[..j]) < target
    ensures forall j: nat | j <= |all| :: ToInt64(Sum(all[..j])) == Sum(all[..j])
  {
    assert Sum(all[..0]) == 0;
    hide Sum;
    forall j: nat | j <= |all| ensures ToInt64(Sum(all[..j])) == Sum(all[..j]) {
      SumsGrow(all, 0, j);
    }
  }

  // ---------- Repeated asking ----------

  /** The total returned for the `i`-th target. */
  function Answer(all: seq<Utxo>, asked: seq<int64>, i: nat): int64
    requires i < |asked|
  {
    RunningTotal(all, Selected(all, asked[..i + 1]))
  }

  /** Each target after the first lies above the total returned before it, and no answer so far was short. */
  ghost predicate Insists(all: seq<Utxo>, asked: seq<int64>) {
    && (forall i | 0 < i < |asked| :: asked[i] > Answer(all, asked, i - 1))
    && (forall i | 0 <= i < |asked| :: Answer(all, asked, i) >= asked[i])
  }

  /** A caller who insists consumes a new output each time, so it can do so at most once more than there are
      outputs, and at most as often as there are if its first target is positive. */
  lemma {:induction false} InsistingEnds(all: seq<Utxo>, asked: seq<int64>)
    requires Insists(all, asked)
    ensures |asked| <= Selected(all, asked) + 1 <= |all| + 1
    ensures asked != [] && asked[0] > 0 ==> |asked| <= Selected(all, asked)
  {
    if asked != [] {
      var m := |asked| - 1;
      var before := asked[..m];
      InsistedBefore(all, asked);
      InsistingEnds(all, before);
      OneMoreTarget(all, before, asked[m]);
      hide Insists;
    }
  }

  lemma InsistedBefore(all: seq<Utxo>, asked: seq<int64>)
    requires Insists(all, asked) && asked != []
    ensures var m := |asked| - 1;
            && asked == asked[..m] + [asked[m]]
            && Insists(all, asked[..m])
            && RunningTotal(all, Selected(all, asked)) >= asked[m]
            && (m > 0 ==> asked[m] > RunningTotal(all, Selected(all, asked[..m])))
  {
    hide Selected, RunningTotal;
    var m := |asked| - 1;
    var before := asked[..m];
    forall i | 0 <= i < m ensures Answer(all, before, i) == Answer(all, asked, i) {
      assert before[..i + 1] == asked[..i + 1];
    }
    assert asked[..m + 1] == asked;
    assert Answer(all, asked, m) >= asked[m];
    if m > 0 {
      assert asked[..(m - 1) + 1] == before;
      assert asked[m] > Answer(all, asked, m - 1);
    }
  }
}
