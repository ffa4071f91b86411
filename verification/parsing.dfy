/** Parsers over byte strings, and what it takes for a parser of lists to undo a writer of lists. */
module Parsing {
  import opened Integers

  datatype Parse<+T> = Malformed | Parsed(value: T, rest: bytes) {
    predicate IsFailure() {
      Malformed?
    }

    function PropagateFailure<U>(): Parse<U>
      requires Malformed?
    {
      Malformed
    }

    function Extract(): (T, bytes)
      requires Parsed?
    {
      (value, rest)
    }
  }

  function Take(n: nat, b: bytes): (r: Parse<bytes>)
    ensures r.Parsed? <==> n <= |b|
    ensures r.Parsed? ==> |r.value| == n && b == r.value + r.rest
  {
    if |b| < n then Malformed else Parsed(b[..n], b[n..])
  }

  lemma TakeExactly(a: bytes, rest: bytes)
    ensures Take(|a|, a + rest) == Parsed(a, rest)
  {
    assert (a + rest)[..|a|] == a && (a + rest)[|a|..] == rest;
  }

  function WriteAll<T>(write: T -> bytes, xs: seq<T>): bytes {
    if xs == [] then [] else write(xs[0]) + WriteAll(write, xs[1..])
  }

  function ReadAll<T>(read: bytes -> Parse<T>, n: nat, b: bytes): (r: Parse<seq<T>>)
    ensures r.Parsed? ==> |r.value| == n
  {
    if n == 0 then Parsed([], b)
    else
      var (x, b) :- read(b);
      var (xs, b) :- ReadAll(read, n - 1, b);
      Parsed([x] + xs, b)
  }

  function Map<T, U>(f: T -> U, xs: seq<T>): (r: seq<U>)
    ensures |r| == |xs| && forall i | 0 <= i < |xs| :: r[i] == f(xs[i])
  {
    seq(|xs|, i requires 0 <= i < |xs| => f(xs[i]))
  }

  /** Reading back one written element yields its `view`. */
  ghost predicate Reads<T(!new), U(!new)>(write: T -> bytes, read: bytes -> Parse<U>, view: T -> U, x: T) {
    forall rest :: read(write(x) + rest) == Parsed(view(x), rest)
  }

  /** Whatever is read as an element was written by one whose view it is. */
  ghost predicate ReadsOnly<U(!new)>(write: U -> bytes, read: bytes -> Parse<U>) {
    forall b :: read(b).Parsed? ==> b == write(read(b).value) + read(b).rest
  }

  lemma {:induction false} ReadAllOfWriteAll<T(!new), U(!new)>(
      write: T -> bytes, read: bytes -> Parse<U>, view: T -> U, xs: seq<T>, rest: bytes)
    requires forall i | 0 <= i < |xs| :: Reads(write, read, view, xs[i])
    ensures ReadAll(read, |xs|, WriteAll(write, xs) + rest) == Parsed(Map(view, xs), rest)
  {
    if xs == [] {
      assert WriteAll(write, xs) + rest == rest;
    } else {
      var tail := WriteAll(write, xs[1..]) + rest;
      ReadAllOfWriteAll(write, read, view, xs[1..], rest);
      assert Reads(write, read, view, xs[0]);
      assert WriteAll(write, xs) + rest == write(xs[0]) + tail;
      assert Map(view, xs) == [view(xs[0])] + Map(view, xs[1..]);
    }
  }

  lemma {:induction false} WriteAllOfReadAll<U(!new)>(write: U -> bytes, read: bytes -> Parse<U>, n: nat, b: bytes)
    requires ReadsOnly(write, read)
    requires ReadAll(read, n, b).Parsed?
    ensures b == WriteAll(write, ReadAll(read, n, b).value) + ReadAll(read, n, b).rest
  {
    if n > 0 {
      var first := read(b);
      WriteAllOfReadAll(write, read, n - 1, first.rest);
      var all := ReadAll(read, n, b);
      assert all.value[1..] == ReadAll(read, n - 1, first.rest).value;
    }
  }

  /** A writer that looks only at the view writes the same bytes for the views. */
  lemma {:induction false} WriteAllOfViews<T>(write: T -> bytes, view: T -> T, xs: seq<T>)
    requires forall x :: write(view(x)) == write(x)
    ensures WriteAll(write, Map(view, xs)) == WriteAll(write, xs)
  {
    if xs != [] {
      WriteAllOfViews(write, view, xs[1..]);
      assert Map(view, xs)[1..] == Map(view, xs[1..]);
    }
  }
}
