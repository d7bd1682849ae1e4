/** Optional values, letter case, and sums over sequences: the vocabulary shared by every component. */
module Prelude {
  datatype Option<+T> = None | Some(value: T)

  function GetOr<T>(o: Option<T>, default: T): T {
    match o
    case Some(v) => v
    case None => default
  }

  function Min(a: int, b: int): int { if a <= b then a else b }

  function Max(a: int, b: int): int { if a >= b then a else b }

  function Abs(x: int): int { if x < 0 then -x else x }

  function LowerChar(c: char): char {
    if 'A' <= c <= 'Z' then (c as int + 32) as char else c
  }

  function Lower(s: string): string { seq(|s|, i requires 0 <= i < |s| => LowerChar(s[i])) }

  /** One letter is the other, or its capital. */
  predicate SameLetter(c: char, d: char) {
    || c == d
    || ('A' <= c <= 'Z' && c as int + 32 == d as int)
    || ('A' <= d <= 'Z' && d as int + 32 == c as int)
  }

  /** The same word in any letter case. */
  predicate SameWord(a: string, b: string) {
    |a| == |b| && forall i :: 0 <= i < |a| ==> SameLetter(a[i], b[i])
  }

  lemma LowerSame(a: string, b: string)
    ensures Lower(a) == Lower(b) <==> SameWord(a, b)
  {
    if SameWord(a, b) {
      assert forall i :: 0 <= i < |a| ==> SameLetter(a[i], b[i]) && Lower(a)[i] == Lower(b)[i];
    } else if |a| == |b| {
      var i :| 0 <= i < |a| && !SameLetter(a[i], b[i]);
      assert Lower(a)[i] != Lower(b)[i];
    }
  }

  /** The sum of f over the elements of xs, accumulated left to right. */
  function Sum<T>(xs: seq<T>, f: T -> int): int {
    if xs == [] then 0 else Sum(xs[..|xs| - 1], f) + f(xs[|xs| - 1])
  }

  lemma SumAppend<T>(xs: seq<T>, x: T, f: T -> int)
    ensures Sum(xs + [x], f) == Sum(xs, f) + f(x)
  {
    assert (xs + [x])[..|xs|] == xs;
  }

  lemma {:induction false} SumConcat<T>(xs: seq<T>, ys: seq<T>, f: T -> int)
    ensures Sum(xs + ys, f) == Sum(xs, f) + Sum(ys, f)
    decreases |ys|
  {
    if ys == [] {
      assert xs + ys == xs;
    } else {
      var init, last := ys[..|ys| - 1], ys[|ys| - 1];
      assert xs + ys == xs + init + [last] && ys == init + [last];
      SumConcat(xs, init, f);
      SumAppend(xs + init, last, f);
    }
  }

  lemma {:induction false} SumUpdate<T>(xs: seq<T>, i: nat, x: T, f: T -> int)
    requires i < |xs|
    ensures Sum(xs[i := x], f) == Sum(xs, f) - f(xs[i]) + f(x)
  {
    var n := |xs| - 1;
    if i == n {
      assert xs[i := x] == xs[..n] + [x];
      SumAppend(xs[..n], x, f);
    } else {
      assert xs[i := x] == xs[..n][i := x] + [xs[n]];
      SumUpdate(xs[..n], i, x, f);
      SumAppend(xs[..n][i := x], xs[n], f);
    }
  }

  /** A sum is ordered by its terms; two sequences of one length may be compared term by term. */
  lemma {:induction false} SumLe<T>(xs: seq<T>, ys: seq<T>, f: T -> int, g: T -> int)
    requires |xs| == |ys|
    requires forall i :: 0 <= i < |xs| ==> f(xs[i]) <= g(ys[i])
    ensures Sum(xs, f) <= Sum(ys, g)
  {
    if xs != [] {
      var n := |xs| - 1;
      assert forall i :: 0 <= i < n ==> xs[..n][i] == xs[i] && ys[..n][i] == ys[i];
      SumLe(xs[..n], ys[..n], f, g);
    }
  }

  lemma SumEq<T>(xs: seq<T>, ys: seq<T>, f: T -> int, g: T -> int)
    requires |xs| == |ys|
    requires forall i :: 0 <= i < |xs| ==> f(xs[i]) == g(ys[i])
    ensures Sum(xs, f) == Sum(ys, g)
  {
    SumLe(xs, ys, f, g);
    SumLe(ys, xs, g, f);
  }

  /** Where no term is negative, the sum is at least any one term. */
  lemma {:induction false} SumNonNegative<T>(xs: seq<T>, f: T -> int)
    requires forall x :: x in xs ==> f(x) >= 0
    ensures Sum(xs, f) >= 0
    ensures forall i :: 0 <= i < |xs| ==> f(xs[i]) <= Sum(xs, f)
  {
    if xs != [] {
      SumNonNegative(xs[..|xs| - 1], f);
      assert xs[|xs| - 1] in xs;
      forall i | 0 <= i < |xs| ensures f(xs[i]) <= Sum(xs, f) {
        if i < |xs| - 1 { assert xs[..|xs| - 1][i] == xs[i]; }
      }
    }
  }

  /** Where at most one term is non-zero, the sum is that term. */
  lemma {:induction false} SumSingle<T>(xs: seq<T>, i: nat, f: T -> int)
    requires i < |xs|
    requires forall j :: 0 <= j < |xs| && j != i ==> f(xs[j]) == 0
    ensures Sum(xs, f) == f(xs[i])
  {
    var n := |xs| - 1;
    if i == n {
      SumZero(xs[..n], f);
    } else {
      assert xs[..n][i] == xs[i];
      SumSingle(xs[..n], i, f);
    }
  }

  lemma {:induction false} SumZero<T>(xs: seq<T>, f: T -> int)
    requires forall i :: 0 <= i < |xs| ==> f(xs[i]) == 0
    ensures Sum(xs, f) == 0
  {
    if xs != [] { SumZero(xs[..|xs| - 1], f); }
  }

  /** The real-valued sum, for exact shares that are not whole pennies. */
  function SumR<T>(xs: seq<T>, f: T -> real): real {
    if xs == [] then 0.0 else SumR(xs[..|xs| - 1], f) + f(xs[|xs| - 1])
  }

  lemma SumRAppend<T>(xs: seq<T>, x: T, f: T -> real)
    ensures SumR(xs + [x], f) == SumR(xs, f) + f(x)
  {
    assert (xs + [x])[..|xs|] == xs;
  }

  /** A multiple of an integer sum, term by term. */
  lemma {:induction false} SumRScaled<T>(xs: seq<T>, f: T -> real, g: T -> int, k: real)
    requires forall x :: x in xs ==> f(x) == k * g(x) as real
    ensures SumR(xs, f) == k * Sum(xs, g) as real
  {
    if xs != [] {
      var n := |xs| - 1;
      assert xs[n] in xs;
      SumRScaled(xs[..n], f, g, k);
    }
  }
}
