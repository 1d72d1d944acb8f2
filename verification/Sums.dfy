/** Sums over sequences and over initial segments of the naturals. */
module Sums {
  function Sum<T>(s: seq<T>, f: T -> int): int {
    if s == [] then 0 else Sum(s[..|s| - 1], f) + f(s[|s| - 1])
  }

  lemma {:induction false} SumAppend<T>(s: seq<T>, x: T, f: T -> int)
    ensures Sum(s + [x], f) == Sum(s, f) + f(x)
  {
    assert (s + [x])[..|s + [x]| - 1] == s;
  }

  lemma {:induction false} SumUpdate<T>(s: seq<T>, i: nat, x: T, f: T -> int)
    requires i < |s|
    ensures Sum(s[i := x], f) == Sum(s, f) - f(s[i]) + f(x)
  {
    var n := |s| - 1;
    if i < n {
      SumUpdate(s[..n], i, x, f);
      assert s[i := x][..n] == s[..n][i := x];
    } else {
      assert s[i := x][..n] == s[..n];
    }
  }

  lemma {:induction false} SumZero<T>(s: seq<T>, f: T -> int)
    requires forall i: nat | i < |s| :: f(s[i]) == 0
    ensures Sum(s, f) == 0
  {
    if s != [] { SumZero(s[..|s| - 1], f); }
  }

  function SumTo(n: nat, f: nat -> int): int {
    if n == 0 then 0 else SumTo(n - 1, f) + f(n)
  }

  lemma {:induction false} SumToChange(n: nat, f: nat -> int, g: nat -> int, w: nat)
    requires forall x: nat | x != w :: g(x) == f(x)
    ensures SumTo(n, g) == SumTo(n, f) + (if 1 <= w <= n then g(w) - f(w) else 0)
  {
    if n > 0 { SumToChange(n - 1, f, g, w); }
  }

  lemma {:induction false} SumToSame(n: nat, f: nat -> int, g: nat -> int)
    requires forall x: nat | 1 <= x <= n :: g(x) == f(x)
    ensures SumTo(n, g) == SumTo(n, f)
  {
    if n > 0 { SumToSame(n - 1, f, g); }
  }

  lemma {:induction false} SumToLinear(n: nat, f: nat -> int, g: nat -> int, h: nat -> int, a: int)
    requires forall x: nat | 1 <= x <= n :: h(x) == a * f(x) + g(x)
    ensures SumTo(n, h) == a * SumTo(n, f) + SumTo(n, g)
  {
    if n > 0 {
      SumToLinear(n - 1, f, g, h, a);
      assert a * (SumTo(n - 1, f) + f(n)) == a * SumTo(n - 1, f) + a * f(n);
    }
  }

  lemma {:induction false} SumToZero(n: nat, f: nat -> int)
    requires forall x: nat | 1 <= x <= n :: f(x) == 0
    ensures SumTo(n, f) == 0
  {
    if n > 0 { SumToZero(n - 1, f); }
  }
}
