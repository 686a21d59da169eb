/** Products of sequences of positive integers, and how they compare. */
module Products {
  function Prod(s: seq<int>): int {
    if s == [] then 1 else Prod(s[..|s| - 1]) * s[|s| - 1]
  }

  ghost predicate AllPositive(s: seq<int>) {
    forall i | 0 <= i < |s| :: s[i] > 0
  }

  ghost predicate AllLeq(a: seq<int>, b: seq<int>) {
    |a| == |b| && forall i | 0 <= i < |a| :: a[i] <= b[i]
  }

  lemma {:induction false} TimesPositive(x: int, y: int)
    requires x > 0 && y > 0
    ensures x * y > 0
  {
  }

  lemma {:induction false} TimesMonotone(x: int, x': int, y: int, y': int)
    requires 0 < x <= x' && 0 < y <= y'
    ensures x * y <= x' * y'
    ensures x < x' || y < y' ==> x * y < x' * y'
  {
    assert x * y <= x' * y && x' * y <= x' * y';
    if x < x' {
      assert x * y < x' * y;
    }
    if y < y' {
      assert x' * y < x' * y';
    }
  }

  lemma {:induction false} ProdPositive(s: seq<int>)
    requires AllPositive(s)
    ensures Prod(s) > 0
  {
    if s != [] {
      ProdPositive(s[..|s| - 1]);
      TimesPositive(Prod(s[..|s| - 1]), s[|s| - 1]);
    }
  }

  lemma {:induction false} ProdAppend(a: seq<int>, b: seq<int>)
    ensures Prod(a + b) == Prod(a) * Prod(b)
  {
    if b == [] {
      assert a + b == a;
    } else {
      var init, last := b[..|b| - 1], b[|b| - 1];
      assert (a + b)[..|a + b| - 1] == a + init;
      ProdAppend(a, init);
      assert Prod(a) * Prod(init) * last == Prod(a) * (Prod(init) * last);
    }
  }

  /** Moving the first k factors to the end does not change the product. */
  lemma {:induction false} ProdRotates(s: seq<int>, k: nat)
    requires k <= |s|
    ensures Prod(s[k..] + s[..k]) == Prod(s)
  {
    ProdAppend(s[k..], s[..k]);
    ProdAppend(s[..k], s[k..]);
    assert s == s[..k] + s[k..];
  }

  lemma {:induction false} ProdMonotone(a: seq<int>, b: seq<int>)
    requires AllPositive(a) && AllLeq(a, b)
    ensures Prod(a) <= Prod(b)
    ensures (exists i :: 0 <= i < |a| && a[i] < b[i]) ==> Prod(a) < Prod(b)
  {
    if a != [] {
      var n := |a| - 1;
      ProdMonotone(a[..n], b[..n]);
      ProdPositive(a[..n]);
      TimesMonotone(Prod(a[..n]), Prod(b[..n]), a[n], b[n]);
      if exists i :: 0 <= i < |a| && a[i] < b[i] {
        var i :| 0 <= i < |a| && a[i] < b[i];
        assert i < n ==> a[..n][i] < b[..n][i];
      }
    }
  }

  /** Factor by factor. */
  function Times(a: seq<int>, b: seq<int>): (r: seq<int>)
    requires |a| == |b|
    ensures |r| == |a| && forall i | 0 <= i < |a| :: r[i] == a[i] * b[i]
  {
    seq(|a|, i requires 0 <= i < |a| => a[i] * b[i])
  }

  lemma {:induction false} Regroup(p: int, q: int, x: int, y: int)
    ensures (p * q) * (x * y) == (p * x) * (q * y)
  {
    assert (p * q) * (x * y) == p * (q * x) * y;
    assert (p * x) * (q * y) == p * (x * q) * y;
  }

  lemma {:induction false} ProdOfTimes(a: seq<int>, b: seq<int>)
    requires |a| == |b|
    ensures Prod(Times(a, b)) == Prod(a) * Prod(b)
  {
    if a != [] {
      var n := |a| - 1;
      assert Times(a, b)[..n] == Times(a[..n], b[..n]);
      ProdOfTimes(a[..n], b[..n]);
      Regroup(Prod(a[..n]), Prod(b[..n]), a[n], b[n]);
    }
  }
}
