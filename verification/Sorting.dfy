/**
 * The library sort the source calls with a comparator: a stable sort by a strict
 * order. What matters about it is stated here once: the result is a sorted
 * permutation, and under a strict total order it does not depend on the order the
 * elements arrived in.
 */
module Sorting {
  import opened Sequences

  /** less is a strict total order on the elements of dom. */
  ghost predicate StrictTotalOn<T>(less: (T, T) -> bool, dom: set<T>) {
    && (forall x {:trigger less(x, x)} | x in dom :: !less(x, x))
    && (forall x, y {:trigger less(x, y)} | x in dom && y in dom && x != y :: less(x, y) || less(y, x))
    && (forall x, y, z {:trigger less(x, y), less(y, z)} | x in dom && y in dom && z in dom ::
          less(x, y) && less(y, z) ==> less(x, z))
  }

  ghost predicate Within<T>(s: seq<T>, dom: set<T>) {
    forall i | 0 <= i < |s| :: s[i] in dom
  }

  ghost predicate Sorted<T>(less: (T, T) -> bool, s: seq<T>) {
    forall i, j | 0 <= i < j < |s| :: !less(s[j], s[i])
  }

  function Insert<T>(less: (T, T) -> bool, x: T, s: seq<T>): (r: seq<T>)
    ensures multiset(r) == multiset(s) + multiset{x}
  {
    if s == [] then [x]
    else if less(s[0], x) then
      assert s == [s[0]] + s[1..];
      [s[0]] + Insert(less, x, s[1..])
    else [x] + s
  }

  function Sort<T>(less: (T, T) -> bool, s: seq<T>): (r: seq<T>)
    ensures multiset(r) == multiset(s)
  {
    if s == [] then []
    else
      assert s == [s[0]] + s[1..];
      Insert(less, s[0], Sort(less, s[1..]))
  }

  lemma {:induction false} SameElements<T>(a: seq<T>, b: seq<T>)
    requires multiset(a) == multiset(b)
    ensures |a| == |b|
    ensures forall x :: x in a <==> x in b
  {
    assert |multiset(a)| == |a| && |multiset(b)| == |b|;
    forall x ensures x in a <==> x in b {
      assert x in a <==> x in multiset(a);
      assert x in b <==> x in multiset(b);
    }
  }

  lemma {:induction false} SortKeepsElements<T>(less: (T, T) -> bool, s: seq<T>)
    ensures |Sort(less, s)| == |s|
    ensures forall x :: x in Sort(less, s) <==> x in s
  {
    SameElements(Sort(less, s), s);
  }

  lemma {:induction false} InsertWithin<T>(less: (T, T) -> bool, x: T, s: seq<T>, dom: set<T>)
    requires x in dom && Within(s, dom)
    ensures Within(Insert(less, x, s), dom)
  {
    if s != [] && less(s[0], x) {
      InsertWithin(less, x, s[1..], dom);
    }
  }

  ghost predicate NoneBefore<T>(less: (T, T) -> bool, y: T, s: seq<T>) {
    forall i | 0 <= i < |s| :: !less(s[i], y)
  }

  lemma {:induction false} InsertNoneBefore<T>(less: (T, T) -> bool, x: T, s: seq<T>, y: T)
    requires !less(x, y) && NoneBefore(less, y, s)
    ensures NoneBefore(less, y, Insert(less, x, s))
  {
    if s != [] && less(s[0], x) {
      InsertNoneBefore(less, x, s[1..], y);
    }
  }

  lemma {:induction false} SortedCons<T>(less: (T, T) -> bool, x: T, s: seq<T>)
    requires Sorted(less, s) && NoneBefore(less, x, s)
    ensures Sorted(less, [x] + s)
  {
  }

  lemma {:induction false} InsertSorts<T>(less: (T, T) -> bool, x: T, s: seq<T>, dom: set<T>)
    requires StrictTotalOn(less, dom) && x in dom && Within(s, dom)
    requires Sorted(less, s)
    ensures Sorted(less, Insert(less, x, s))
  {
    if s == [] {
    } else if less(s[0], x) {
      assert !less(x, s[0]);
      InsertSorts(less, x, s[1..], dom);
      InsertNoneBefore(less, x, s[1..], s[0]);
      SortedCons(less, s[0], Insert(less, x, s[1..]));
    } else {
      assert s[0] == x || less(x, s[0]);
      SortedCons(less, x, s);
    }
  }

  lemma {:induction false} SortSorts<T>(less: (T, T) -> bool, s: seq<T>, dom: set<T>)
    requires StrictTotalOn(less, dom) && Within(s, dom)
    ensures Sorted(less, Sort(less, s)) && Within(Sort(less, s), dom)
  {
    if s != [] {
      SortSorts(less, s[1..], dom);
      InsertSorts(less, s[0], Sort(less, s[1..]), dom);
      InsertWithin(less, s[0], Sort(less, s[1..]), dom);
    }
  }

  lemma {:induction false} SameHead<T>(less: (T, T) -> bool, a: seq<T>, b: seq<T>, dom: set<T>)
    requires StrictTotalOn(less, dom) && Within(a, dom) && Within(b, dom)
    requires Sorted(less, a) && Sorted(less, b) && multiset(a) == multiset(b) && a != []
    ensures b != [] && a[0] == b[0]
  {
    SameElements(a, b);
    assert a[0] in b && b[0] in a;
    var i :| 0 <= i < |b| && b[i] == a[0];
    var j :| 0 <= j < |a| && a[j] == b[0];
  }

  lemma {:induction false} TailMultiset<T>(a: seq<T>)
    requires a != []
    ensures multiset(a[1..]) == multiset(a) - multiset{a[0]}
    ensures a == [a[0]] + a[1..]
  {
    assert a == [a[0]] + a[1..];
  }

  /** A sorted permutation is unique. */
  lemma {:induction false} SortedUnique<T>(less: (T, T) -> bool, a: seq<T>, b: seq<T>, dom: set<T>)
    requires StrictTotalOn(less, dom) && Within(a, dom) && Within(b, dom)
    requires Sorted(less, a) && Sorted(less, b) && multiset(a) == multiset(b)
    ensures a == b
  {
    SameElements(a, b);
    if a != [] {
      SameHead(less, a, b, dom);
      TailMultiset(a);
      TailMultiset(b);
      SortedUnique(less, a[1..], b[1..], dom);
    }
  }

  ghost predicate NoRepeats<T>(s: seq<T>) {
    forall i, j | 0 <= i < j < |s| :: s[i] != s[j]
  }

  lemma {:induction false} SizeWithoutRepeats<T>(s: seq<T>)
    requires NoRepeats(s)
    ensures |Elements(s)| == |s|
  {
    if s != [] {
      var init, last := s[..|s| - 1], s[|s| - 1];
      SizeWithoutRepeats(init);
      ElementsSnoc(init, last);
      assert s == init + [last] && last !in init;
    }
  }

  /** The elements that come before o. */
  ghost function Ahead<T>(less: (T, T) -> bool, s: seq<T>, o: T): set<T> {
    set x | x in s && less(x, o)
  }

  lemma {:induction false} AheadPermutes<T>(less: (T, T) -> bool, a: seq<T>, b: seq<T>, o: T)
    requires multiset(a) == multiset(b)
    ensures Ahead(less, a, o) == Ahead(less, b, o)
  {
    SameElements(a, b);
  }

  /** The elements before the one at i are exactly the first i. */
  lemma {:induction false} RankInSorted<T(!new)>(less: (T, T) -> bool, s: seq<T>, dom: set<T>, i: nat)
    requires StrictTotalOn(less, dom) && Within(s, dom) && Sorted(less, s) && NoRepeats(s) && i < |s|
    ensures |Ahead(less, s, s[i])| == i
  {
    var before := Ahead(less, s, s[i]);
    forall x ensures x in before <==> x in Elements(s[..i]) {
      if x in before {
        var k :| 0 <= k < |s| && s[k] == x;
        assert s[i] in dom && s[k] in dom;
        assert k < i ==> s[..i][k] == x;
      }
      if x in Elements(s[..i]) {
        var k :| 0 <= k < i && s[..i][k] == x;
        assert s[k] == x && s[i] in dom && s[k] in dom && s[k] != s[i];
      }
    }
    assert before == Elements(s[..i]);
    SizeWithoutRepeats(s[..i]);
  }

  /** An element is among the first k exactly when fewer than k come before it. */
  lemma {:induction false} RankOf<T(!new)>(less: (T, T) -> bool, s: seq<T>, dom: set<T>, o: T, k: nat)
    requires StrictTotalOn(less, dom) && Within(s, dom) && Sorted(less, s) && NoRepeats(s) && o in s
    ensures o in (if k < |s| then s[..k] else s) <==> |Ahead(less, s, o)| < k
    ensures |Ahead(less, s, o)| < |s|
  {
    var i :| 0 <= i < |s| && s[i] == o;
    RankInSorted(less, s, dom, i);
    if i < k < |s| {
      assert s[..k][i] == o;
    }
  }

  lemma {:induction false} CountWithoutRepeats<T>(s: seq<T>, x: T)
    requires NoRepeats(s)
    ensures multiset(s)[x] == if x in s then 1 else 0
  {
    if x in s {
      var i :| 0 <= i < |s| && s[i] == x;
      assert s == s[..i] + [x] + s[i + 1..];
      assert x !in s[..i] && x !in s[i + 1..];
    }
  }

  lemma {:induction false} SameWithoutRepeats<T>(a: seq<T>, b: seq<T>)
    requires NoRepeats(a) && NoRepeats(b) && forall x :: x in a <==> x in b
    ensures multiset(a) == multiset(b)
  {
    forall x ensures multiset(a)[x] == multiset(b)[x] {
      CountWithoutRepeats(a, x);
      CountWithoutRepeats(b, x);
    }
  }

  lemma {:induction false} PermutationWithoutRepeats<T>(a: seq<T>, b: seq<T>)
    requires NoRepeats(a) && multiset(a) == multiset(b)
    ensures NoRepeats(b)
  {
    forall i, j | 0 <= i < j < |b| ensures b[i] != b[j] {
      CountWithoutRepeats(a, b[j]);
      assert b == b[..j] + [b[j]] + b[j + 1..];
      assert multiset(b) == multiset(b[..j]) + multiset{b[j]} + multiset(b[j + 1..]);
      assert b[..j][i] in multiset(b[..j]);
    }
  }

  lemma {:induction false} SortOfPermutation<T>(less: (T, T) -> bool, a: seq<T>, b: seq<T>, dom: set<T>)
    requires StrictTotalOn(less, dom) && Within(a, dom) && multiset(a) == multiset(b)
    ensures Sort(less, a) == Sort(less, b)
  {
    SameElements(a, b);
    forall i | 0 <= i < |b| ensures b[i] in dom { assert b[i] in a; }
    SortSorts(less, a, dom);
    SortSorts(less, b, dom);
    SortedUnique(less, Sort(less, a), Sort(less, b), dom);
  }
}
