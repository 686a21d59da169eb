/** Sequences: the step of a left-to-right loop, sums, removals, maps and flat maps. */
module Sequences {
  /** The step every left-to-right loop here takes: one more element of a prefix. */
  lemma {:induction false} PrefixStep<T>(s: seq<T>, i: nat)
    requires i < |s|
    ensures s[..i + 1] != [] && |s[..i + 1]| - 1 == i
    ensures s[..i + 1][..i] == s[..i] && s[..i + 1][i] == s[i]
  {
  }

  ghost predicate CarriesOver(holds: nat -> bool, k: nat) {
    holds(k) ==> holds(k + 1)
  }

  /** What holds at 0 and carries over from each number to the next holds at n. */
  lemma {:induction false} Climb(holds: nat -> bool, n: nat)
    requires holds(0) && forall k: nat | k < n :: CarriesOver(holds, k)
    ensures holds(n)
    decreases n
  {
    if n > 0 {
      Climb(holds, n - 1);
      assert CarriesOver(holds, n - 1);
    }
  }

  lemma {:induction false} AppendOne<T>(before: seq<T>, x: T, after: seq<T>)
    ensures before + ([x] + after) == (before + [x]) + after
  {
  }

  ghost predicate Each<T>(holds: T -> bool, s: seq<T>) {
    forall i | 0 <= i < |s| :: holds(s[i])
  }

  lemma {:induction false} EachOfParts<T>(holds: T -> bool, a: seq<T>, b: seq<T>)
    requires Each(holds, a + b)
    ensures Each(holds, a) && Each(holds, b)
  {
    forall i | 0 <= i < |a| ensures holds(a[i]) {
      assert (a + b)[i] == a[i];
    }
    forall i | 0 <= i < |b| ensures holds(b[i]) {
      assert (a + b)[|a| + i] == b[i];
    }
  }

  lemma {:induction false} EachOfTwo<T>(holds: T -> bool, s: seq<T>)
    requires |s| == 2
    ensures Each(holds, s) <==> holds(s[0]) && holds(s[1])
  {
  }

  lemma {:induction false} EachOfThree<T>(holds: T -> bool, s: seq<T>)
    requires |s| == 3
    ensures Each(holds, s) <==> holds(s[0]) && holds(s[1]) && holds(s[2])
  {
  }

  /** The numbers below n of which p holds. */
  ghost function Below(p: nat -> bool, n: nat): set<nat> {
    set i: nat | i < n && p(i)
  }

  lemma {:induction false} OneMoreBelow(p: nat -> bool, n: nat)
    ensures |Below(p, n + 1)| == |Below(p, n)| + (if p(n) then 1 else 0)
  {
    assert Below(p, n + 1) == Below(p, n) + (if p(n) then {n} else {});
  }

  ghost function Elements<T>(s: seq<T>): set<T> {
    set x | x in s
  }

  lemma {:induction false} ElementsSnoc<T>(init: seq<T>, last: T)
    ensures Elements(init + [last]) == Elements(init) + {last}
  {
  }

  /** The map from keys to the values beside them. */
  function Assoc<K(==), V>(keys: seq<K>, values: seq<V>): map<K, V>
    requires |keys| == |values|
  {
    if keys == [] then map[]
    else Assoc(keys[..|keys| - 1], values[..|keys| - 1])[keys[|keys| - 1] := values[|keys| - 1]]
  }

  lemma {:induction false} AssocHas<K, V>(keys: seq<K>, values: seq<V>, k: nat)
    requires |keys| == |values| && k < |keys|
    requires forall i, j | 0 <= i < j < |keys| :: keys[i] != keys[j]
    ensures keys[k] in Assoc(keys, values) && Assoc(keys, values)[keys[k]] == values[k]
  {
    if k < |keys| - 1 {
      AssocHas(keys[..|keys| - 1], values[..|keys| - 1], k);
    }
  }

  lemma {:induction false} AssocKeys<K, V>(keys: seq<K>, values: seq<V>, x: K)
    requires |keys| == |values|
    ensures x in Assoc(keys, values) <==> x in keys
  {
    if keys != [] {
      AssocKeys(keys[..|keys| - 1], values[..|keys| - 1], x);
      assert keys == keys[..|keys| - 1] + [keys[|keys| - 1]];
    }
  }

  function Sum(s: seq<int>): int {
    if s == [] then 0 else s[0] + Sum(s[1..])
  }

  function SumBy<A>(f: A -> int, s: seq<A>): int {
    if s == [] then 0 else SumBy(f, s[..|s| - 1]) + f(s[|s| - 1])
  }

  lemma {:induction false} SumAppend<A>(f: A -> int, a: seq<A>, b: seq<A>)
    ensures SumBy(f, a + b) == SumBy(f, a) + SumBy(f, b)
  {
    if b == [] {
      assert a + b == a;
    } else {
      assert (a + b)[..|a + b| - 1] == a + b[..|b| - 1];
      SumAppend(f, a, b[..|b| - 1]);
    }
  }

  function Without<A>(s: seq<A>, j: nat): seq<A>
    requires j < |s|
  {
    s[..j] + s[j + 1..]
  }

  lemma {:induction false} MultisetWithout<A>(s: seq<A>, j: nat)
    requires j < |s|
    ensures multiset(Without(s, j)) == multiset(s) - multiset{s[j]}
  {
    assert s == s[..j] + [s[j]] + s[j + 1..];
  }

  lemma {:induction false} SumWithout<A>(f: A -> int, s: seq<A>, j: nat)
    requires j < |s|
    ensures SumBy(f, s) == SumBy(f, Without(s, j)) + f(s[j])
  {
    SumAppend(f, s[..j], s[j + 1..]);
    SumAppend(f, s[..j + 1], s[j + 1..]);
    assert s == s[..j + 1] + s[j + 1..];
    assert s[..j + 1][..j] == s[..j];
  }

  lemma {:induction false} LastOut<A>(a: seq<A>, b: seq<A>) returns (j: nat)
    requires multiset(a) == multiset(b) && a != []
    ensures j < |b| && b[j] == a[|a| - 1]
    ensures multiset(a[..|a| - 1]) == multiset(Without(b, j))
  {
    var last := a[|a| - 1];
    assert last in multiset(b);
    j :| 0 <= j < |b| && b[j] == last;
    MultisetWithout(b, j);
    assert a == a[..|a| - 1] + [last];
  }

  /** A sum does not depend on the order of its terms. */
  lemma {:induction false} SumPermutes<A>(f: A -> int, a: seq<A>, b: seq<A>)
    requires multiset(a) == multiset(b)
    ensures SumBy(f, a) == SumBy(f, b)
  {
    if a == [] {
      assert |multiset(b)| == 0;
    } else {
      var j := LastOut(a, b);
      SumWithout(f, b, j);
      SumPermutes(f, a[..|a| - 1], Without(b, j));
    }
  }

  /** The pieces of every key, in order. */
  function FlatMap<A, B>(f: A -> seq<B>, keys: seq<A>): seq<B> {
    if keys == [] then [] else FlatMap(f, keys[..|keys| - 1]) + f(keys[|keys| - 1])
  }

  lemma {:induction false} FlatMapHas<A, B>(f: A -> seq<B>, keys: seq<A>, j: nat, x: B)
    requires j < |keys| && x in f(keys[j])
    ensures x in FlatMap(f, keys)
  {
    if j < |keys| - 1 {
      FlatMapHas(f, keys[..|keys| - 1], j, x);
    }
  }

  lemma {:induction false} FlatMapAt<A, B>(f: A -> seq<B>, keys: seq<A>, x: B) returns (j: nat)
    requires x in FlatMap(f, keys)
    ensures j < |keys| && x in f(keys[j])
  {
    var n := |keys| - 1;
    if x in f(keys[n]) {
      j := n;
    } else {
      j := FlatMapAt(f, keys[..n], x);
    }
  }
}
