/**
 * Byte strings, their lower-case hex text, and the lexicographic orders on both:
 * the ledger sorts by bytes, the source sorts the hex text.
 */
module ByteStrings {
  newtype byte = x: int | 0 <= x < 256

  type Bytes = seq<byte>

  function CharRank(c: char): int {
    c as int
  }

  function ByteRank(b: byte): int {
    b as int
  }

  predicate LexLess<T>(rank: T -> int, a: seq<T>, b: seq<T>)
    decreases |a|
  {
    if b == [] then false
    else if a == [] then true
    else if rank(a[0]) != rank(b[0]) then rank(a[0]) < rank(b[0])
    else LexLess(rank, a[1..], b[1..])
  }

  /** JavaScript's `<` on strings. */
  predicate StrLess(a: string, b: string) {
    LexLess(CharRank, a, b)
  }

  predicate BytesLess(a: Bytes, b: Bytes) {
    LexLess(ByteRank, a, b)
  }

  ghost predicate Injective<T(!new)>(rank: T -> int) {
    forall x, y :: rank(x) == rank(y) ==> x == y
  }

  lemma {:induction false} LexTrichotomy<T(!new)>(rank: T -> int, a: seq<T>, b: seq<T>)
    requires Injective(rank)
    ensures !(LexLess(rank, a, b) && LexLess(rank, b, a))
    ensures a == b || LexLess(rank, a, b) || LexLess(rank, b, a)
    ensures a == b ==> !LexLess(rank, a, b)
    decreases |a|
  {
    if a != [] && b != [] {
      LexTrichotomy(rank, a[1..], b[1..]);
      if a[0] == b[0] && a[1..] == b[1..] {
        assert a == [a[0]] + a[1..] && b == [b[0]] + b[1..];
      }
    }
  }

  lemma {:induction false} LexTransitive<T>(rank: T -> int, a: seq<T>, b: seq<T>, c: seq<T>)
    requires LexLess(rank, a, b) && LexLess(rank, b, c)
    ensures LexLess(rank, a, c)
    decreases |a|
  {
    if a != [] && rank(a[0]) == rank(b[0]) == rank(c[0]) {
      LexTransitive(rank, a[1..], b[1..], c[1..]);
    }
  }

  /** `<` on strings is a strict total order. */
  lemma {:induction false} StrLessIsStrictTotal(a: string, b: string, c: string)
    ensures !StrLess(a, a)
    ensures !(StrLess(a, b) && StrLess(b, a))
    ensures a != b ==> StrLess(a, b) || StrLess(b, a)
    ensures StrLess(a, b) && StrLess(b, c) ==> StrLess(a, c)
  {
    LexTrichotomy(CharRank, a, a);
    LexTrichotomy(CharRank, a, b);
    if StrLess(a, b) && StrLess(b, c) {
      LexTransitive(CharRank, a, b, c);
    }
  }

  // ------------------------------------------------------------------ hex

  predicate IsLowerHex(s: string) {
    forall i | 0 <= i < |s| :: '0' <= s[i] <= '9' || 'a' <= s[i] <= 'f'
  }

  predicate IsHexChar(c: char) {
    '0' <= c <= '9' || 'a' <= c <= 'f' || 'A' <= c <= 'F'
  }

  function HexValue(c: char): (n: int)
    requires IsHexChar(c)
    ensures 0 <= n < 16
  {
    if c <= '9' then (c - '0') as int
    else if c <= 'F' then (c - 'A') as int + 10
    else (c - 'a') as int + 10
  }

  /** Buffer.from(s, "hex"): whole pairs, up to the first that is not hex. */
  function FromHex(s: string): Bytes {
    if |s| < 2 || !IsHexChar(s[0]) || !IsHexChar(s[1]) then []
    else [(HexValue(s[0]) * 16 + HexValue(s[1])) as byte] + FromHex(s[2..])
  }

  function LowerChar(c: char): char {
    if 'A' <= c <= 'Z' then c - 'A' + 'a' else c
  }

  /** toLowerCase on the ASCII text hex is made of. */
  function ToLower(s: string): (r: string)
    ensures |r| == |s|
    ensures IsLowerHex(s) ==> r == s
  {
    seq(|s|, i requires 0 <= i < |s| => LowerChar(s[i]))
  }

  lemma {:induction false} TwoThenRest(x: string, y: string)
    requires |x| >= 2 && |y| >= 2
    ensures StrLess(x, y) ==
      (if x[0] != y[0] then x[0] < y[0]
       else if x[1] != y[1] then x[1] < y[1]
       else StrLess(x[2..], y[2..]))
  {
    assert x[1..][1..] == x[2..] && y[1..][1..] == y[2..];
    assert StrLess(x[1..], y[1..]) ==
      (if x[1] != y[1] then x[1] < y[1] else StrLess(x[2..], y[2..]));
  }

  /**
   * Sorting whole-byte lower-case hex text sorts the bytes it spells: the ledger
   * orders inputs by transaction id bytes, the source by the hex string.
   */
  lemma {:induction false} HexKeepsOrder(x: string, y: string)
    requires IsLowerHex(x) && IsLowerHex(y) && |x| % 2 == 0 && |y| % 2 == 0
    ensures StrLess(x, y) <==> BytesLess(FromHex(x), FromHex(y))
    decreases |x|
  {
    if x != "" && y != "" {
      TwoThenRest(x, y);
      assert FromHex(x)[1..] == FromHex(x[2..]) && FromHex(y)[1..] == FromHex(y[2..]);
      HexKeepsOrder(x[2..], y[2..]);
    }
  }

  lemma {:induction false} FromHexInjective(x: string, y: string)
    requires IsLowerHex(x) && IsLowerHex(y) && |x| % 2 == 0 && |y| % 2 == 0
    ensures FromHex(x) == FromHex(y) <==> x == y
  {
    HexKeepsOrder(x, y);
    HexKeepsOrder(y, x);
    LexTrichotomy(ByteRank, FromHex(x), FromHex(y));
    LexTrichotomy(CharRank, x, y);
  }

  lemma {:induction false} FromHexLength(s: string)
    requires IsLowerHex(s)
    ensures |FromHex(s)| == |s| / 2
  {
    if |s| >= 2 {
      FromHexLength(s[2..]);
    }
  }
}
