/** Decimal digit strings: reading, printing, padding and stripping zeros. */
module Decimals {
  predicate IsDigit(c: char) {
    '0' <= c <= '9'
  }

  /** One or more digits: the \d+ of the source's patterns. */
  predicate Digits(s: string) {
    s != "" && AllDigits(s)
  }

  predicate AllDigits(s: string) {
    forall i | 0 <= i < |s| :: IsDigit(s[i])
  }

  function DigitValue(c: char): (v: nat)
    requires IsDigit(c)
    ensures v < 10
  {
    (c - '0') as int
  }

  function DigitChar(n: nat): (c: char)
    requires n < 10
    ensures IsDigit(c) && DigitValue(c) == n
  {
    '0' + n as char
  }

  function ReadNat(s: string): nat
    requires AllDigits(s)
  {
    if s == "" then 0
    else ReadNat(s[..|s| - 1]) * 10 + DigitValue(s[|s| - 1])
  }

  /** toString of a non-negative bigint. */
  function PrintNat(n: nat): (s: string)
    ensures Digits(s)
    ensures ReadNat(s) == n
  {
    if n < 10 then [DigitChar(n)]
    else
      var s := PrintNat(n / 10) + [DigitChar(n % 10)];
      assert s[..|s| - 1] == PrintNat(n / 10);
      s
  }

  function PrintInt(n: int): string {
    if n < 0 then "-" + PrintNat(-n) else PrintNat(n)
  }

  function Zeros(n: nat): (s: string)
    ensures |s| == n && AllDigits(s)
  {
    seq(n, i => '0')
  }

  function PadStart(s: string, n: nat): string {
    if |s| >= n then s else Zeros(n - |s|) + s
  }

  function PadEnd(s: string, n: nat): string {
    if |s| >= n then s else s + Zeros(n - |s|)
  }

  function StripTrailingZeros(s: string): (r: string)
    ensures r <= s && (AllDigits(s) ==> AllDigits(r))
    ensures r != "" ==> r[|r| - 1] != '0'
    ensures s == r + Zeros(|s| - |r|)
  {
    if s != "" && s[|s| - 1] == '0' then
      var r := StripTrailingZeros(s[..|s| - 1]);
      assert s == s[..|s| - 1] + "0";
      assert Zeros(|s| - |r|) == Zeros(|s| - 1 - |r|) + "0";
      r
    else
      assert s == s + Zeros(0);
      s
  }

  /** Leading zeros removed, down to a single digit. */
  function StripLeadingZeros(s: string): (r: string)
    requires Digits(s)
    ensures Digits(r) && (|r| > 1 ==> r[0] != '0')
    ensures |r| <= |s| && s == Zeros(|s| - |r|) + r
  {
    if |s| > 1 && s[0] == '0' then
      var r := StripLeadingZeros(s[1..]);
      assert s == "0" + s[1..];
      assert Zeros(|s| - |r|) == "0" + Zeros(|s| - 1 - |r|);
      r
    else
      assert s == Zeros(0) + s;
      s
  }

  function Pow10(n: nat): (p: nat)
    ensures p > 0
  {
    if n == 0 then 1 else 10 * Pow10(n - 1)
  }

  lemma {:induction false} PrintHasNoLeadingZero(n: nat)
    ensures |PrintNat(n)| > 1 ==> PrintNat(n)[0] != '0'
    ensures n > 0 ==> PrintNat(n)[0] != '0'
  {
    if n >= 10 {
      PrintHasNoLeadingZero(n / 10);
    }
  }

  lemma {:induction false} ShiftDigit(x: int, p: int, y: int, d: int)
    ensures (x * p + y) * 10 + d == x * (10 * p) + (y * 10 + d)
  {
  }

  lemma {:induction false} ReadConcat(a: string, b: string)
    requires AllDigits(a) && AllDigits(b)
    ensures AllDigits(a + b) && ReadNat(a + b) == ReadNat(a) * Pow10(|b|) + ReadNat(b)
  {
    if b == "" {
      assert a + b == a;
    } else {
      var b', d := b[..|b| - 1], DigitValue(b[|b| - 1]);
      assert (a + b)[..|a + b| - 1] == a + b';
      ReadConcat(a, b');
      ShiftDigit(ReadNat(a), Pow10(|b'|), ReadNat(b'), d);
    }
  }

  lemma {:induction false} ReadZeros(n: nat)
    ensures ReadNat(Zeros(n)) == 0
  {
    if n > 0 {
      assert Zeros(n)[..n - 1] == Zeros(n - 1);
      ReadZeros(n - 1);
    }
  }

  lemma {:induction false} ReadBound(s: string)
    requires AllDigits(s)
    ensures ReadNat(s) < Pow10(|s|)
  {
    if s != "" {
      ReadBound(s[..|s| - 1]);
    }
  }

  /** Two digit strings of one length with one value are one string. */
  lemma {:induction false} SameLengthSameValue(a: string, b: string)
    requires AllDigits(a) && AllDigits(b) && |a| == |b| && ReadNat(a) == ReadNat(b)
    ensures a == b
  {
    if a != "" {
      var a', b' := a[..|a| - 1], b[..|b| - 1];
      var x, y := a[|a| - 1], b[|b| - 1];
      assert DigitValue(x) == DigitValue(y) && ReadNat(a') == ReadNat(b');
      SameLengthSameValue(a', b');
      assert a == a' + [x] && b == b' + [y];
    }
  }

  lemma {:induction false} PrintLength(n: nat, k: nat)
    requires k > 0
    ensures |PrintNat(n)| <= k <==> n < Pow10(k)
    decreases k
  {
    if n >= 10 && k > 1 {
      PrintLength(n / 10, k - 1);
    }
  }

  lemma {:induction false} PaddedValue(s: string, n: nat)
    requires AllDigits(s)
    ensures AllDigits(Zeros(n) + s) && ReadNat(Zeros(n) + s) == ReadNat(s)
  {
    ReadZeros(n);
    ReadConcat(Zeros(n), s);
    assert 0 * Pow10(|s|) == 0;
  }

  /** Printing what was read removes exactly the leading zeros. */
  lemma {:induction false} PrintRead(s: string)
    requires Digits(s)
    ensures PrintNat(ReadNat(s)) == StripLeadingZeros(s)
  {
    var r := StripLeadingZeros(s);
    PaddedValue(r, |s| - |r|);
    PrintOfCanonical(r);
  }

  lemma {:induction false} DivMod(n: nat, d: nat) returns (q: nat, r: nat)
    requires d > 0
    ensures n == q * d + r && r < d
  {
    q, r := n / d, n % d;
  }

  lemma {:induction false} PadStripped(s: string)
    ensures PadEnd(StripTrailingZeros(s), |s|) == s
  {
  }

  lemma {:induction false} PadPrinted(n: nat, width: nat)
    requires width > 0 && n < Pow10(width)
    ensures var p := PadStart(PrintNat(n), width);
      |p| == width && AllDigits(p) && ReadNat(p) == n
  {
    PrintLength(n, width);
    PaddedValue(PrintNat(n), width - |PrintNat(n)|);
  }

  lemma {:induction false} QuotientIsZero(k: int, d: int)
    requires d > 0 && -d < k * d < d
    ensures k == 0
  {
    assert k >= 1 ==> k * d >= d;
    assert k <= -1 ==> k * d <= -d;
  }

  lemma {:induction false} DivModUnique(n: int, q: int, r: int, d: int)
    requires 0 <= r < d && n == q * d + r
    ensures n / d == q && n % d == r
  {
    var q', r' := n / d, n % d;
    assert n == q' * d + r';
    assert (q' - q) * d == q' * d - q * d == r - r';
    QuotientIsZero(q' - q, d);
  }

  lemma {:induction false} DigitRoundTrip(c: char)
    requires IsDigit(c)
    ensures DigitChar(DigitValue(c)) == c
    ensures PrintNat(DigitValue(c)) == [c]
  {
  }

  lemma {:induction false} PrintSnoc(n: nat, d: nat)
    requires n > 0 && d < 10
    ensures PrintNat(n * 10 + d) == PrintNat(n) + [DigitChar(d)]
  {
    assert (n * 10 + d) / 10 == n && (n * 10 + d) % 10 == d;
  }

  lemma {:induction false} PrintOfCanonical(r: string)
    requires Digits(r) && (|r| > 1 ==> r[0] != '0')
    ensures PrintNat(ReadNat(r)) == r
  {
    var r', last := r[..|r| - 1], r[|r| - 1];
    assert r == r' + [last];
    DigitRoundTrip(last);
    if |r| == 1 {
      assert ReadNat(r) == DigitValue(last);
    } else {
      ReadPositive(r');
      PrintOfCanonical(r');
      var n := ReadNat(r');
      PrintSnoc(n, DigitValue(last));
      assert ReadNat(r) == n * 10 + DigitValue(last);
    }
  }

  lemma {:induction false} ReadPositive(r: string)
    requires Digits(r) && r[0] != '0'
    ensures ReadNat(r) > 0
  {
    if |r| > 1 {
      ReadPositive(r[..|r| - 1]);
    }
  }
}
