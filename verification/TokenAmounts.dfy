/**
 * The amount field's parser and printer: "1.5" at 6 decimals <-> 1500000.
 * A throw is None. Raw amounts are any integers, as BigInt(raw) allows.
 */
module TokenAmounts {
  import opened Wrappers
  import opened Decimals

  /** The characters String.prototype.trim removes. */
  predicate IsSpace(c: char) {
    var n := c as int;
    || 0x9 <= n <= 0xD || n == 0x20 || n == 0xA0 || n == 0x1680 || 0x2000 <= n <= 0x200A
    || n == 0x2028 || n == 0x2029 || n == 0x202F || n == 0x205F || n == 0x3000 || n == 0xFEFF
  }

  function TrimStart(s: string): string {
    if s != "" && IsSpace(s[0]) then TrimStart(s[1..]) else s
  }

  function TrimEnd(s: string): string {
    if s != "" && IsSpace(s[|s| - 1]) then TrimEnd(s[..|s| - 1]) else s
  }

  function Trim(s: string): string {
    TrimEnd(TrimStart(s))
  }

  /** Index of the first '.', or the length. */
  function DotIndex(s: string): (i: nat)
    ensures i <= |s|
    ensures forall k | 0 <= k < i :: s[k] != '.'
    ensures i < |s| ==> s[i] == '.'
  {
    if s == "" || s[0] == '.' then 0 else 1 + DotIndex(s[1..])
  }

  function WholePart(t: string): string {
    t[..DotIndex(t)]
  }

  function FracPart(t: string): string {
    if DotIndex(t) == |t| then "" else t[DotIndex(t) + 1..]
  }

  /** The pattern: digits, then optionally a dot and digits. */
  predicate IsNumber(t: string) {
    && Digits(WholePart(t))
    && (DotIndex(t) == |t| || Digits(FracPart(t)))
  }

  /** whole * 10^decimals + frac. */
  function Combine(whole: nat, frac: nat, decimals: nat): nat {
    whole * Pow10(decimals) + frac
  }

  function ToRawAmount(human: string, decimals: nat): (r: Option<nat>)
    ensures r.Some? <==> IsNumber(Trim(human)) && |FracPart(Trim(human))| <= decimals
  {
    var trimmed := Trim(human);
    if !IsNumber(trimmed) then None else
    var whole, frac := WholePart(trimmed), FracPart(trimmed);
    if |frac| > decimals then None
    else Some(Combine(ReadNat(whole), ReadNat(PadEnd(frac, decimals)), decimals))
  }

  /** BigInt division and remainder truncate toward zero. */
  function TruncDiv(n: int, d: nat): int
    requires d > 0
  {
    if n < 0 then -((-n) / d) else n / d
  }

  function TruncRem(n: int, d: nat): int
    requires d > 0
  {
    n - TruncDiv(n, d) * d
  }

  function FromRawAmount(raw: int, decimals: nat): string {
    if decimals == 0 then PrintInt(raw) else
    var base := Pow10(decimals);
    var frac := StripTrailingZeros(PadStart(PrintInt(TruncRem(raw, base)), decimals));
    if frac == "" then PrintInt(TruncDiv(raw, base))
    else PrintInt(TruncDiv(raw, base)) + "." + frac
  }

  /** How a number is written with no leading or trailing zeros, from its text. */
  function CanonicalText(t: string): string
    requires IsNumber(t)
  {
    var whole, frac := StripLeadingZeros(WholePart(t)), StripTrailingZeros(FracPart(t));
    if frac == "" then whole else whole + "." + frac
  }

  // ------------------------------------------------------------- proofs

  lemma {:induction false} DotIndexOfJoin(a: string, b: string)
    requires forall k | 0 <= k < |a| :: a[k] != '.'
    ensures DotIndex(a) == |a|
    ensures DotIndex(a + "." + b) == |a|
  {
    if a != "" {
      assert (a + "." + b)[1..] == a[1..] + "." + b;
      DotIndexOfJoin(a[1..], b);
    } else {
      assert (a + "." + b)[0] == '.';
    }
  }

  lemma {:induction false} JoinSplits(whole: string, frac: string)
    requires forall k | 0 <= k < |whole| :: whole[k] != '.'
    ensures WholePart(whole) == whole && FracPart(whole) == ""
    ensures WholePart(whole + "." + frac) == whole && FracPart(whole + "." + frac) == frac
  {
    DotIndexOfJoin(whole, frac);
    var t := whole + "." + frac;
    assert t[..|whole|] == whole && t[|whole| + 1..] == frac;
  }

  /** Text between digits has nothing to trim. */
  lemma {:induction false} DigitsStay(t: string)
    requires t != "" && '0' <= t[0] <= '9' && '0' <= t[|t| - 1] <= '9'
    ensures Trim(t) == t
  {
  }

  lemma {:induction false} JoinParts(whole: string, frac: string)
    requires Digits(whole) && AllDigits(frac)
    ensures WholePart(whole) == whole && FracPart(whole) == ""
    ensures WholePart(whole + "." + frac) == whole && FracPart(whole + "." + frac) == frac
    ensures IsNumber(whole)
    ensures frac != "" ==> IsNumber(whole + "." + frac)
    ensures Trim(whole) == whole
    ensures frac != "" ==> Trim(whole + "." + frac) == whole + "." + frac
  {
    JoinSplits(whole, frac);
    DotIndexOfJoin(whole, frac);
    DigitsStay(whole);
    if frac != "" {
      var t := whole + "." + frac;
      assert t[0] == whole[0] && t[|t| - 1] == frac[|frac| - 1];
      DigitsStay(t);
    }
  }

  /** The printed fraction: f at full width, then without its trailing zeros. */
  function FracDigits(f: nat, decimals: nat): string {
    if decimals == 0 then "" else StripTrailingZeros(PadStart(PrintNat(f), decimals))
  }

  lemma {:induction false} FracDigitsReadBack(f: nat, decimals: nat)
    requires f < Pow10(decimals)
    ensures var frac := FracDigits(f, decimals);
      && AllDigits(frac) && |frac| <= decimals
      && AllDigits(PadEnd(frac, decimals)) && ReadNat(PadEnd(frac, decimals)) == f
      && (decimals > 0 ==> PadEnd(frac, decimals) == PadStart(PrintNat(f), decimals))
  {
    if decimals > 0 {
      PadPrinted(f, decimals);
      PadStripped(PadStart(PrintNat(f), decimals));
    }
  }

  /** The text of a non-negative amount, part by part. */
  lemma {:induction false} FromRawParts(raw: int, w: nat, f: nat, decimals: nat)
    requires raw == Combine(w, f, decimals) && f < Pow10(decimals)
    ensures var frac := FracDigits(f, decimals);
      FromRawAmount(raw, decimals) == if frac == "" then PrintNat(w) else PrintNat(w) + "." + frac
  {
    DivModUnique(raw, w, f, Pow10(decimals));
    assert TruncRem(raw, Pow10(decimals)) == f;
  }

  lemma {:induction false} NegativeIsRejected(raw: int, decimals: nat)
    requires raw < 0
    ensures ToRawAmount(FromRawAmount(raw, decimals), decimals).None?
  {
    var t := FromRawAmount(raw, decimals);
    assert '-' in t by { NegativePrintsMinus(raw, decimals); }
    var k :| 0 <= k < |t| && t[k] == '-';
    TrimKeepsMinus(t);
    var u := Trim(t);
    var j :| 0 <= j < |u| && u[j] == '-';
    MinusIsNoNumber(u, j);
  }

  lemma {:induction false} MinusIsNoNumber(u: string, j: nat)
    requires j < |u| && u[j] == '-'
    ensures !IsNumber(u)
  {
    if j < DotIndex(u) {
      assert WholePart(u)[j] == '-';
    } else {
      assert FracPart(u)[j - DotIndex(u) - 1] == '-';
    }
  }

  lemma {:induction false} StripKeepsMinus(s: string)
    requires '-' in s
    ensures '-' in StripTrailingZeros(s)
  {
    if s[|s| - 1] == '0' {
      assert s == s[..|s| - 1] + "0";
      StripKeepsMinus(s[..|s| - 1]);
    }
  }

  /** Division truncates toward zero: a negative amount has a negative quotient or remainder. */
  lemma {:induction false} NegativeDivides(raw: int, base: nat)
    requires raw < 0 && base > 0
    ensures TruncDiv(raw, base) < 0 || (TruncDiv(raw, base) == 0 && TruncRem(raw, base) == raw)
  {
  }

  lemma {:induction false} PaddedMinus(s: string, n: nat)
    requires '-' in s
    ensures '-' in PadStart(s, n)
  {
    var k :| 0 <= k < |s| && s[k] == '-';
    var p := PadStart(s, n);
    assert p[|p| - |s| + k] == '-';
  }

  lemma {:induction false} MinusFirst(n: int)
    requires n < 0
    ensures '-' in PrintInt(n)
  {
    assert PrintInt(n)[0] == '-';
  }

  lemma {:induction false} JoinKeepsMinus(a: string, b: string)
    ensures '-' in a || '-' in b ==> '-' in a + "." + b
    ensures '-' in b ==> b != ""
  {
  }

  lemma {:induction false} NegativePrintsMinus(raw: int, decimals: nat)
    requires raw < 0
    ensures '-' in FromRawAmount(raw, decimals)
  {
    if decimals == 0 {
      MinusFirst(raw);
    } else {
      var base := Pow10(decimals);
      var quotient, rem := TruncDiv(raw, base), TruncRem(raw, base);
      var padded := PadStart(PrintInt(rem), decimals);
      NegativeDivides(raw, base);
      if quotient < 0 {
        MinusFirst(quotient);
      } else {
        MinusFirst(rem);
        PaddedMinus(PrintInt(rem), decimals);
        StripKeepsMinus(padded);
      }
      JoinKeepsMinus(PrintInt(quotient), StripTrailingZeros(padded));
    }
  }

  lemma {:induction false} TrimEndKeepsMinus(s: string)
    requires '-' in s
    ensures '-' in TrimEnd(s)
  {
    if IsSpace(s[|s| - 1]) {
      assert s == s[..|s| - 1] + [s[|s| - 1]];
      TrimEndKeepsMinus(s[..|s| - 1]);
    }
  }

  lemma {:induction false} TrimStartKeepsMinus(s: string)
    requires '-' in s
    ensures '-' in TrimStart(s)
  {
    if IsSpace(s[0]) {
      assert s == [s[0]] + s[1..];
      TrimStartKeepsMinus(s[1..]);
    }
  }

  lemma {:induction false} TrimKeepsMinus(s: string)
    requires '-' in s
    ensures '-' in Trim(s)
  {
    TrimStartKeepsMinus(s);
    TrimEndKeepsMinus(TrimStart(s));
  }

  lemma {:induction false} ReadParts(t: string, w: nat, frac: string, decimals: nat)
    requires AllDigits(frac) && |frac| <= decimals
    requires t == if frac == "" then PrintNat(w) else PrintNat(w) + "." + frac
    ensures ToRawAmount(t, decimals) == Some(Combine(w, ReadNat(PadEnd(frac, decimals)), decimals))
  {
    JoinParts(PrintNat(w), frac);
  }

  lemma {:induction false} NonNegativeReadsBack(raw: nat, decimals: nat)
    ensures ToRawAmount(FromRawAmount(raw, decimals), decimals) == Some(raw)
  {
    var w, f := DivMod(raw, Pow10(decimals));
    assert raw == Combine(w, f, decimals);
    FromRawParts(raw, w, f, decimals);
    FracDigitsReadBack(f, decimals);
    ReadParts(FromRawAmount(raw, decimals), w, FracDigits(f, decimals), decimals);
  }

  /** Reading what was printed gives the amount back, exactly for non-negative amounts. */
  lemma {:induction false} ReadBackPrinted(raw: int, decimals: nat)
    ensures ToRawAmount(FromRawAmount(raw, decimals), decimals) == Some(raw) <==> raw >= 0
  {
    if raw < 0 {
      NegativeIsRejected(raw, decimals);
    } else {
      NonNegativeReadsBack(raw, decimals);
    }
  }

  /** Printing what was read gives the canonical text of every accepted input. */
  lemma {:induction false} PrintBackRead(s: string, decimals: nat)
    requires ToRawAmount(s, decimals).Some?
    ensures FromRawAmount(ToRawAmount(s, decimals).value, decimals) == CanonicalText(Trim(s))
  {
    var whole, frac := WholePart(Trim(s)), FracPart(Trim(s));
    var padded := PadEnd(frac, decimals);
    var f := ReadNat(padded);
    ReadBound(padded);
    FromRawParts(ToRawAmount(s, decimals).value, ReadNat(whole), f, decimals);
    PrintRead(whole);
    if decimals > 0 {
      FracDigitsReadBack(f, decimals);
      SameLengthSameValue(PadStart(PrintNat(f), decimals), padded);
      StripIgnoresPadding(frac, decimals - |frac|);
      assert padded == frac + Zeros(decimals - |frac|);
    }
  }

  lemma {:induction false} ZerosSnoc(s: string, n: nat)
    requires n > 0
    ensures var t := s + Zeros(n);
      t[|t| - 1] == '0' && t[..|t| - 1] == s + Zeros(n - 1)
  {
  }

  lemma {:induction false} StripIgnoresPadding(s: string, n: nat)
    ensures StripTrailingZeros(s + Zeros(n)) == StripTrailingZeros(s)
  {
    if n > 0 {
      ZerosSnoc(s, n);
      StripIgnoresPadding(s, n - 1);
    } else {
      assert s + Zeros(0) == s;
    }
  }

  /**
   * Canonical text has no superfluous zero at either end and is a fixed point,
   * so an accepted text reads the same as its canonical form.
   */
  lemma {:induction false} CanonicalFormIsStable(s: string, decimals: nat)
    requires ToRawAmount(s, decimals).Some?
    ensures var c := CanonicalText(Trim(s));
      && ToRawAmount(c, decimals) == ToRawAmount(s, decimals)
      && CanonicalText(Trim(c)) == c
      && (|WholePart(c)| > 1 ==> c[0] != '0')
      && (FracPart(c) != "" ==> c[|c| - 1] != '0')
  {
    var raw := ToRawAmount(s, decimals).value;
    var c := CanonicalText(Trim(s));
    PrintBackRead(s, decimals);
    NonNegativeReadsBack(raw, decimals);
    PrintBackRead(c, decimals);
    CanonicalEnds(Trim(s));
  }

  lemma {:induction false} CanonicalEnds(t: string)
    requires IsNumber(t)
    ensures var c := CanonicalText(t);
      && (|WholePart(c)| > 1 ==> c[0] != '0')
      && (FracPart(c) != "" ==> c[|c| - 1] != '0')
  {
    JoinParts(StripLeadingZeros(WholePart(t)), StripTrailingZeros(FracPart(t)));
  }
}
