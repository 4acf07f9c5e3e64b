/**
 * The string operations the renderer uses: decimal formatting of integers
 * (`Number.prototype.toString`, template-literal interpolation) and
 * `String.prototype.padStart`, with the decoding functions that invert them.
 */
module Text {

  /** The decimal digit character for `d`. */
  function DigitChar(d: int): (c: char)
    requires 0 <= d < 10
    ensures '0' <= c <= '9'
    ensures c as int - '0' as int == d
  {
    ('0' as int + d) as char
  }

  /** Every character is a decimal digit. */
  predicate IsDigits(s: string)
  {
    forall i :: 0 <= i < |s| ==> '0' <= s[i] <= '9'
  }

  /** The decimal notation of a natural number, without leading zeros. */
  function NatToDecimal(n: nat): (s: string)
    ensures |s| >= 1 && IsDigits(s)
    ensures |s| > 1 ==> s[0] != '0'
    ensures n < 10 <==> |s| == 1
  {
    if n < 10 then [DigitChar(n)]
    else NatToDecimal(n / 10) + [DigitChar(n % 10)]
  }

  /** The decimal notation of an integer: a minus sign before negative numbers. */
  function IntToDecimal(i: int): string
  {
    if i < 0 then "-" + NatToDecimal(-i) else NatToDecimal(i)
  }

  /** The value of a string of decimal digits (read most significant first). */
  function DecimalValue(s: string): int
  {
    if s == [] then 0
    else 10 * DecimalValue(s[..|s| - 1]) + (s[|s| - 1] as int - '0' as int)
  }

  /** Decoding the decimal notation of `n` gives back `n`. */
  lemma {:induction false} DecimalRoundTrip(n: nat)
    ensures DecimalValue(NatToDecimal(n)) == n
  {
    if n >= 10 {
      var s := NatToDecimal(n);
      assert s[..|s| - 1] == NatToDecimal(n / 10);
      DecimalRoundTrip(n / 10);
    }
  }

  /** `n` copies of `c`. */
  function Repeat(c: char, n: nat): (r: string)
    ensures |r| == n && forall i :: 0 <= i < n ==> r[i] == c
  {
    if n == 0 then [] else [c] + Repeat(c, n - 1)
  }

  /** `s.padStart(width, fill)` for a one-character `fill`. */
  function PadStart(s: string, width: nat, fill: char): string
  {
    if |s| >= width then s else Repeat(fill, width - |s|) + s
  }

  /**
   * Padding leaves a string of at least `width` characters alone; a shorter
   * one is brought to exactly `width` by `fill` characters before it.
   */
  lemma PadStartShape(s: string, width: nat, fill: char)
    ensures var r := PadStart(s, width, fill);
      && (|s| >= width ==> r == s)
      && (|s| < width ==> |r| == width)
      && r[|r| - |s|..] == s
      && forall i :: 0 <= i < |r| - |s| ==> r[i] == fill
  {
  }

  /** `s` without its leading `c` characters. */
  function TrimStart(s: string, c: char): (r: string)
    ensures |r| <= |s|
  {
    if s != [] && s[0] == c then TrimStart(s[1..], c) else s
  }

  /** Trimming removes exactly the fill characters put in front. */
  lemma {:induction false} TrimRepeat(fill: char, k: nat, s: string)
    requires s == [] || s[0] != fill
    ensures TrimStart(Repeat(fill, k) + s, fill) == s
  {
    if k > 0 {
      var t := Repeat(fill, k) + s;
      assert t[0] == fill;
      assert t[1..] == Repeat(fill, k - 1) + s;
      TrimRepeat(fill, k - 1, s);
    } else {
      assert Repeat(fill, k) + s == s;
    }
  }

  /** Padding is undone by trimming, when `s` does not itself start with the fill character. */
  lemma TrimPadStart(s: string, width: nat, fill: char)
    requires s == [] || s[0] != fill
    ensures TrimStart(PadStart(s, width, fill), fill) == s
  {
    if |s| < width {
      TrimRepeat(fill, width - |s|, s);
    }
  }
}
