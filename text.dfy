/** Small value types and the Python string operations the server relies on:
    slicing (`s[:n]`), `s.split(' ')[0]`, and decimal digits for date formatting. */
module Text {

  datatype Option<+T> = None | Some(value: T)

  datatype Result<+T, +E> = Success(value: T) | Failure(error: E)

  /** Python's `s[:n]`: the first `n` characters of `s`, or all of `s` when it is shorter. */
  function Take(s: string, n: nat): (r: string)
    ensures r <= s
    ensures |r| == if |s| < n then |s| else n
  {
    if |s| <= n then s else s[..n]
  }

  /** Python's `s.split(' ')[0]`: everything before the first space (all of `s` if it has none). */
  function LeadingWord(s: string): (w: string)
    ensures w <= s
    ensures ' ' !in w
    ensures |w| < |s| ==> s[|w|] == ' '
  {
    if s == [] || s[0] == ' ' then [] else [s[0]] + LeadingWord(s[1..])
  }

  /** The first word of `w + " " + rest` is `w` when `w` has no space. */
  lemma {:induction false} LeadingWordOf(w: string, rest: string)
    requires ' ' !in w
    ensures LeadingWord(w + " " + rest) == w
  {
    if w != [] {
      assert (w + " " + rest)[1..] == w[1..] + " " + rest;
      LeadingWordOf(w[1..], rest);
    }
  }

  predicate IsDigit(c: char) {
    '0' <= c <= '9'
  }

  /** The value of a decimal digit; any other character reads as 0. */
  function DigitValue(c: char): (d: nat)
    ensures d < 10
  {
    if IsDigit(c) then (c as int) - ('0' as int) else 0
  }

  function DigitChar(d: nat): (c: char)
    requires d < 10
    ensures IsDigit(c) && DigitValue(c) == d
  {
    (('0' as int) + d) as char
  }

  function Pow10(w: nat): (p: nat)
    ensures p >= 1
  {
    if w == 0 then 1 else 10 * Pow10(w - 1)
  }

  /** The last `width` decimal digits of `n`, zero-padded on the left (`%02d`, `%04d`). */
  function PadDigits(n: nat, width: nat): (r: string)
    ensures |r| == width
    ensures forall i :: 0 <= i < |r| ==> IsDigit(r[i])
  {
    if width == 0 then [] else PadDigits(n / 10, width - 1) + [DigitChar(n % 10)]
  }

  /** The number a string of decimal digits denotes, most significant digit first. */
  function DecimalValue(s: string): nat
  {
    if s == [] then 0 else 10 * DecimalValue(s[..|s| - 1]) + DigitValue(s[|s| - 1])
  }

  /** Reading back a zero-padded number gives the number, as long as it fits the width. */
  lemma {:induction false} PadDigitsRoundTrip(n: nat, width: nat)
    requires n < Pow10(width)
    ensures DecimalValue(PadDigits(n, width)) == n
  {
    if width > 0 {
      var s := PadDigits(n, width);
      assert s[..|s| - 1] == PadDigits(n / 10, width - 1);
      assert n / 10 < Pow10(width - 1);
      PadDigitsRoundTrip(n / 10, width - 1);
    }
  }
}
