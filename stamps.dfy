/** Date-times and the minute-precision stamp `strftime("%Y-%m-%d_%H:%M")` that ends every local id. */
module Stamps {
  import opened Text

  type Year = y: int | 1 <= y <= 9999 witness 1
  type Month = m: int | 1 <= m <= 12 witness 1
  type Day = d: int | 1 <= d <= 31 witness 1
  type Hour = h: int | 0 <= h <= 23
  type Minute = m: int | 0 <= m <= 59
  type Second = s: int | 0 <= s <= 59

  /** A Python `datetime` (month lengths are not modelled: they play no part in formatting). */
  datatype DateTime = DateTime(year: Year, month: Month, day: Day, hour: Hour, minute: Minute, second: Second)

  /** What survives in a stamp: the date-time truncated to the minute. */
  datatype MinuteKey = MinuteKey(year: int, month: int, day: int, hour: int, minute: int)

  function MinuteOf(t: DateTime): MinuteKey {
    MinuteKey(t.year, t.month, t.day, t.hour, t.minute)
  }

  const StampLength: nat := 16

  /** `t.strftime("%Y-%m-%d_%H:%M")`, for example "2023-09-04_08:30". */
  function Stamp(t: DateTime): (s: string)
    ensures |s| == StampLength
  {
    PadDigits(t.year, 4) + "-" + PadDigits(t.month, 2) + "-" + PadDigits(t.day, 2)
    + "_" + PadDigits(t.hour, 2) + ":" + PadDigits(t.minute, 2)
  }

  /** Reads the five numeric fields back out of a stamp. */
  function ReadStamp(s: string): MinuteKey
    requires |s| == StampLength
  {
    MinuteKey(DecimalValue(s[0..4]), DecimalValue(s[5..7]), DecimalValue(s[8..10]),
              DecimalValue(s[11..13]), DecimalValue(s[14..16]))
  }

  lemma StampRoundTrip(t: DateTime)
    ensures ReadStamp(Stamp(t)) == MinuteOf(t)
  {
    var s := Stamp(t);
    assert s[0..4] == PadDigits(t.year, 4);
    assert s[5..7] == PadDigits(t.month, 2);
    assert s[8..10] == PadDigits(t.day, 2);
    assert s[11..13] == PadDigits(t.hour, 2);
    assert s[14..16] == PadDigits(t.minute, 2);
    PadDigitsRoundTrip(t.year, 4);
    PadDigitsRoundTrip(t.month, 2);
    PadDigitsRoundTrip(t.day, 2);
    PadDigitsRoundTrip(t.hour, 2);
    PadDigitsRoundTrip(t.minute, 2);
  }

  /** Two stamps are equal exactly when the date-times agree to the minute: seconds are dropped. */
  lemma StampInjective(t1: DateTime, t2: DateTime)
    ensures Stamp(t1) == Stamp(t2) <==> MinuteOf(t1) == MinuteOf(t2)
  {
    if Stamp(t1) == Stamp(t2) {
      StampRoundTrip(t1);
      StampRoundTrip(t2);
    }
  }

  /** A text prefix followed by a stamp: both the prefix and the minute can be recovered. */
  lemma StampedEqual(p1: string, t1: DateTime, p2: string, t2: DateTime)
    ensures p1 + Stamp(t1) == p2 + Stamp(t2) <==> p1 == p2 && MinuteOf(t1) == MinuteOf(t2)
  {
    StampInjective(t1, t2);
    if p1 + Stamp(t1) == p2 + Stamp(t2) {
      var s := p1 + Stamp(t1);
      assert p1 == s[..|p1|] == p2;
      assert Stamp(t1) == s[|p1|..] == Stamp(t2);
    }
  }

  /** The last sixteen characters of a stamped string name its minute. */
  lemma StampedSuffix(p: string, t: DateTime)
    ensures var s := p + Stamp(t); |s| >= StampLength && ReadStamp(s[|s| - StampLength..]) == MinuteOf(t)
  {
    var s := p + Stamp(t);
    assert s[|s| - StampLength..] == Stamp(t);
    StampRoundTrip(t);
  }
}
