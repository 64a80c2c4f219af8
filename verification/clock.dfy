/** Readings of `datetime.now()`, injected as values, and the text the plugin
    renders from them: the date sub-directories of an object key and the
    millisecond timestamp of a batch filename.
 */
module Clock {
  import opened Text

  datatype Instant = Instant(year: int, month: int, day: int, hour: int, minute: int, second: int, microsecond: int) {
    /** The ranges `datetime` guarantees, with the year narrowed to four digits. */
    predicate Valid() {
      && 1000 <= year <= 9999 && 1 <= month <= 12 && 1 <= day <= 31
      && 0 <= hour < 24 && 0 <= minute < 60 && 0 <= second < 60
      && 0 <= microsecond < 1000000
    }
  }

  /** A clock reading the plugin can observe. */
  type Moment = t: Instant | t.Valid() witness Instant(2025, 9, 10, 0, 0, 0, 0)

  /** `str(now.year)`, which is also what `%Y` prints for a four-digit year. */
  function YearText(t: Moment): (r: string)
    ensures |r| == 4 && AllDigits(r)
  {
    assert Pow10(3) == 1000 && Pow10(4) == 10000;
    DecimalLength(t.year, 4);
    Decimal(t.year)
  }

  /** `f"{n:02d}"` for a field below 100. */
  function Pad2(n: nat): (r: string)
    requires n < 100
    ensures |r| == 2 && AllDigits(r)
  {
    FixedDigits(n, 2)
  }

  /** `now.strftime('%Y%m%d')` */
  function CompactDate(t: Moment): (r: string)
    ensures |r| == 8 && AllDigits(r)
  {
    YearText(t) + Pad2(t.month) + Pad2(t.day)
  }

  /** `now.strftime('%Y%m%d%H%M%S%f')[:-3]`: the microseconds are printed with
      six digits and the last three are cut off, leaving milliseconds. */
  function MillisStamp(t: Moment): (r: string)
    ensures |r| == 17 && AllDigits(r)
  {
    var micros := FixedDigits(t.microsecond, 6);
    YearText(t) + Pad2(t.month) + Pad2(t.day) + Pad2(t.hour) + Pad2(t.minute) + Pad2(t.second)
      + micros[..|micros| - 3]
  }

  lemma DivDiv(n: nat, p: nat)
    requires p >= 1
    ensures n / 10 / p == n / (10 * p)
  {
    var q := n / 10;
    assert q == p * (q / p) + q % p;
    assert n == (10 * p) * (q / p) + (q % p * 10 + n % 10);
    ModUnique(n, 10 * p, q / p, q % p * 10 + n % 10);
  }

  /** `n` with its last `b` decimal digits dropped, one digit at a time:
      the quotient by `10^b`. */
  function DropDigits(n: nat, b: nat): (r: nat)
    ensures r == n / Pow10(b)
    decreases b
  {
    if b == 0 then n
    else
      DivDiv(n, Pow10(b - 1));
      DropDigits(n / 10, b - 1)
  }

  /** Dropping the last `b` of `a + b` fixed digits leaves the digits of `n`
      without its last `b`. */
  lemma {:induction false} FixedDigitsSplit(n: nat, a: nat, b: nat)
    ensures FixedDigits(n, a + b) == FixedDigits(DropDigits(n, b), a) + FixedDigits(n, b)
    decreases b
  {
    if b > 0 {
      FixedDigitsSplit(n / 10, a, b - 1);
    }
  }

  /** Dropping three digits is dividing by 1000. */
  lemma DropThree(n: nat)
    ensures DropDigits(n, 3) == n / 1000
  {
    assert Pow10(3) == 1000;
  }

  /** Two strings ending in pieces of the same length are equal only when
      both the pieces and what comes before them are. */
  lemma SplitAppend(a: string, b: string, c: string, d: string)
    requires |b| == |d| && a + b == c + d
    ensures a == c && b == d
  {
    assert a == (a + b)[..|a|] && c == (c + d)[..|c|];
  }

  /** Cutting the last three of six microsecond digits leaves the milliseconds. */
  lemma MillisStampFields(t: Moment)
    ensures MillisStamp(t)
         == YearText(t) + Pad2(t.month) + Pad2(t.day) + Pad2(t.hour) + Pad2(t.minute) + Pad2(t.second)
            + FixedDigits(t.microsecond / 1000, 3)
  {
    FixedDigitsSplit(t.microsecond, 3, 3);
    DropThree(t.microsecond);
    var micros := FixedDigits(t.microsecond, 6);
    assert micros[..|micros| - 3] == FixedDigits(t.microsecond / 1000, 3);
  }

  /** Two readings print the same millisecond timestamp only when they agree
      on every field down to the millisecond. */
  lemma MillisStampInjective(s: Moment, t: Moment)
    requires MillisStamp(s) == MillisStamp(t)
    ensures s.year == t.year && s.month == t.month && s.day == t.day
    ensures s.hour == t.hour && s.minute == t.minute && s.second == t.second
    ensures s.microsecond / 1000 == t.microsecond / 1000
  {
    MillisStampFields(s);
    MillisStampFields(t);
    var s1 := YearText(s) + Pad2(s.month);
    var s2 := s1 + Pad2(s.day);
    var s3 := s2 + Pad2(s.hour);
    var s4 := s3 + Pad2(s.minute);
    var s5 := s4 + Pad2(s.second);
    var t1 := YearText(t) + Pad2(t.month);
    var t2 := t1 + Pad2(t.day);
    var t3 := t2 + Pad2(t.hour);
    var t4 := t3 + Pad2(t.minute);
    var t5 := t4 + Pad2(t.second);
    SplitAppend(s5, FixedDigits(s.microsecond / 1000, 3), t5, FixedDigits(t.microsecond / 1000, 3));
    SplitAppend(s4, Pad2(s.second), t4, Pad2(t.second));
    SplitAppend(s3, Pad2(s.minute), t3, Pad2(t.minute));
    SplitAppend(s2, Pad2(s.hour), t2, Pad2(t.hour));
    SplitAppend(s1, Pad2(s.day), t1, Pad2(t.day));
    SplitAppend(YearText(s), Pad2(s.month), YearText(t), Pad2(t.month));
    DecimalInjective(s.year, t.year);
    FixedDigitsInjective(s.month, t.month, 2);
    FixedDigitsInjective(s.day, t.day, 2);
    FixedDigitsInjective(s.hour, t.hour, 2);
    FixedDigitsInjective(s.minute, t.minute, 2);
    FixedDigitsInjective(s.second, t.second, 2);
    FixedDigitsInjective(s.microsecond / 1000, t.microsecond / 1000, 3);
  }
}
