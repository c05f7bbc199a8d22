/**
 * Time helpers of the edge device (raspberry_pi_system/src/utils.py): the
 * window test `time_in_range` and the fixed `%H:%M:%S` format/parse pair.
 *
 * A `datetime.time` is modelled as the number of microseconds since midnight.
 */
module EdgeTime {
  import opened Wrappers
  import opened Text

  const MicrosPerSecond: nat := 1_000_000
  const MicrosPerDay: nat := 86_400_000_000

  type TimeOfDay = t: nat | t < 86_400_000_000

  /** The clock reading `h:m:s.000000`. */
  function Clock(h: nat, m: nat, s: nat): nat {
    (h * 3600 + m * 60 + s) * MicrosPerSecond
  }

  function Hour(t: TimeOfDay): nat { t / MicrosPerSecond / 3600 }
  function Minute(t: TimeOfDay): nat { t / MicrosPerSecond / 60 % 60 }
  function Second(t: TimeOfDay): nat { t / MicrosPerSecond % 60 }

  /**
   * `time_in_range(start, end, current)`: a window with `start > end` runs past
   * midnight and holds every instant outside the open gap `(end, start)`.
   */
  function TimeInRange(start: TimeOfDay, end: TimeOfDay, current: TimeOfDay): (r: bool)
    ensures start > end ==> (r <==> !(end < current < start))
    ensures start == end ==> (r <==> current == start)
  {
    if start <= end then start <= current <= end
    else start <= current || current <= end
  }

  /** How far the clock hand travels from `a` forward to `b`. */
  function ClockwiseDistance(a: TimeOfDay, b: TimeOfDay): (d: nat)
    ensures d < MicrosPerDay
  {
    (b - a) % MicrosPerDay
  }

  /**
   * Reference reading of a window on a 24-hour dial: `current` is in range
   * exactly when walking forward from `start` reaches it no later than `end`.
   */
  lemma TimeInRangeIsClockwiseArc(start: TimeOfDay, end: TimeOfDay, current: TimeOfDay)
    ensures TimeInRange(start, end, current)
        <==> ClockwiseDistance(start, current) <= ClockwiseDistance(start, end)
  {
  }

  /** `%02d` for a value below 100. */
  function TwoDigits(n: nat): (r: string)
    requires n < 100
    ensures |r| == 2 && IsDigit(r[0]) && IsDigit(r[1])
  {
    [DigitChar(n / 10), DigitChar(n % 10)]
  }

  /** `format_time(t)`: `t.strftime("%H:%M:%S")`; microseconds are dropped. */
  function FormatTime(t: TimeOfDay): (r: string)
    ensures |r| == 8 && r[2] == ':' && r[5] == ':'
    ensures forall i :: 0 <= i < 8 && i != 2 && i != 5 ==> IsDigit(r[i])
  {
    TwoDigits(Hour(t)) + ":" + TwoDigits(Minute(t)) + ":" + TwoDigits(Second(t))
  }

  /** What `%H`, `%M` and `%S` match in `strptime`: one or two ASCII digits. */
  predicate IsField(f: string) {
    1 <= |f| <= 2 && forall i :: 0 <= i < |f| ==> IsDigit(f[i])
  }

  /**
   * `parse_time(s)`: `datetime.strptime(s, "%H:%M:%S").time()`. The whole text
   * must match, so there are exactly three colon-separated fields. Hours above
   * 23 and minutes above 59 do not match the directive; seconds 60 and 61 match
   * it but are then refused by `datetime`. Every refusal is a `ValueError`,
   * modelled as `None`.
   */
  function ParseTime(s: string): (r: Option<TimeOfDay>)
    ensures r.Some? ==> r.value % MicrosPerSecond == 0
  {
    var fields := SplitOn(s, ':');
    if |fields| == 3 && IsField(fields[0]) && IsField(fields[1]) && IsField(fields[2]) then
      var h, m, sec := DecimalValue(fields[0]), DecimalValue(fields[1]), DecimalValue(fields[2]);
      if h <= 23 && m <= 59 && sec <= 59 then Some(Clock(h, m, sec)) else None
    else None
  }

  lemma TwoDigitsValue(n: nat)
    requires n < 100
    ensures DecimalValue(TwoDigits(n)) == n
  {
    var r := TwoDigits(n);
    assert r[..1][..0] == [];
    assert r[..1] == [DigitChar(n / 10)];
    assert DecimalValue(r[..1]) == DigitValue(r[0]);
    assert DigitValue(DigitChar(n / 10)) == n / 10;
    assert DigitValue(DigitChar(n % 10)) == n % 10;
  }

  lemma ClockParts(t: TimeOfDay)
    ensures Hour(t) <= 23 && Minute(t) <= 59 && Second(t) <= 59
    ensures Clock(Hour(t), Minute(t), Second(t)) == t - t % MicrosPerSecond
  {
  }

  lemma ClockReadBack(h: nat, m: nat, s: nat)
    requires h <= 23 && m <= 59 && s <= 59
    ensures Clock(h, m, s) < MicrosPerDay
    ensures Hour(Clock(h, m, s)) == h && Minute(Clock(h, m, s)) == m && Second(Clock(h, m, s)) == s
  {
    var secs := h * 3600 + m * 60 + s;
    assert Clock(h, m, s) / MicrosPerSecond == secs;
    assert secs / 60 == h * 60 + m;
  }

  /** Formatting then parsing gives the time back, to the whole second. */
  lemma {:induction false} ParseFormatRoundTrip(t: TimeOfDay)
    ensures ParseTime(FormatTime(t)) == Some(t - t % MicrosPerSecond)
    ensures t % MicrosPerSecond == 0 ==> ParseTime(FormatTime(t)) == Some(t)
  {
    var a, b, c := TwoDigits(Hour(t)), TwoDigits(Minute(t)), TwoDigits(Second(t));
    assert FormatTime(t) == a + [':'] + (b + [':'] + c);
    SplitOnFirst(a, ':', b + [':'] + c);
    SplitOnFirst(b, ':', c);
    SplitOnWhole(c, ':');
    assert SplitOn(FormatTime(t), ':') == [a, b, c];
    TwoDigitsValue(Hour(t));
    TwoDigitsValue(Minute(t));
    TwoDigitsValue(Second(t));
    ClockParts(t);
  }

  lemma TwoDigitsOfValue(f: string)
    requires IsField(f) && |f| == 2
    ensures DecimalValue(f) < 100 && TwoDigits(DecimalValue(f)) == f
  {
    assert f[..1][..0] == [];
    var d0, d1 := DigitValue(f[0]), DigitValue(f[1]);
    assert DecimalValue(f[..1]) == d0;
    assert DecimalValue(f) == 10 * d0 + d1;
    assert DigitChar(d0) == f[0];
    assert DigitChar(d1) == f[1];
  }

  /**
   * The fixed-width form is canonical: an 8-character text that parses is
   * exactly what formatting the parsed time produces.
   */
  lemma {:induction false} ParsedTextIsCanonical(s: string)
    requires |s| == 8 && ParseTime(s).Some?
    ensures FormatTime(ParseTime(s).value) == s
  {
    var fields := SplitOn(s, ':');
    SplitOnJoin(s, ':');
    assert fields[1..][1..] == [fields[2]];
    assert Join(fields[1..], ':') == fields[1] + [':'] + fields[2];
    assert Join(fields, ':') == fields[0] + [':'] + (fields[1] + [':'] + fields[2]);
    assert |fields[0]| == 2 && |fields[1]| == 2 && |fields[2]| == 2;
    TwoDigitsOfValue(fields[0]);
    TwoDigitsOfValue(fields[1]);
    TwoDigitsOfValue(fields[2]);
    var h, m, sec := DecimalValue(fields[0]), DecimalValue(fields[1]), DecimalValue(fields[2]);
    ClockReadBack(h, m, sec);
  }
}
