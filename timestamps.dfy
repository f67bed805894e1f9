/**
 * A clock reading as Python's `datetime` holds it, and its rendering by
 * `datetime.isoformat()` for a UTC-aware value (section 5.4 of ISO 8601, as
 * profiled by RFC 3339), together with a parser for that rendering.
 */
module Timestamps {
  import opened Wrappers
  import opened Digits

  datatype Timestamp = Timestamp(
    year: int, month: int, day: int,
    hour: int, minute: int, second: int, microsecond: int)

  predicate IsLeapYear(y: int) {
    y % 4 == 0 && (y % 100 != 0 || y % 400 == 0)
  }

  function DaysInMonth(y: int, m: int): int
    requires 1 <= m <= 12
  {
    if m == 2 then (if IsLeapYear(y) then 29 else 28)
    else if m == 4 || m == 6 || m == 9 || m == 11 then 30
    else 31
  }

  /** The range `datetime` accepts (MINYEAR 1 to MAXYEAR 9999). */
  predicate Valid(t: Timestamp) {
    && 1 <= t.year <= 9999
    && 1 <= t.month <= 12
    && 1 <= t.day <= DaysInMonth(t.year, t.month)
    && 0 <= t.hour < 24
    && 0 <= t.minute < 60
    && 0 <= t.second < 60
    && 0 <= t.microsecond < 1000000
  }

  /** Both readings fall in the same second (they differ at most in microseconds). */
  predicate SameSecond(a: Timestamp, b: Timestamp) {
    a.year == b.year && a.month == b.month && a.day == b.day
    && a.hour == b.hour && a.minute == b.minute && a.second == b.second
  }

  /** `a` falls in an earlier second than `b`, in calendar order. */
  predicate EarlierSecond(a: Timestamp, b: Timestamp) {
    a.year < b.year || (a.year == b.year &&
    (a.month < b.month || (a.month == b.month &&
    (a.day < b.day || (a.day == b.day &&
    (a.hour < b.hour || (a.hour == b.hour &&
    (a.minute < b.minute || (a.minute == b.minute &&
    a.second < b.second)))))))))
  }

  /** The optional fractional part: omitted when the microsecond is zero. */
  function Fraction(micro: nat): string
    requires micro < 1000000
  {
    if micro == 0 then "" else "." + Pad(micro, 6)
  }

  /** `YYYY-MM-DD` */
  function IsoDate(t: Timestamp): (s: string)
    requires Valid(t)
    ensures |s| == 10
  {
    Pad(t.year, 4) + ['-'] + Pad(t.month, 2) + ['-'] + Pad(t.day, 2)
  }

  /** `HH:MM:SS` */
  function IsoTime(t: Timestamp): (s: string)
    requires Valid(t)
    ensures |s| == 8
  {
    Pad(t.hour, 2) + [':'] + Pad(t.minute, 2) + [':'] + Pad(t.second, 2)
  }

  /** `t.isoformat()` for `t` in UTC: `YYYY-MM-DDTHH:MM:SS[.ffffff]+00:00`. */
  function IsoFormatUtc(t: Timestamp): (s: string)
    requires Valid(t)
    ensures |s| == if t.microsecond == 0 then 25 else 32
  {
    IsoDate(t) + "T" + IsoTime(t) + Fraction(t.microsecond) + "+00:00"
  }

  function DigitsAt(s: string, i: nat, width: nat): (r: Option<nat>)
    ensures r.Some? ==> i + width <= |s| && AllDigits(s[i..i + width])
  {
    if i + width <= |s| && AllDigits(s[i..i + width]) then Some(Value(s[i..i + width])) else None
  }

  /** Three two-or-more-digit fields separated by `sep`, as in `YYYY-MM-DD` or `HH:MM:SS`. */
  function ParseTriple(s: string, w: nat, sep: char): Option<(nat, nat, nat)> {
    if |s| != w + 6 || s[w] != sep || s[w + 3] != sep then None
    else
      var a, b, c := DigitsAt(s, 0, w), DigitsAt(s, w + 1, 2), DigitsAt(s, w + 4, 2);
      if a.None? || b.None? || c.None? then None else Some((a.value, b.value, c.value))
  }

  /** The part after the seconds: an optional `.ffffff`, then the `+00:00` offset. */
  function ParseTail(s: string): Option<nat> {
    if s == "+00:00" then Some(0)
    else if |s| == 13 && s[0] == '.' && s[7..] == "+00:00" then DigitsAt(s, 1, 6)
    else None
  }

  /**
   * `datetime.fromisoformat` restricted to the shape `IsoFormatUtc` produces:
   * fixed separators, an optional six-digit fraction, and a `+00:00` offset.
   */
  function FromIsoFormatUtc(s: string): Option<Timestamp> {
    if |s| < 19 || s[10] != 'T' then None
    else
      var date, time, us := ParseTriple(s[..10], 4, '-'), ParseTriple(s[11..19], 2, ':'), ParseTail(s[19..]);
      if date.None? || time.None? || us.None? then None
      else
        var t := Timestamp(date.value.0, date.value.1, date.value.2,
                           time.value.0, time.value.1, time.value.2, us.value);
        if Valid(t) then Some(t) else None
  }

  lemma Slices(a: string, b: string, c: string)
    ensures (a + b + c)[|a|..|a| + |b|] == b
    ensures (a + b)[..|a|] == a
  {
  }

  lemma TripleParts(a: string, b: string, c: string, sep: char)
    ensures var s := a + [sep] + b + [sep] + c;
      && s[0..|a|] == a && s[|a|] == sep && s[|a| + 1..|a| + 1 + |b|] == b
      && s[|a| + 1 + |b|] == sep && s[|a| + 2 + |b|..] == c
  {
    var p1 := a + [sep];
    var p2 := p1 + b + [sep];
    Slices(a, [sep], b + [sep] + c);
    Slices(p1, b, [sep] + c);
    assert (p2 + c)[|p2|..] == c;
  }

  /** Three fixed-width digit fields joined by a separator parse to their values. */
  lemma TripleParse(a: string, b: string, c: string, sep: char)
    requires |b| == 2 && |c| == 2
    requires AllDigits(a) && AllDigits(b) && AllDigits(c)
    ensures ParseTriple(a + [sep] + b + [sep] + c, |a|, sep) == Some((Value(a), Value(b), Value(c)))
  {
    var s := a + [sep] + b + [sep] + c;
    TripleParts(a, b, c, sep);
    assert s[|a| + 4..|a| + 6] == c;
  }

  lemma TailRoundTrip(micro: nat)
    requires micro < 1000000
    ensures ParseTail(Fraction(micro) + "+00:00") == Some(micro)
  {
    if micro != 0 {
      var s := "." + Pad(micro, 6) + "+00:00";
      Slices(".", Pad(micro, 6), "+00:00");
      assert s[7..] == "+00:00";
      assert s != "+00:00" by { assert |s| == 13; }
      ValuePad(micro, 6);
    } else {
      assert Fraction(micro) + "+00:00" == "+00:00";
    }
  }

  /** Where the date, the time and the tail sit in a rendering. */
  lemma IsoLayout(t: Timestamp)
    requires Valid(t)
    ensures var s := IsoFormatUtc(t);
      && s[..10] == IsoDate(t) && s[10] == 'T' && s[11..19] == IsoTime(t)
      && s[19..] == Fraction(t.microsecond) + "+00:00"
  {
    var s := IsoFormatUtc(t);
    var tail := Fraction(t.microsecond) + "+00:00";
    assert s == IsoDate(t) + "T" + IsoTime(t) + tail;
    Slices(IsoDate(t) + "T", IsoTime(t), tail);
    Slices(IsoDate(t), "T", IsoTime(t) + tail);
    assert s[19..] == tail;
  }

  /** Every reading rendered by `isoformat()` parses back to the same instant. */
  lemma IsoRoundTrip(t: Timestamp)
    requires Valid(t)
    ensures FromIsoFormatUtc(IsoFormatUtc(t)) == Some(t)
  {
    IsoLayout(t);
    TripleParse(Pad(t.year, 4), Pad(t.month, 2), Pad(t.day, 2), '-');
    TripleParse(Pad(t.hour, 2), Pad(t.minute, 2), Pad(t.second, 2), ':');
    TailRoundTrip(t.microsecond);
    ValuePad(t.year, 4);
    ValuePad(t.month, 2);
    ValuePad(t.day, 2);
    ValuePad(t.hour, 2);
    ValuePad(t.minute, 2);
    ValuePad(t.second, 2);
  }
}
