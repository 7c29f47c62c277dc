/** The date and time windows the booking forms of the mental-health and
    nutrition pages enforce: a day from today to sixty days ahead and a
    clock time from `"09:00"` to `"17:00"`. Dates are day numbers; a clock
    time is the text of an `<input type="time">`. */
module Schedule {
  import opened Text

  /** How far ahead a booking may be made, in days. */
  const BookingHorizon: nat := 60

  const MinTime: string := "09:00"
  const MaxTime: string := "17:00"

  /** The day lies from `today` to `today + 60`, both included. */
  predicate InDateWindow(day: int, today: int) {
    today <= day <= today + BookingHorizon
  }

  /** `/^\d{2}:\d{2}$/.test(t)` */
  predicate ClockFormat(t: string) {
    |t| == 5 && IsDigit(t[0]) && IsDigit(t[1]) && t[2] == ':' && IsDigit(t[3]) && IsDigit(t[4])
  }

  /** A clock time proper: the format, with fewer than sixty minutes. */
  predicate ValidClock(t: string) {
    ClockFormat(t) && t[3] <= '5'
  }

  function Digit(c: char): (d: nat)
    requires IsDigit(c)
    ensures d < 10
  {
    c as int - '0' as int
  }

  /** `toMinutes(t)`: hours times sixty plus minutes, where hours and
      minutes are the numbers before and after the colon (on the format
      above, `Number` of a two-digit part is its decimal value). */
  function Minutes(t: string): (m: nat)
    requires ClockFormat(t)
    ensures m == DigitsValue(t[..2]) * 60 + DigitsValue(t[3..])
  {
    TwoDigits(t[..2]);
    TwoDigits(t[3..]);
    (Digit(t[0]) * 10 + Digit(t[1])) * 60 + Digit(t[3]) * 10 + Digit(t[4])
  }

  lemma TwoDigits(s: string)
    requires |s| == 2 && IsDigit(s[0]) && IsDigit(s[1])
    ensures AllDigits(s) && DigitsValue(s) == Digit(s[0]) * 10 + Digit(s[1])
  {
    assert s[..1][..0] == [];
    assert DigitsValue(s[..1]) == Digit(s[0]);
  }

  /** The mental-health rule: `toMinutes(MIN_TIME) <= toMinutes(t) <= toMinutes(MAX_TIME)`. */
  predicate InWindowByMinutes(t: string)
    requires ClockFormat(t)
  {
    Minutes(MinTime) <= Minutes(t) <= Minutes(MaxTime)
  }

  /** The nutrition rule: neither `t < MIN_TIME` nor `t > MAX_TIME` as strings. */
  predicate InWindowByText(t: string) {
    !LexLess(t, MinTime) && !LexLess(MaxTime, t)
  }

  /** The window in minutes is 540 to 1020. */
  lemma WindowMinutes()
    ensures Minutes(MinTime) == 540 && Minutes(MaxTime) == 1020
  {
  }

  /** On strings of the clock format, string order compares the hour
      digits, then the minute digits. */
  lemma LexLessClock(a: string, b: string)
    requires ClockFormat(a) && ClockFormat(b)
    ensures LexLess(a, b) <==>
      a[0] < b[0] || (a[0] == b[0] && (a[1] < b[1] || (a[1] == b[1] &&
      (a[3] < b[3] || (a[3] == b[3] && a[4] < b[4])))))
  {
    assert a[1..][1..] == a[2..] && b[1..][1..] == b[2..];
    assert a[2..][1..] == a[3..] && b[2..][1..] == b[3..];
    assert a[3..][1..] == a[4..] && b[3..][1..] == b[4..];
    assert a[4..][1..] == [] && b[4..][1..] == [];
    assert LexLess(a[4..], b[4..]) <==> a[4] < b[4];
    assert LexLess(a[3..], b[3..]) <==> a[3] < b[3] || (a[3] == b[3] && a[4] < b[4]);
    assert LexLess(a[2..], b[2..]) <==> LexLess(a[3..], b[3..]);
    assert LexLess(a[1..], b[1..]) <==> a[1] < b[1] || (a[1] == b[1] && LexLess(a[2..], b[2..]));
  }

  /** For clock times proper, string order is chronological order. */
  lemma ClockOrder(a: string, b: string)
    requires ValidClock(a) && ValidClock(b)
    ensures LexLess(a, b) <==> Minutes(a) < Minutes(b)
  {
    LexLessClock(a, b);
  }

  /** The two pages accept the same clock times proper. */
  lemma WindowsAgree(t: string)
    requires ValidClock(t)
    ensures InWindowByText(t) <==> InWindowByMinutes(t)
  {
    ClockOrder(t, MinTime);
    ClockOrder(MaxTime, t);
  }

  /** With sixty or more minutes the two rules part: `"08:75"` is 555
      minutes, inside the window by minutes, but before `"09:00"` as a
      string. */
  lemma WindowsDisagreeOffClock()
    ensures ClockFormat("08:75") && InWindowByMinutes("08:75") && !InWindowByText("08:75")
  {
    LexLessClock("08:75", MinTime);
  }
}
