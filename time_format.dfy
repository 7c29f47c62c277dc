/** The 12-hour clock rendering of `src/lib/utils.ts`: `formatTime12h` on
    an `"H:M"` string and `formatTime12hFromDate` on the hours and minutes
    of a `Date`. The suffix is `م` (afternoon) from hour 12 on and `ص`
    (morning) before it. */
module TimeFormat {
  import opened Text
  import opened Js

  const Pm: string := "م"
  const Am: string := "ص"

  /** `h >= 12 ? "م" : "ص"` */
  function Suffix(h: int): (s: string)
    ensures s == Pm <==> h >= 12
    ensures s == Am <==> h < 12
  {
    if h >= 12 then Pm else Am
  }

  /** `h % 12 || 12`: the truncating remainder, with 0 shown as 12. */
  function Hour12(h: int): int {
    var r := JsRem(h, 12);
    if r == 0 then 12 else r
  }

  /** On the hours of a day the displayed hour is 1..12, 12 exactly for
      midnight and noon, and equal to the hour modulo 12 otherwise. */
  lemma Hour12OfDay(h: int)
    requires 0 <= h <= 23
    ensures 1 <= Hour12(h) <= 12
    ensures Hour12(h) == 12 <==> h == 0 || h == 12
    ensures h != 0 && h != 12 ==> Hour12(h) == h % 12
  {
  }

  /** `s.padStart(n, c)` for a one-character pad. */
  function PadStart(s: string, n: nat, c: char): (r: string)
    ensures |r| == if |s| >= n then |s| else n
    ensures r[|r| - |s|..] == s
    ensures forall i | 0 <= i < |r| - |s| :: r[i] == c
    decreases n - |s|
  {
    if |s| >= n then s else PadStart([c] + s, n, c)
  }

  /** `String(m).padStart(2, "0")` */
  function Minutes(m: int): string {
    PadStart(IntToString(m), 2, '0')
  }

  /** Minutes have at least two characters; below ten they are a zero and the digit. */
  lemma MinutesPadded(m: int)
    ensures |Minutes(m)| >= 2
    ensures 0 <= m < 10 ==> Minutes(m) == ['0', DigitChar(m)]
    ensures m >= 10 ==> Minutes(m) == NatToString(m)
  {
    if 0 <= m < 10 {
      assert NatToString(m) == [DigitChar(m)];
    }
  }

  /** `${hour12}:${mm} ${suffix}` */
  function Render(h: int, m: int): string {
    IntToString(Hour12(h)) + ":" + Minutes(m) + " " + Suffix(h)
  }

  /** `time.split(":")` destructured into `[hStr, mStr]`: the text before
      the first colon and, when there is one, the text between it and the
      next colon. */
  function SplitTime(time: string): (parts: (string, Option<string>)) {
    var k := IndexOf(time, ':');
    if k == |time| then (time, None)
    else
      var rest := time[k + 1..];
      (time[..k], Some(rest[..IndexOf(rest, ':')]))
  }

  /** What `formatTime12h` gives: a string, or `Fractional` for a part that
      is a number with a fractional part (rendered by JavaScript as a
      float, which is not modelled). */
  datatype Formatted = Text(s: string) | Fractional

  predicate Integral(n: Num) {
    n.Val? && n.v == n.v.Floor as real
  }

  /** `Number(mStr)`, with a missing part `undefined`, hence NaN. */
  function PartNumber(part: Option<string>): Num {
    match part
    case None => NaN
    case Some(s) => StringToNumber(s)
  }

  /** `formatTime12h(time)` */
  function FormatTime12h(time: string): (r: Formatted)
    ensures StringToNumber(SplitTime(time).0).NaN? || PartNumber(SplitTime(time).1).NaN? ==> r == Text(time)
  {
    var parts := SplitTime(time);
    var h := StringToNumber(parts.0);
    var m := PartNumber(parts.1);
    if h.NaN? || m.NaN? then Text(time)
    else if !Integral(h) || !Integral(m) then Fractional
    else Text(Render(h.v.Floor, m.v.Floor))
  }

  /** `formatTime12hFromDate(d)` with `d.getHours()` and `d.getMinutes()`. */
  function FormatTime12hFromDate(hours: int, minutes: int): (r: string)
    requires 0 <= hours <= 23 && 0 <= minutes <= 59
  {
    Render(hours, minutes)
  }

  /** The result is exactly the hour, a colon, the padded minutes, a space
      and the suffix; the suffix is `م` exactly from hour 12 on. */
  lemma FormatShape(time: string)
    requires FormatTime12h(time).Text? && FormatTime12h(time).s != time
    ensures var (hs, ms) := SplitTime(time);
      var h := StringToNumber(hs).v.Floor;
      var m := PartNumber(ms).v.Floor;
      FormatTime12h(time).s == IntToString(Hour12(h)) + ":" + Minutes(m) + " " + Suffix(h)
      && (EndsWith(FormatTime12h(time).s, Pm) <==> h >= 12)
  {
    var (hs, ms) := SplitTime(time);
    var h := StringToNumber(hs).v.Floor;
    var m := PartNumber(ms).v.Floor;
    var pre := IntToString(Hour12(h)) + ":" + Minutes(m) + " ";
    assert FormatTime12h(time).s == pre + Suffix(h);
    assert (pre + Suffix(h))[|pre + Suffix(h)| - |Suffix(h)|..] == Suffix(h);
    assert Pm != Am;
  }

  /** A string without a colon has no minutes, so it comes back unchanged. */
  lemma NoColonUnchanged(time: string)
    requires forall i | 0 <= i < |time| :: time[i] != ':'
    ensures FormatTime12h(time) == Text(time)
  {
    assert IndexOf(time, ':') == |time|;
  }

  /** Splitting `"a:b"` where neither part has a colon gives back `a` and `b`. */
  lemma SplitOfParts(a: string, b: string)
    requires forall i | 0 <= i < |a| :: a[i] != ':'
    requires forall i | 0 <= i < |b| :: b[i] != ':'
    ensures SplitTime(a + ":" + b) == (a, Some(b))
  {
    var time := a + ":" + b;
    assert time == a + (":" + b);
    IndexOfAppend(a, ":" + b, ':');
    var k := IndexOf(time, ':');
    assert k == |a|;
    assert time[..k] == a;
    assert time[k + 1..] == b;
    assert IndexOf(b, ':') == |b|;
    assert b[..|b|] == b;
  }

  /** On a string whose two parts are integers, the result is their rendering. */
  lemma FormatOfIntegers(time: string, h: int, m: int)
    requires StringToNumber(SplitTime(time).0) == Val(h as real)
    requires SplitTime(time).1.Some? && StringToNumber(SplitTime(time).1.value) == Val(m as real)
    ensures FormatTime12h(time) == Text(Render(h, m))
  {
    var parts := SplitTime(time);
    var hn, mn := StringToNumber(parts.0), PartNumber(parts.1);
    assert hn == Val(h as real) && mn == Val(m as real);
    assert (h as real).Floor == h && (m as real).Floor == m;
    assert hn.v.Floor == h && mn.v.Floor == m;
    assert Integral(hn) && Integral(mn);
    assert !hn.NaN? && !mn.NaN?;
  }

  /** `formatTime12hFromDate` with hours `h` and minutes `m` gives what
      `formatTime12h` gives for the string `"h:m"`. */
  lemma FromDateAgrees(h: nat, m: nat)
    requires h <= 23 && m <= 59
    ensures FormatTime12h(NatToString(h) + ":" + NatToString(m)) == Text(FormatTime12hFromDate(h, m))
  {
    var hs, ms := NatToString(h), NatToString(m);
    assert forall i | 0 <= i < |hs| :: hs[i] != ':' by {
      assert AllDigits(hs);
    }
    assert forall i | 0 <= i < |ms| :: ms[i] != ':' by {
      assert AllDigits(ms);
    }
    SplitOfParts(hs, ms);
    StringToNumberOfNat(h);
    StringToNumberOfNat(m);
    FormatOfIntegers(hs + ":" + ms, h, m);
  }
}
