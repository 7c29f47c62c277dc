/** The regular expressions of the Jordan doctors scraper, each written out
    as the leftmost-match search that JavaScript's backtracking engine
    performs for that particular pattern:

    - the phone shape `(?:\+?\d[\d\s-]{6,}\d)`;
    - the city labels `المدينه\s*:\s*([^|\n\r]+)` (also with `ة`) and
      `المدينه\s*:\s*([\p{L}\s-]{2,})`;
    - the honorific name `(?:د\.|الدكتور|الدكتورة)\s+[\p{L}\s'.-]+`;
    - the Altibbi specialty alternation.

    `\p{L}` is approximated by `IsLetter`. */
module DoctorPatterns {
  import opened Text
  import opened Js

  /** `\p{L}`, approximated: ASCII, Latin-1 and Arabic letters. */
  predicate IsLetter(c: char) {
    ('A' <= c <= 'Z') || ('a' <= c <= 'z')
    || ('\U{C0}' <= c <= '\U{FF}' && c != '\U{D7}' && c != '\U{F7}')
    || ('\U{621}' <= c <= '\U{64A}') || ('\U{671}' <= c <= '\U{6D3}')
  }

  /** The character classes the patterns repeat. */
  datatype CharClass =
    | Spaces             // \s
    | PhoneChars         // [\d\s-]
    | NameChars          // [\p{L}\s'.-]
    | NoBarOrBreak       // [^|\n\r]
    | LettersSpacesDash  // [\p{L}\s-]

  predicate InClass(cls: CharClass, c: char) {
    match cls
    case Spaces => IsSpace(c)
    case PhoneChars => IsDigit(c) || IsSpace(c) || c == '-'
    case NameChars => IsLetter(c) || IsSpace(c) || c == '\'' || c == '.' || c == '-'
    case NoBarOrBreak => c != '|' && c != '\n' && c != '\r'
    case LettersSpacesDash => IsLetter(c) || IsSpace(c) || c == '-'
  }

  /** End of the maximal run of characters of class `cls` from `k`. */
  function RunEnd(t: string, k: nat, cls: CharClass): (e: nat)
    requires k <= |t|
    ensures k <= e <= |t|
    ensures forall j | k <= j < e :: InClass(cls, t[j])
    ensures e < |t| ==> !InClass(cls, t[e])
    decreases |t| - k
  {
    if k < |t| && InClass(cls, t[k]) then RunEnd(t, k + 1, cls) else k
  }

  // ----- the leftmost-match search -----

  /** The first position `j` in `i..n` where the anchored matcher `m`
      succeeds, with its result: the outer loop of a regex search. */
  function FirstMatch<R>(m: nat -> Option<R>, i: nat, n: nat): (r: Option<(nat, R)>)
    requires i <= n
    ensures r.Some? ==> i <= r.value.0 <= n && m(r.value.0) == Some(r.value.1)
    decreases n - i
  {
    match m(i)
    case Some(x) => Some((i, x))
    case None => if i == n then None else FirstMatch(m, i + 1, n)
  }

  /** No position before the one found matches, nor any when none is found. */
  lemma {:induction false} FirstMatchLeftmost<R>(m: nat -> Option<R>, i: nat, n: nat)
    requires i <= n
    ensures FirstMatch(m, i, n).Some? ==> forall j | i <= j < FirstMatch(m, i, n).value.0 :: m(j).None?
    ensures FirstMatch(m, i, n).None? ==> forall j | i <= j <= n :: m(j).None?
    decreases n - i
  {
    if m(i).None? && i < n {
      FirstMatchLeftmost(m, i + 1, n);
    }
  }

  /** A position that matches is found, or an earlier one is. */
  lemma {:induction false} FirstMatchFinds<R>(m: nat -> Option<R>, i: nat, n: nat, k: nat)
    requires i <= k <= n && m(k).Some?
    ensures FirstMatch(m, i, n).Some? && FirstMatch(m, i, n).value.0 <= k
    decreases n - i
  {
    if m(i).None? {
      FirstMatchFinds(m, i + 1, n, k);
    }
  }

  // ----- phone: (?:\+?\d[\d\s-]{6,}\d) -----

  /** The largest `p` with `lo <= p < e` and `t[p]` a digit. */
  function LastDigit(t: string, lo: nat, e: nat): (r: Option<nat>)
    requires e <= |t|
    ensures r.Some? ==> lo <= r.value < e && IsDigit(t[r.value])
    ensures r.Some? ==> forall p | r.value < p < e :: !IsDigit(t[p])
    ensures r.None? ==> forall p | lo <= p < e :: !IsDigit(t[p])
    decreases e
  {
    if e <= lo then None
    else if IsDigit(t[e - 1]) then Some(e - 1)
    else LastDigit(t, lo, e - 1)
  }

  /** The phone pattern anchored at `i`: the end of the match, if any. The
      optional `+` is taken when present (without it the next `\d` would
      face the `+`); the body run is greedy, so the match ends at the last
      digit of the run that leaves at least six body characters before it. */
  function PhoneAt(t: string, i: nat): (r: Option<nat>)
    requires i <= |t|
    ensures r.Some? ==> i < r.value <= |t|
    ensures r.Some? ==> (t[i] == '+' || IsDigit(t[i])) && IsDigit(t[r.value - 1])
    ensures r.Some? && t[i] == '+' ==> i + 1 < r.value && IsDigit(t[i + 1])
    ensures r.Some? ==> forall k | i < k < r.value :: InClass(PhoneChars, t[k])
    ensures r.Some? ==> r.value - i >= 8
  {
    var j := if i < |t| && t[i] == '+' then i + 1 else i;
    if j < |t| && IsDigit(t[j]) then
      var e := RunEnd(t, j + 1, PhoneChars);
      match LastDigit(t, j + 7, e)
      case None => None
      case Some(p) => Some(p + 1)
    else None
  }

  /** The phone pattern anchored at each position of `t`. */
  function PhoneMatcher(t: string): nat -> Option<nat> {
    (j: nat) => if j <= |t| then PhoneAt(t, j) else None
  }

  /** Leftmost phone match, as `(start, end)`. */
  function FindPhone(t: string): (r: Option<(nat, nat)>)
    ensures r.Some? ==> r.value.0 < |t| && PhoneAt(t, r.value.0) == Some(r.value.1)
  {
    FirstMatch(PhoneMatcher(t), 0, |t|)
  }

  /** A phone as the scraper stores it: starts with `+` or a digit, ends with
      a digit, otherwise only digits, single spaces and hyphens. */
  predicate PhoneShaped(s: string) {
    |s| >= 2
    && (s[0] == '+' || IsDigit(s[0]))
    && IsDigit(s[|s| - 1])
    && (forall k | 1 <= k < |s| :: IsDigit(s[k]) || s[k] == ' ' || s[k] == '-')
    && SingleSpaced(s)
  }

  /** Collapsing the spaces of a match leaves digits, spaces and dashes
      after its first character. */
  lemma CollapsedPhoneChars(m: string)
    requires |m| >= 1 && !IsSpace(m[0])
    requires forall k | 1 <= k < |m| :: InClass(PhoneChars, m[k])
    ensures CollapseSpaces(m) == [m[0]] + CollapseSpaces(m[1..])
    ensures forall k | 1 <= k < |CollapseSpaces(m)| ::
      IsDigit(CollapseSpaces(m)[k]) || CollapseSpaces(m)[k] == ' ' || CollapseSpaces(m)[k] == '-'
  {
    var c := CollapseSpaces(m);
    var rest := m[1..];
    assert c == [m[0]] + CollapseSpaces(rest);
    CollapseChars(rest);
    forall k | 1 <= k < |c|
      ensures IsDigit(c[k]) || c[k] == ' ' || c[k] == '-'
    {
      var d := CollapseSpaces(rest)[k - 1];
      assert c[k] == d;
      if d != ' ' {
        assert d in rest && !IsSpace(d);
      }
    }
  }

  lemma PhoneShapeOfMatch(m: string)
    requires |m| >= 2 && (m[0] == '+' || IsDigit(m[0])) && IsDigit(m[|m| - 1])
    requires forall k | 1 <= k < |m| :: InClass(PhoneChars, m[k])
    ensures PhoneShaped(NormalizeSpace(m))
  {
    var c := CollapseSpaces(m);
    CollapsedPhoneChars(m);
    CollapseSingleSpaced(m);
    CollapseKeepsLast(m);
    assert |c| >= 2 by {
      assert |CollapseSpaces(m[1..])| >= 1;
    }
    assert !IsSpace(c[0]) && !IsSpace(c[|c| - 1]);
    assert PhoneShaped(c);
    assert NormalizeSpace(m) == Trim(c) == c;
  }

  /** `text.match(phone)`, then `replace(/\s+/g, " ").trim()`, or `""`. */
  function Phone(t: string): (ph: string)
    ensures ph != "" ==> PhoneShaped(ph)
  {
    match FindPhone(t)
    case None => ""
    case Some(s) =>
      var m := t[s.0..s.1];
      PhoneShapeOfMatch(m);
      NormalizeSpace(m)
  }

  /** The phone is empty exactly when the pattern matches nowhere. */
  lemma PhoneFound(t: string)
    ensures Phone(t) == "" <==> FindPhone(t).None?
  {
    match FindPhone(t)
    case None =>
    case Some(s) =>
      var m := t[s.0..s.1];
      PhoneShapeOfMatch(m);
  }

  // ----- city label: المدينه\s*:\s*(capture) -----

  const LabelHa: string := "المدينه"
  const LabelTa: string := "المدينة"

  /** The capture group `cls{min,}` (greedy), tried first at `q` and then,
      as the preceding `\s*` gives characters back, at `q - 1` down to `lo`. */
  function CaptureFrom(t: string, lo: nat, q: nat, cls: CharClass, min: nat): (r: Option<(nat, nat)>)
    requires lo <= q <= |t|
    ensures r.Some? ==> lo <= r.value.0 && r.value.0 + min <= r.value.1 <= |t|
    ensures r.Some? ==> forall k | r.value.0 <= k < r.value.1 :: InClass(cls, t[k])
    decreases q
  {
    var e := RunEnd(t, q, cls);
    if e - q >= min then Some((q, e))
    else if q > lo then CaptureFrom(t, lo, q - 1, cls, min)
    else None
  }

  /** The label pattern anchored at `k`: the span of its capture group. */
  function LabelAt(t: string, k: nat, w: string, cls: CharClass, min: nat): (r: Option<(nat, nat)>)
    requires k <= |t|
    ensures r.Some? ==> r.value.0 + min <= r.value.1 <= |t|
    ensures r.Some? ==> forall j | r.value.0 <= j < r.value.1 :: InClass(cls, t[j])
  {
    if k + |w| <= |t| && t[k..k + |w|] == w then
      var a := RunEnd(t, k + |w|, Spaces);
      if a < |t| && t[a] == ':' then
        var b := RunEnd(t, a + 1, Spaces);
        CaptureFrom(t, a + 1, b, cls, min)
      else None
    else None
  }

  /** The label pattern anchored at each position of `t`. */
  function LabelMatcher(t: string, w: string, cls: CharClass, min: nat): nat -> Option<(nat, nat)> {
    (j: nat) => if j <= |t| then LabelAt(t, j, w, cls, min) else None
  }

  /** Leftmost label match: its position and the span of its capture. */
  function FindLabel(t: string, w: string, cls: CharClass, min: nat): (r: Option<(nat, (nat, nat))>)
    ensures r.Some? ==> r.value.0 <= |t| && LabelAt(t, r.value.0, w, cls, min) == Some(r.value.1)
  {
    FirstMatch(LabelMatcher(t, w, cls, min), 0, |t|)
  }

  /** The trimmed capture of the leftmost match of a label pattern whose
      capture class excludes `|`. */
  function LabelCapture(t: string, w: string, cls: CharClass, min: nat): (r: Option<string>)
    requires cls == NoBarOrBreak || cls == LettersSpacesDash
    ensures r.Some? <==> FindLabel(t, w, cls, min).Some?
    ensures r.Some? ==> Trimmed(r.value) && forall j | 0 <= j < |r.value| :: r.value[j] != '|'
  {
    match FindLabel(t, w, cls, min)
    case None => None
    case Some(found) =>
      var s := found.1;
      NoBarInClass(t, s.0, s.1, cls);
      var m := t[s.0..s.1];
      var ab := TrimIsSliceFn(m);
      var r := m[ab.0..ab.1];
      NoBarInSlice(t, s.0, s.1, ab.0, ab.1);
      Some(r)
  }

  lemma NoBarInClass(t: string, lo: nat, hi: nat, cls: CharClass)
    requires lo <= hi <= |t| && (cls == NoBarOrBreak || cls == LettersSpacesDash)
    requires forall j | lo <= j < hi :: InClass(cls, t[j])
    ensures forall j | lo <= j < hi :: t[j] != '|'
  {
    forall j | lo <= j < hi
      ensures t[j] != '|'
    {
      assert InClass(cls, t[j]);
    }
  }

  lemma NoBarInSlice(t: string, lo: nat, hi: nat, a: nat, b: nat)
    requires lo <= hi <= |t| && a <= b <= hi - lo
    requires forall j | lo <= j < hi :: t[j] != '|'
    ensures forall j | 0 <= j < b - a :: t[lo..hi][a..b][j] != '|'
  {
    forall j | 0 <= j < b - a
      ensures t[lo..hi][a..b][j] != '|'
    {
      assert t[lo..hi][a..b][j] == t[lo + a + j];
    }
  }

  /** `extractCityFromText`: `""` for empty text; otherwise the whitespace
      is collapsed and the first of the three patterns that matches gives
      its capture, trimmed. */
  function ExtractCity(text: string): (city: string)
    ensures text == "" ==> city == ""
    ensures Trimmed(city)
    ensures forall j | 0 <= j < |city| :: city[j] != '|'
  {
    if text == "" then ""
    else
      var t := NormalizeSpace(text);
      var m1 := LabelCapture(t, LabelHa, NoBarOrBreak, 1);
      var m2 := LabelCapture(t, LabelTa, NoBarOrBreak, 1);
      var m3 := LabelCapture(t, LabelHa, LettersSpacesDash, 2);
      if m1.Some? then m1.value else if m2.Some? then m2.value else if m3.Some? then m3.value else ""
  }

  lemma {:induction false} CaptureThirdImpliesFirst(t: string, lo: nat, q: nat)
    requires lo <= q <= |t|
    requires forall j | 0 <= j < |t| :: t[j] != '\n' && t[j] != '\r'
    requires CaptureFrom(t, lo, q, LettersSpacesDash, 2).Some?
    ensures CaptureFrom(t, lo, q, NoBarOrBreak, 1).Some?
    decreases q
  {
    var e3 := RunEnd(t, q, LettersSpacesDash);
    if e3 - q >= 2 {
      assert InClass(LettersSpacesDash, t[q]);
      assert InClass(NoBarOrBreak, t[q]);
    } else {
      CaptureThirdImpliesFirst(t, lo, q - 1);
    }
  }

  /** A label match with the capture class `[\p{L}\s-]{2,}` at `k` gives
      one with `[^|\n\r]+` at `k` when the text has no line breaks. */
  lemma {:induction false} LabelThirdImpliesFirstAt(t: string, k: nat, w: string)
    requires k <= |t|
    requires forall j | 0 <= j < |t| :: t[j] != '\n' && t[j] != '\r'
    requires LabelAt(t, k, w, LettersSpacesDash, 2).Some?
    ensures LabelAt(t, k, w, NoBarOrBreak, 1).Some?
  {
    var a := RunEnd(t, k + |w|, Spaces);
    var b := RunEnd(t, a + 1, Spaces);
    CaptureThirdImpliesFirst(t, a + 1, b);
  }

  /** On collapsed text the third city pattern never decides: whenever it
      matches, the first one matches too. */
  lemma ThirdLabelImpliesFirst(t: string)
    requires forall j | 0 <= j < |t| :: t[j] != '\n' && t[j] != '\r'
    requires FindLabel(t, LabelHa, LettersSpacesDash, 2).Some?
    ensures FindLabel(t, LabelHa, NoBarOrBreak, 1).Some?
  {
    var k := FindLabel(t, LabelHa, LettersSpacesDash, 2).value.0;
    LabelThirdImpliesFirstAt(t, k, LabelHa);
    FirstMatchFinds(LabelMatcher(t, LabelHa, NoBarOrBreak, 1), 0, |t|, k);
  }

  /** Hence `extractCityFromText` is the first label pattern, else the second, else `""`. */
  lemma ExtractCityTwoPatterns(text: string)
    ensures ExtractCity(text) ==
      if text == "" then ""
      else
        var t := NormalizeSpace(text);
        var m1 := LabelCapture(t, LabelHa, NoBarOrBreak, 1);
        var m2 := LabelCapture(t, LabelTa, NoBarOrBreak, 1);
        if m1.Some? then m1.value else if m2.Some? then m2.value else ""
  {
    if text != "" {
      var t := NormalizeSpace(text);
      assert forall j | 0 <= j < |t| :: t[j] != '\n' && t[j] != '\r';
      if FindLabel(t, LabelHa, LettersSpacesDash, 2).Some? {
        ThirdLabelImpliesFirst(t);
      }
    }
  }

  // ----- honorific name: (?:د\.|الدكتور|الدكتورة)\s+[\p{L}\s'.-]+ -----

  const Doctor1: string := "د."
  const Doctor2: string := "الدكتور"
  const Doctor3: string := "الدكتورة"

  /** One alternative `p\s+[\p{L}\s'.-]+` anchored at `i`: the match end. The
      `\s+` is greedy; when no name character follows the spaces it gives
      the last one back to the name class, which needs two spaces. */
  function NameAltAt(t: string, i: nat, p: string): (r: Option<nat>)
    requires i <= |t|
    ensures r.Some? ==> i + |p| < r.value <= |t| && t[i..i + |p|] == p
  {
    if i + |p| < |t| && t[i..i + |p|] == p && IsSpace(t[i + |p|]) then
      var j := i + |p|;
      var e := RunEnd(t, j, Spaces);
      if e < |t| && InClass(NameChars, t[e]) then Some(RunEnd(t, e, NameChars))
      else if e - j >= 2 then Some(e)
      else None
    else None
  }

  /** A slice that begins with `p` begins with every prefix `q` of `p`. */
  lemma SliceStartsWith(t: string, i: nat, e: nat, p: string, q: string)
    requires i + |p| <= e <= |t| && t[i..i + |p|] == p && StartsWith(p, q)
    ensures StartsWith(t[i..e], q)
  {
    assert t[i..e][..|q|] == t[i..i + |p|][..|q|];
  }

  /** The three alternatives, in order. */
  function NameAt(t: string, i: nat): (r: Option<nat>)
    requires i <= |t|
    ensures r.Some? ==> i < r.value <= |t|
    ensures r.Some? ==> StartsWith(t[i..r.value], Doctor1) || StartsWith(t[i..r.value], Doctor2)
  {
    var a1 := NameAltAt(t, i, Doctor1);
    if a1.Some? then
      SliceStartsWith(t, i, a1.value, Doctor1, Doctor1);
      a1
    else
      var a2 := NameAltAt(t, i, Doctor2);
      if a2.Some? then
        SliceStartsWith(t, i, a2.value, Doctor2, Doctor2);
        a2
      else
        var a3 := NameAltAt(t, i, Doctor3);
        if a3.Some? then
          SliceStartsWith(t, i, a3.value, Doctor3, Doctor2);
          a3
        else None
  }

  /** The name pattern anchored at each position of `t`. */
  function NameMatcher(t: string): nat -> Option<nat> {
    (j: nat) => if j <= |t| then NameAt(t, j) else None
  }

  /** Leftmost honorific-name match, as `(start, end)`. */
  function FindName(t: string): (r: Option<(nat, nat)>)
    ensures r.Some? ==> r.value.0 < r.value.1 <= |t| && NameAt(t, r.value.0) == Some(r.value.1)
  {
    FirstMatch(NameMatcher(t), 0, |t|)
  }

  /** Trimming a string that begins with a word whose first and last
      characters are not whitespace keeps that word at its head. */
  lemma TrimKeepsPrefix(m: string, w: string)
    requires StartsWith(m, w) && w != [] && !IsSpace(w[0]) && !IsSpace(w[|w| - 1])
    ensures StartsWith(Trim(m), w)
  {
    assert m[0] == w[0];
    assert TrimStart(m) == m;
    var r := TrimEnd(m);
    assert m[|w| - 1] == w[|w| - 1];
    assert |r| >= |w|;
    assert r[..|w|] == m[..|w|];
  }

  /** `text.match(name)[0].trim()`; every name found begins with an honorific. */
  function Name(t: string): (r: Option<string>)
    ensures r.Some? ==> StartsWith(r.value, Doctor1) || StartsWith(r.value, Doctor2)
  {
    match FindName(t)
    case None => None
    case Some(s) =>
      var m := t[s.0..s.1];
      if StartsWith(m, Doctor1) then TrimKeepsPrefix(m, Doctor1); Some(Trim(m))
      else TrimKeepsPrefix(m, Doctor2); Some(Trim(m))
  }

  /** A name is found exactly when the pattern matches somewhere. */
  lemma NameFound(t: string)
    ensures Name(t).Some? <==> FindName(t).Some?
  {
  }

  // ----- Altibbi specialty alternation -----

  /** The leading word of each alternative, in the pattern's order. The sixth
      may continue with `\s*و` and `التناسلية`, the ninth with ` وأوعية`. */
  const SpecialtyWords: seq<string> := [
    "طب عام", "باطنية", "نسائية وتوليد", "أطفال", "أسنان", "جلدية", "عيون",
    "أنف وأذن وحنجرة", "قلب", "عظام", "جراحة", "مسالك بولية", "نفسية", "أعصاب",
    "تغذية", "صدرية"
  ]
  const SkinIndex: nat := 5
  const HeartIndex: nat := 8
  const SkinGenital: string := "التناسلية"
  const AndVessels: string := " وأوعية"

  /** Alternative `idx` anchored at `i`: the match end. */
  function SpecialtyAltAt(t: string, i: nat, idx: nat): (r: Option<nat>)
    requires i <= |t| && idx < |SpecialtyWords|
    ensures r.Some? ==> OccursAt(t, SpecialtyWords[idx], i) && i + |SpecialtyWords[idx]| <= r.value <= |t|
  {
    var w := SpecialtyWords[idx];
    if !OccursAt(t, w, i) then None
    else if idx == SkinIndex then
      var e := RunEnd(t, i + |w|, Spaces);
      if e < |t| && t[e] == 'و' then
        if OccursAt(t, SkinGenital, e + 1) then Some(e + 1 + |SkinGenital|) else Some(e + 1)
      else Some(i + |w|)
    else if idx == HeartIndex then
      if OccursAt(t, AndVessels, i + |w|) then Some(i + |w| + |AndVessels|) else Some(i + |w|)
    else Some(i + |w|)
  }

  /** The first alternative, from `idx` on, that matches at `i`. */
  function SpecialtyFrom(t: string, i: nat, idx: nat): (r: Option<(nat, nat)>)
    requires i <= |t| && idx <= |SpecialtyWords|
    ensures r.Some? ==> idx <= r.value.0 < |SpecialtyWords| && SpecialtyAltAt(t, i, r.value.0) == Some(r.value.1)
    decreases |SpecialtyWords| - idx
  {
    if idx == |SpecialtyWords| then None
    else
      match SpecialtyAltAt(t, i, idx)
      case Some(e) => Some((idx, e))
      case None => SpecialtyFrom(t, i, idx + 1)
  }

  /** The alternatives are tried in order: none before the one chosen
      matches, and none matches when nothing is chosen. */
  lemma {:induction false} SpecialtyFromFirst(t: string, i: nat, idx: nat)
    requires i <= |t| && idx <= |SpecialtyWords|
    ensures SpecialtyFrom(t, i, idx).Some? ==>
      forall a | idx <= a < SpecialtyFrom(t, i, idx).value.0 :: SpecialtyAltAt(t, i, a).None?
    ensures SpecialtyFrom(t, i, idx).None? ==>
      forall a | idx <= a < |SpecialtyWords| :: SpecialtyAltAt(t, i, a).None?
    decreases |SpecialtyWords| - idx
  {
    if idx < |SpecialtyWords| && SpecialtyAltAt(t, i, idx).None? {
      SpecialtyFromFirst(t, i, idx + 1);
    }
  }

  /** The alternation anchored at each position of `t`: `(alternative, end)`. */
  function SpecialtyMatcher(t: string): nat -> Option<(nat, nat)> {
    (j: nat) => if j <= |t| then SpecialtyFrom(t, j, 0) else None
  }

  /** Leftmost position where some alternative matches: `(position, (alternative, end))`. */
  function FindSpecialty(t: string): (r: Option<(nat, (nat, nat))>)
    ensures r.Some? ==> r.value.0 <= |t| && SpecialtyFrom(t, r.value.0, 0) == Some(r.value.1)
  {
    FirstMatch(SpecialtyMatcher(t), 0, |t|)
  }

  lemma SpecialtyWordShape(a: nat)
    requires a < |SpecialtyWords|
    ensures SpecialtyWords[a] != [] && !IsSpace(SpecialtyWords[a][0])
      && !IsSpace(SpecialtyWords[a][|SpecialtyWords[a]| - 1])
  {
  }

  /** A match of alternative `a`, trimmed, still begins with its word. */
  lemma SpecialtyMatchTrim(t: string, s: nat, a: nat, e: nat)
    requires a < |SpecialtyWords| && OccursAt(t, SpecialtyWords[a], s)
    requires s + |SpecialtyWords[a]| <= e <= |t|
    ensures StartsWith(Trim(t[s..e]), SpecialtyWords[a]) && Trim(t[s..e]) != []
  {
    var m, w := t[s..e], SpecialtyWords[a];
    assert m[..|w|] == t[s..s + |w|];
    SpecialtyWordShape(a);
    TrimKeepsPrefix(m, w);
  }

  /** `specialtyMatch[0].trim()`, or `None`: the result begins with the
      leading word of the alternative that matched. */
  function Specialty(t: string): (r: Option<string>)
    ensures r.Some? ==> Trimmed(r.value) && r.value != ""
  {
    match FindSpecialty(t)
    case None => None
    case Some(h) =>
      SpecialtyMatchTrim(t, h.0, h.1.0, h.1.1);
      Some(Trim(t[h.0..h.1.1]))
  }

  /** A specialty is found exactly when the pattern matches somewhere, and
      it begins with the leading word of the alternative that matched. */
  lemma SpecialtyOfMatch(t: string)
    ensures Specialty(t).Some? <==> FindSpecialty(t).Some?
    ensures Specialty(t).Some? ==> StartsWith(Specialty(t).value, SpecialtyWords[FindSpecialty(t).value.1.0])
  {
    match FindSpecialty(t)
    case None =>
    case Some(h) =>
      SpecialtyMatchTrim(t, h.0, h.1.0, h.1.1);
  }

  /** Any listed specialty word in the text yields some specialty. */
  lemma SpecialtyFound(t: string, a: nat)
    requires a < |SpecialtyWords| && Contains(t, SpecialtyWords[a])
    ensures Specialty(t).Some?
  {
    ContainsAt(t, SpecialtyWords[a]);
    var k :| OccursAt(t, SpecialtyWords[a], k);
    assert SpecialtyAltAt(t, k, a).Some?;
    SpecialtyFromFirst(t, k, 0);
    FirstMatchFinds(SpecialtyMatcher(t), 0, |t|, k);
    SpecialtyOfMatch(t);
  }
}
