/** The logic of the lab-analysis page (`src/pages/LabAnalysis.tsx`): the
    reference-range tables, `interpretResults`, the result summary, the
    `normalizeNumber` reader of pasted lab reports with its first-success
    combinator `get`, the laboratory search and the merge that
    `extractFromText` performs on the entered values. */
module LabAnalysis {
  import opened Text
  import opened Js
  import opened Seqs

  // ---------------------------------------------------------------------
  // Reference ranges and classification

  datatype Range = Range(min: real, max: real, unit: string)

  datatype Status = Normal | High | Low | Critical

  const BloodRanges: map<string, Range> := map[
    "hb" := Range(12.0, 16.0, "g/dL"),
    "wbc" := Range(4.0, 10.0, "×10³/μL"),
    "rbc" := Range(4.2, 5.4, "×10⁶/μL"),
    "platelets" := Range(150.0, 400.0, "×10³/μL"),
    "hematocrit" := Range(36.0, 46.0, "%"),
    "mcv" := Range(80.0, 100.0, "fL"),
    "mch" := Range(27.0, 32.0, "pg"),
    "mchc" := Range(32.0, 36.0, "g/dL")]

  const BiochemistryRanges: map<string, Range> := map[
    "glucose" := Range(70.0, 99.0, "mg/dL"),
    "cholesterol" := Range(0.0, 200.0, "mg/dL"),
    "triglycerides" := Range(0.0, 150.0, "mg/dL"),
    "hdl" := Range(40.0, 100.0, "mg/dL"),
    "ldl" := Range(0.0, 100.0, "mg/dL"),
    "urea" := Range(15.0, 45.0, "mg/dL"),
    "creatinine" := Range(0.6, 1.2, "mg/dL"),
    "uricAcid" := Range(3.5, 7.2, "mg/dL"),
    "alt" := Range(7.0, 56.0, "U/L"),
    "ast" := Range(10.0, 40.0, "U/L"),
    "bilirubin" := Range(0.3, 1.2, "mg/dL")]

  const HormoneRanges: map<string, Range> := map[
    "tsh" := Range(0.27, 4.2, "μIU/mL"),
    "t3" := Range(80.0, 200.0, "ng/dL"),
    "t4" := Range(5.1, 14.1, "μg/dL"),
    "cortisol" := Range(6.2, 19.4, "μg/dL"),
    "insulin" := Range(2.6, 24.9, "μIU/mL"),
    "testosterone" := Range(300.0, 1000.0, "ng/dL"),
    "estrogen" := Range(15.0, 350.0, "pg/mL"),
    "progesterone" := Range(0.2, 25.0, "ng/mL")]

  const VitaminRanges: map<string, Range> := map[
    "vitaminD" := Range(30.0, 100.0, "ng/mL"),
    "vitaminB12" := Range(200.0, 900.0, "pg/mL"),
    "folate" := Range(2.7, 17.0, "ng/mL"),
    "iron" := Range(60.0, 170.0, "μg/dL"),
    "ferritin" := Range(15.0, 150.0, "ng/mL"),
    "transferrin" := Range(200.0, 360.0, "mg/dL")]

  /** A range with `0 <= min <= max`. */
  predicate RangeOk(r: Range) { 0.0 <= r.min <= r.max }

  predicate TableOk(t: map<string, Range>) {
    forall k | k in t :: RangeOk(t[k])
  }

  /** Every range of the four tables is sensible. */
  lemma BloodRangesOk() ensures TableOk(BloodRanges) {}
  lemma BiochemistryRangesOk() ensures TableOk(BiochemistryRanges) {}
  lemma HormoneRangesOk() ensures TableOk(HormoneRanges) {}
  lemma VitaminRangesOk() ensures TableOk(VitaminRanges) {}

  /** The status of one reading: below the range is low, or critical below
      70% of the minimum; above it is high, or critical above 150% of the
      maximum; inside it, bounds included, is normal. */
  function Classify(v: real, r: Range): Status {
    if v < r.min then (if v < r.min * 0.7 then Critical else Low)
    else if v > r.max then (if v > r.max * 1.5 then Critical else High)
    else Normal
  }

  /** On a sensible range the four statuses split the line into five bands. */
  lemma ClassifyBands(v: real, r: Range)
    requires RangeOk(r)
    ensures Classify(v, r) == Normal <==> r.min <= v <= r.max
    ensures Classify(v, r) == Low <==> r.min * 0.7 <= v < r.min
    ensures Classify(v, r) == High <==> r.max < v <= r.max * 1.5
    ensures Classify(v, r) == Critical <==> v < r.min * 0.7 || v > r.max * 1.5
  {
    assert r.min * 0.7 <= r.min && r.max <= r.max * 1.5;
  }

  /** Moving a reading into the range never makes it worse than normal, and
      moving it further below the minimum never turns critical into low. */
  lemma ClassifyMonotoneBelow(v: real, w: real, r: Range)
    requires RangeOk(r) && w <= v < r.min
    ensures Classify(v, r) == Critical ==> Classify(w, r) == Critical
    ensures Classify(w, r) == Low ==> Classify(v, r) == Low
  {
  }

  // ---------------------------------------------------------------------
  // Entered values and interpretResults

  /** A JavaScript object as its entries in key order. */
  type Object<V> = seq<(string, V)>

  /** The value stored under `k`, if the object has that key. */
  function Lookup<V>(o: Object<V>, k: string): (r: Option<V>)
    ensures r.Some? <==> exists i | 0 <= i < |o| :: o[i].0 == k
    decreases |o|
  {
    if o == [] then None
    else if o[0].0 == k then Some(o[0].1)
    else
      var r := Lookup(o[1..], k);
      assert forall i | 0 <= i < |o| - 1 :: o[1..][i] == o[i + 1];
      r
  }

  predicate DistinctKeys<V>(o: Object<V>) {
    forall i, j | 0 <= i < j < |o| :: o[i].0 != o[j].0
  }

  /** One entered test value: `undefined` or a number (possibly NaN). */
  type Reading = Option<Num>

  /** What `interpretResults` pushes for one key: the key, its value and
      its status (the message text is not modelled). */
  datatype LabResult = LabResult(key: string, value: real, status: Status)

  /** The result for one entry: only a defined, numeric value whose key has
      a range gives one. */
  function Interpret(ranges: map<string, Range>, e: (string, Reading)): Option<LabResult> {
    if e.1.Some? && e.1.value.Val? && e.0 in ranges then
      Some(LabResult(e.0, e.1.value.v, Classify(e.1.value.v, ranges[e.0])))
    else None
  }

  function InterpretIn(ranges: map<string, Range>): ((string, Reading)) -> Option<LabResult> {
    e => Interpret(ranges, e)
  }

  /** The results of `interpretResults(values, ranges)`, in key order. */
  function Interpreted(values: Object<Reading>, ranges: map<string, Range>): seq<LabResult> {
    Collect(values, InterpretIn(ranges))
  }

  /** `interpretResults`: walks the keys and pushes one result per
      interpretable entry. */
  method InterpretResults(values: Object<Reading>, ranges: map<string, Range>) returns (results: seq<LabResult>)
    ensures results == Interpreted(values, ranges)
  {
    results := [];
    for k := 0 to |values|
      invariant results == Collect(values[..k], InterpretIn(ranges))
    {
      assert values[..k + 1][..k] == values[..k];
      var key, value := values[k].0, values[k].1;
      if value.Some? && value.value.Val? && key in ranges {
        var v := value.value.v;
        results := results + [LabResult(key, v, Classify(v, ranges[key]))];
      }
    }
    assert values[..|values|] == values;
  }

  /** A result exists exactly for each entry with a defined numeric value
      and a range, and carries that value and its classification. */
  lemma InterpretedMembers(values: Object<Reading>, ranges: map<string, Range>)
    ensures forall r | r in Interpreted(values, ranges) ::
      r.key in ranges && Some(Val(r.value)) in Lookups(values, r.key) && r.status == Classify(r.value, ranges[r.key])
    ensures forall i | 0 <= i < |values| && values[i].1.Some? && values[i].1.value.Val? && values[i].0 in ranges ::
      LabResult(values[i].0, values[i].1.value.v, Classify(values[i].1.value.v, ranges[values[i].0])) in Interpreted(values, ranges)
  {
    var f := InterpretIn(ranges);
    CollectMembers(values, f);
    forall r | r in Interpreted(values, ranges)
      ensures r.key in ranges && Some(Val(r.value)) in Lookups(values, r.key) && r.status == Classify(r.value, ranges[r.key])
    {
      var i :| 0 <= i < |values| && f(values[i]) == Some(r);
      LookupsHas(values, i);
    }
    forall i | 0 <= i < |values| && values[i].1.Some? && values[i].1.value.Val? && values[i].0 in ranges
      ensures LabResult(values[i].0, values[i].1.value.v, Classify(values[i].1.value.v, ranges[values[i].0])) in Interpreted(values, ranges)
    {
      assert f(values[i]).Some?;
    }
  }

  /** Every value stored under `k` (an object may list a key only once, but
      the sequence view allows repeats). */
  function Lookups<V>(o: Object<V>, k: string): (vs: seq<V>)
    decreases |o|
  {
    if o == [] then [] else (if o[0].0 == k then [o[0].1] else []) + Lookups(o[1..], k)
  }

  lemma {:induction false} LookupsHas<V>(o: Object<V>, i: int)
    requires 0 <= i < |o|
    ensures o[i].1 in Lookups(o, o[i].0)
    decreases i
  {
    if i > 0 {
      LookupsHas(o[1..], i - 1);
    }
  }

  /** With distinct keys, no two results share a key: one result per key. */
  lemma {:induction false} InterpretedDistinct(values: Object<Reading>, ranges: map<string, Range>)
    requires DistinctKeys(values)
    ensures var r := Interpreted(values, ranges);
      forall i, j | 0 <= i < j < |r| :: r[i].key != r[j].key
    decreases |values|
  {
    if values != [] {
      var init := values[..|values| - 1];
      var f := InterpretIn(ranges);
      InterpretedDistinct(init, ranges);
      var r0 := Collect(init, f);
      var r := Collect(values, f);
      assert Interpreted(init, ranges) == r0 && Interpreted(values, ranges) == r;
      match f(values[|values| - 1])
      case None =>
        assert r == r0;
      case Some(y) =>
        assert r == r0 + [y];
        assert y.key == values[|values| - 1].0;
        CollectMembers(init, f);
        forall i, j | 0 <= i < j < |r| ensures r[i].key != r[j].key {
          if j == |r| - 1 {
            assert r[i] in r0;
            var p :| 0 <= p < |init| && f(init[p]) == Some(r[i]);
            assert init[p] == values[p];
            assert r[i].key == values[p].0;
          } else {
            assert r[i] == r0[i] && r[j] == r0[j];
          }
        }
    }
  }

  /** `allResults`: the four interpreted categories in page order (the urine
      panel is not interpreted). */
  function AllResults(blood: Object<Reading>, biochemistry: Object<Reading>, hormones: Object<Reading>, vitamins: Object<Reading>): seq<LabResult> {
    Interpreted(blood, BloodRanges) + Interpreted(biochemistry, BiochemistryRanges)
    + Interpreted(hormones, HormoneRanges) + Interpreted(vitamins, VitaminRanges)
  }

  // ---------------------------------------------------------------------
  // The summary

  /** Number of results with status `st`. */
  function StatusCount(rs: seq<LabResult>, st: Status): nat
    decreases |rs|
  {
    if rs == [] then 0
    else StatusCount(rs[..|rs| - 1], st) + (if rs[|rs| - 1].status == st then 1 else 0)
  }

  /** `Math.round(part / total * 100)`. */
  function Percent(part: nat, total: nat): int
    requires total > 0
  {
    Round(part as real / total as real * 100.0)
  }

  datatype Summary = Summary(counts: map<Status, nat>, total: nat, normalPercent: int)

  /** `summaryCounts`: tallies the statuses, takes `allResults.length || 1`
      as the total and rounds the share of normal results. */
  method SummaryCounts(results: seq<LabResult>) returns (s: Summary)
    ensures forall st :: st in s.counts && s.counts[st] == StatusCount(results, st)
    ensures s.total == if results == [] then 1 else |results|
    ensures s.normalPercent == Percent(StatusCount(results, Normal), s.total)
  {
    var counts := map[Normal := 0, High := 0, Low := 0, Critical := 0];
    forall st ensures st in counts && counts[st] == StatusCount(results[..0], st) {
      assert results[..0] == [];
      match st
      case Normal =>
      case High =>
      case Low =>
      case Critical =>
    }
    for i := 0 to |results|
      invariant forall st :: st in counts && counts[st] == StatusCount(results[..i], st)
    {
      assert results[..i + 1][..i] == results[..i];
      var st := results[i].status;
      counts := counts[st := counts[st] + 1];
    }
    assert results[..|results|] == results;
    var total := if |results| == 0 then 1 else |results|;
    s := Summary(counts, total, Percent(counts[Normal], total));
  }

  /** The four counts add up to the number of results. */
  lemma {:induction false} StatusCountsSum(rs: seq<LabResult>)
    ensures StatusCount(rs, Normal) + StatusCount(rs, High) + StatusCount(rs, Low) + StatusCount(rs, Critical) == |rs|
    decreases |rs|
  {
    if rs != [] {
      StatusCountsSum(rs[..|rs| - 1]);
    }
  }

  /** A share of a positive total rounds to 0..100: 100 when it is all of
      it and 0 when it is none. */
  lemma PercentBounds(part: nat, total: nat)
    requires 0 < total && part <= total
    ensures 0 <= Percent(part, total) <= 100
    ensures part == total ==> Percent(part, total) == 100
    ensures part == 0 ==> Percent(part, total) == 0
  {
    var x := part as real / total as real;
    assert 0.0 <= x <= 1.0 by {
      assert part as real <= total as real;
    }
    if part == total {
      assert x == 1.0;
    }
  }

  /** The share of normal results lies in 0..100. */
  lemma NormalPercentInRange(results: seq<LabResult>)
    ensures var total := if results == [] then 1 else |results|;
      0 <= Percent(StatusCount(results, Normal), total) <= 100
  {
    StatusCountsSum(results);
    PercentBounds(StatusCount(results, Normal), if results == [] then 1 else |results|);
  }

  // ---------------------------------------------------------------------
  // Reading numbers out of a pasted report

  /** What the three replacements of `normalizeNumber` leave of one
      character: an Arabic-Indic digit becomes its ASCII digit, digits and
      points stay, a comma becomes a point, anything else is dropped. */
  function CleanChar(c: char): (d: Option<char>)
    ensures d.Some? ==> IsDigit(d.value) || d.value == '.'
  {
    if '\U{660}' <= c <= '\U{669}' then Some(DigitChar(c as int - 0x660))
    else if IsDigit(c) || c == '.' then Some(c)
    else if c == ',' then Some('.')
    else None
  }

  predicate DigitsAndPoints(s: string) {
    forall i | 0 <= i < |s| :: IsDigit(s[i]) || s[i] == '.'
  }

  /** The cleaned string handed to `Number`. */
  function Cleaned(s: string): (r: string)
    ensures DigitsAndPoints(r)
    decreases |s|
  {
    if s == [] then []
    else (match CleanChar(s[0]) case None => [] case Some(d) => [d]) + Cleaned(s[1..])
  }

  lemma {:induction false} CleanedAppend(a: string, b: string)
    ensures Cleaned(a + b) == Cleaned(a) + Cleaned(b)
    decreases |a|
  {
    if a != [] {
      assert (a + b)[1..] == a[1..] + b;
      CleanedAppend(a[1..], b);
    } else {
      assert a + b == b;
    }
  }

  /** `normalizeNumber(s)`: `undefined` when `Number` of the cleaned string is NaN. */
  function NormalizeNumber(s: string): Option<real> {
    match StringToNumber(Cleaned(s))
    case NaN => None
    case Val(v) => Some(v)
  }

  predicate AtMostOnePoint(s: string) {
    forall i, j | 0 <= i < j < |s| :: !(s[i] == '.' && s[j] == '.')
  }

  predicate HasDigit(s: string) {
    exists i | 0 <= i < |s| :: IsDigit(s[i])
  }

  /** A number is read exactly when the cleaned string is empty (which
      `Number` reads as 0) or has at most one point and some digit. */
  lemma NormalizeNumberDefined(s: string)
    ensures NormalizeNumber(s).Some? <==> Cleaned(s) == [] || (AtMostOnePoint(Cleaned(s)) && HasDigit(Cleaned(s)))
  {
    var c := Cleaned(s);
    if c != [] {
      assert Trimmed(c) by {
        assert IsDigit(c[0]) || c[0] == '.';
        assert IsDigit(c[|c| - 1]) || c[|c| - 1] == '.';
      }
      assert Trim(c) == c;
      assert c[0] != '-' && c[0] != '+';
      UnsignedDefined(c);
    }
  }

  /** `UnsignedDecimal` on a string of digits and points. */
  lemma UnsignedDefined(c: string)
    requires c != [] && DigitsAndPoints(c)
    ensures UnsignedDecimal(c).Some? <==> AtMostOnePoint(c) && HasDigit(c)
  {
    var k := IndexOf(c, '.');
    var ip := c[..k];
    var fp := if k < |c| then c[k + 1..] else "";
    assert AllDigits(ip);
    if k == |c| {
      assert AllDigits(c);
      assert IsDigit(c[0]);
    } else {
      if AllDigits(fp) {
        forall i, j | 0 <= i < j < |c| ensures !(c[i] == '.' && c[j] == '.') {
          if j > k {
            assert c[j] == fp[j - k - 1];
          }
        }
        if |ip| + |fp| > 0 {
          if |ip| > 0 {
            assert IsDigit(c[0]);
          } else {
            assert IsDigit(c[k + 1]);
          }
        }
        if HasDigit(c) {
          var d :| 0 <= d < |c| && IsDigit(c[d]);
          assert d != k;
        }
      } else {
        var j :| 0 <= j < |fp| && !IsDigit(fp[j]);
        assert c[k + 1 + j] == '.';
      }
    }
  }

  /** A string of ASCII digits is cleaned to itself. */
  lemma {:induction false} CleanedOfDigits(s: string)
    requires AllDigits(s)
    ensures Cleaned(s) == s
    decreases |s|
  {
    if s != [] {
      CleanedOfDigits(s[1..]);
      assert s == [s[0]] + s[1..];
    }
  }

  /** Each ASCII digit written as its Arabic-Indic digit (U+0660..U+0669). */
  function ArabicIndic(s: string): (r: string)
    requires AllDigits(s)
    ensures |r| == |s|
    decreases |s|
  {
    if s == [] then [] else [(s[0] as int - '0' as int + 0x660) as char] + ArabicIndic(s[1..])
  }

  lemma {:induction false} CleanedOfArabicIndic(s: string)
    requires AllDigits(s)
    ensures Cleaned(ArabicIndic(s)) == s
    decreases |s|
  {
    if s != [] {
      CleanedOfArabicIndic(s[1..]);
      var a := ArabicIndic(s);
      assert a[1..] == ArabicIndic(s[1..]);
      assert CleanChar(a[0]) == Some(s[0]);
      assert s == [s[0]] + s[1..];
    }
  }

  /** A decimal number is read back whether written with ASCII or with
      Arabic-Indic digits. */
  lemma NormalizeNumberOfNat(n: nat)
    ensures NormalizeNumber(NatToString(n)) == Some(n as real)
    ensures NormalizeNumber(ArabicIndic(NatToString(n))) == Some(n as real)
  {
    CleanedOfDigits(NatToString(n));
    CleanedOfArabicIndic(NatToString(n));
    StringToNumberOfNat(n);
  }

  /** A decimal comma reads as a decimal point. */
  lemma NormalizeNumberComma(a: string, b: string)
    ensures NormalizeNumber(a + "," + b) == NormalizeNumber(a + "." + b)
  {
    CleanedAppend(a + ",", b);
    CleanedAppend(a + ".", b);
    CleanedAppend(a, ",");
    CleanedAppend(a, ".");
    assert Cleaned(",") == "." && Cleaned(".") == ".";
  }

  // ---------------------------------------------------------------------
  // The `get` and `toString` combinators of parseLabText

  /** The first value `read` gives along `patterns`, or `None`. */
  function FirstFound<P, V>(patterns: seq<P>, read: P -> Option<V>): Option<V>
    decreases |patterns|
  {
    if patterns == [] then None
    else if read(patterns[0]).Some? then read(patterns[0])
    else FirstFound(patterns[1..], read)
  }

  /** The found value comes from some pattern and every earlier pattern
      gave nothing; nothing is found exactly when no pattern gives a value. */
  lemma {:induction false} FirstFoundSpec<P, V>(patterns: seq<P>, read: P -> Option<V>)
    ensures FirstFound(patterns, read).None? <==> forall i | 0 <= i < |patterns| :: read(patterns[i]).None?
    ensures FirstFound(patterns, read).Some? ==>
      exists i | 0 <= i < |patterns| :: read(patterns[i]) == FirstFound(patterns, read)
        && forall j | 0 <= j < i :: read(patterns[j]).None?
    decreases |patterns|
  {
    if patterns != [] {
      var tail := patterns[1..];
      FirstFoundSpec(tail, read);
      if read(patterns[0]).None? {
        assert forall i | 0 <= i < |tail| :: tail[i] == patterns[i + 1];
        if FirstFound(tail, read).Some? {
          var i :| 0 <= i < |tail| && read(tail[i]) == FirstFound(tail, read)
            && forall j | 0 <= j < i :: read(tail[j]).None?;
          assert read(patterns[i + 1]) == FirstFound(patterns, read);
          assert forall j | 0 <= j < i + 1 :: read(patterns[j]).None? by {
            forall j | 0 <= j < i + 1 ensures read(patterns[j]).None? {
              if j > 0 {
                assert patterns[j] == tail[j - 1];
              }
            }
          }
        }
      } else {
        assert read(patterns[0]) == FirstFound(patterns, read);
      }
    }
  }

  /** `m && m[1] ? normalizeNumber(m[1]) : undefined` for one pattern. */
  function CapturedNumber(m: Option<string>): Option<real> {
    if m.Some? && m.value != "" then NormalizeNumber(m.value) else None
  }

  function NumberIn<P>(capture: P -> Option<string>): P -> Option<real> {
    p => CapturedNumber(capture(p))
  }

  /** `get(patterns)`: tries the patterns in order and returns the first
      number read from a non-empty first capture group. `capture` is the
      regular-expression match of a pattern against the lower-cased text. */
  method Get<P>(patterns: seq<P>, capture: P -> Option<string>) returns (v: Option<real>)
    ensures v == FirstFound(patterns, NumberIn(capture))
  {
    var k := 0;
    while k < |patterns|
      invariant 0 <= k <= |patterns|
      invariant FirstFound(patterns, NumberIn(capture)) == FirstFound(patterns[k..], NumberIn(capture))
    {
      assert patterns[k..][1..] == patterns[k + 1..];
      var found := CapturedNumber(capture(patterns[k]));
      if found.Some? {
        return found;
      }
      k := k + 1;
    }
    return None;
  }

  /** `toString(patterns)`: the first non-empty capture, trimmed. */
  function CapturedText(m: Option<string>): Option<string> {
    if m.Some? && m.value != "" then Some(Trim(m.value)) else None
  }

  function TextIn<P>(capture: P -> Option<string>): P -> Option<string> {
    p => CapturedText(capture(p))
  }

  function ToStringField<P>(patterns: seq<P>, capture: P -> Option<string>): Option<string> {
    FirstFound(patterns, TextIn(capture))
  }

  // ---------------------------------------------------------------------
  // Laboratory search

  datatype Lab = Lab(name: string, address: string, phone: string, workingHours: string, mapsQuery: Option<string>)

  const MafraqLabs: seq<Lab> := [
    Lab("مختبر المفرق الطبي", "شارع الملك عبدالله، قرب مستشفى المفرق", "079 000 0001", "8:00 ص – 10:00 م", Some("مختبر المفرق الطبي")),
    Lab("مختبر المرجع الطبي - المفرق", "وسط البلد، المفرق", "079 000 0002", "9:00 ص – 9:00 م", Some("مختبر المرجع الطبي المفرق")),
    Lab("مختبر الرائد الطبي - المفرق", "حي الحسين، المفرق", "079 000 0003", "8:30 ص – 8:30 م", Some("مختبر الرائد الطبي المفرق")),
    Lab("مختبرات المفرق الحديثة", "شارع الجامعة، المفرق", "079 000 0004", "8:00 ص – 10:00 م", Some("مختبرات المفرق الحديثة"))]

  /** `replace(/\s+/g, "")`: every whitespace character removed, the rest kept. */
  function StripSpaces(s: string): (r: string)
    ensures forall i | 0 <= i < |r| :: !IsSpace(r[i]) && r[i] in s
    ensures (forall i | 0 <= i < |s| :: !IsSpace(s[i])) ==> r == s
    decreases |s|
  {
    if s == [] then []
    else
      var rest := StripSpaces(s[1..]);
      assert forall i | 0 <= i < |rest| :: rest[i] in s by {
        assert forall x | x in s[1..] :: x in s;
      }
      if IsSpace(s[0]) then rest
      else
        assert (forall i | 0 <= i < |s| :: !IsSpace(s[i])) ==> (forall i | 0 <= i < |s[1..]| :: !IsSpace(s[1..][i]));
        [s[0]] + rest
  }

  /** The search test of `filteredLabs`: a blank query matches; otherwise
      the name or the address contains the trimmed query, or the phone
      without whitespace contains the query without whitespace. */
  predicate LabMatches(lab: Lab, query: string) {
    var q := Trim(query);
    q == "" || Contains(lab.name, q) || Contains(lab.address, q)
    || Contains(StripSpaces(lab.phone), StripSpaces(q))
  }

  function MatchesQuery(query: string): Lab -> bool {
    lab => LabMatches(lab, query)
  }

  /** `filteredLabs` over a laboratory list (the page uses `MafraqLabs`). */
  function FilteredLabs(labs: seq<Lab>, query: string): (r: seq<Lab>)
    ensures IsSubseq(r, labs)
    ensures forall lab | lab in r :: LabMatches(lab, query)
    ensures forall lab | lab in labs && LabMatches(lab, query) :: lab in r
    ensures Trim(query) == "" ==> r == labs
  {
    if Trim(query) == "" then FilterAll(labs, MatchesQuery(query)); Filter(labs, MatchesQuery(query))
    else Filter(labs, MatchesQuery(query))
  }

  // ---------------------------------------------------------------------
  // extractFromText

  /** `{ ...prev, ...next }`: the keys of `prev` in their order with the
      value of `next` where it has the key, then the keys only `next` has. */
  function Spread<V>(prev: Object<V>, next: Object<V>): Object<V> {
    seq(|prev|, i requires 0 <= i < |prev| =>
      (prev[i].0, match Lookup(next, prev[i].0) case Some(v) => v case None => prev[i].1))
    + NewKeys(next, prev)
  }

  /** The entries of `next` whose key `prev` does not have. */
  function NewKeys<V>(next: Object<V>, prev: Object<V>): (r: Object<V>)
    ensures forall i | 0 <= i < |r| :: r[i] in next && Lookup(prev, r[i].0).None?
    decreases |next|
  {
    if next == [] then []
    else
      var rest := NewKeys(next[1..], prev);
      assert forall x | x in next[1..] :: x in next;
      (if Lookup(prev, next[0].0).None? then [next[0]] else []) + rest
  }

  lemma {:induction false} NewKeysLookup<V>(next: Object<V>, prev: Object<V>, k: string)
    requires Lookup(prev, k).None?
    ensures Lookup(NewKeys(next, prev), k) == Lookup(next, k)
    decreases |next|
  {
    if next != [] {
      NewKeysLookup(next[1..], prev, k);
      var rest := NewKeys(next[1..], prev);
      var nk := NewKeys(next, prev);
      if Lookup(prev, next[0].0).None? {
        assert nk == [next[0]] + rest;
        assert nk[0] == next[0] && nk[1..] == rest;
      } else {
        assert nk == rest;
        assert next[0].0 != k;
      }
    }
  }

  lemma {:induction false} LookupAppend<V>(a: Object<V>, b: Object<V>, k: string)
    ensures Lookup(a + b, k) == if Lookup(a, k).Some? then Lookup(a, k) else Lookup(b, k)
    decreases |a|
  {
    if a != [] {
      assert (a + b)[1..] == a[1..] + b;
      LookupAppend(a[1..], b, k);
    } else {
      assert a + b == b;
    }
  }

  /** After the merge a key holds the new value when `next` has it, and
      keeps the old one otherwise. */
  lemma SpreadLookup<V>(prev: Object<V>, next: Object<V>, k: string)
    ensures Lookup(Spread(prev, next), k) == if Lookup(next, k).Some? then Lookup(next, k) else Lookup(prev, k)
  {
    var front := seq(|prev|, i requires 0 <= i < |prev| =>
      (prev[i].0, match Lookup(next, prev[i].0) case Some(v) => v case None => prev[i].1));
    LookupAppend(front, NewKeys(next, prev), k);
    FrontLookup(prev, next, k);
    if Lookup(prev, k).None? {
      NewKeysLookup(next, prev, k);
    }
  }

  lemma {:induction false} FrontLookup<V>(prev: Object<V>, next: Object<V>, k: string)
    ensures var front := seq(|prev|, i requires 0 <= i < |prev| =>
      (prev[i].0, match Lookup(next, prev[i].0) case Some(v) => v case None => prev[i].1));
      Lookup(front, k) == if Lookup(prev, k).None? then None
        else if Lookup(next, k).Some? then Lookup(next, k) else Lookup(prev, k)
    decreases |prev|
  {
    var front := seq(|prev|, i requires 0 <= i < |prev| =>
      (prev[i].0, match Lookup(next, prev[i].0) case Some(v) => v case None => prev[i].1));
    if prev != [] {
      FrontLookup(prev[1..], next, k);
      var tail := seq(|prev[1..]|, i requires 0 <= i < |prev[1..]| =>
        (prev[1..][i].0, match Lookup(next, prev[1..][i].0) case Some(v) => v case None => prev[1..][i].1));
      assert front[1..] == tail;
    }
  }

  /** A urine field: undefined, a number (specific gravity, pH) or a
      finding such as "negative". */
  datatype UrineField = Missing | Measured(n: Num) | Finding(s: string)

  /** What `parseLabText` returns: every field of every category, `undefined`
      where no pattern matched. */
  datatype ParsedText = ParsedText(
    blood: Object<Reading>, biochemistry: Object<Reading>, urine: Object<UrineField>,
    hormones: Object<Reading>, vitamins: Object<Reading>)

  const ExtractedMessage: string := "تم استخراج القيم من النص بنجاح"

  /** The entered values of the page and the extraction message. */
  class LabPanel {
    var blood: Object<Reading>
    var biochemistry: Object<Reading>
    var urine: Object<UrineField>
    var hormones: Object<Reading>
    var vitamins: Object<Reading>
    var extractMessage: string

    constructor()
      ensures blood == [] && biochemistry == [] && urine == [] && hormones == [] && vitamins == []
      ensures extractMessage == ""
    {
      blood, biochemistry, urine, hormones, vitamins := [], [], [], [], [];
      extractMessage := "";
    }

    /** The results shown for the current values. */
    function Results(): seq<LabResult>
      reads this
    {
      AllResults(blood, biochemistry, hormones, vitamins)
    }

    /** `extractFromText`: every category is merged with what the parser
        found, the parsed fields overwriting the entered ones. */
    method ExtractFromText(parsed: ParsedText)
      modifies this
      ensures blood == Spread(old(blood), parsed.blood)
      ensures biochemistry == Spread(old(biochemistry), parsed.biochemistry)
      ensures urine == Spread(old(urine), parsed.urine)
      ensures hormones == Spread(old(hormones), parsed.hormones)
      ensures vitamins == Spread(old(vitamins), parsed.vitamins)
      ensures extractMessage == ExtractedMessage
    {
      extractMessage := "";
      blood := Spread(blood, parsed.blood);
      biochemistry := Spread(biochemistry, parsed.biochemistry);
      urine := Spread(urine, parsed.urine);
      hormones := Spread(hormones, parsed.hormones);
      vitamins := Spread(vitamins, parsed.vitamins);
      extractMessage := ExtractedMessage;
    }
  }
}
