/** The rule-based part of the health-assistant page (`src/pages/HealthAI.tsx`):
    the normal ranges, `interpretValue`, the vital-sign, blood-sugar and
    cholesterol interpretations, `calculateRiskLevel`,
    `getOverallInterpretation`, the body-mass-index category and the capped
    list of saved records. */
module HealthAI {
  import opened Text
  import opened Js
  import opened Seqs

  // ---------------------------------------------------------------------
  // Ranges and interpretValue

  datatype Range = Range(min: real, max: real)

  const HeartRateRange := Range(60.0, 100.0)
  const SystolicRange := Range(90.0, 140.0)
  const DiastolicRange := Range(60.0, 90.0)
  const TemperatureRange := Range(36.1, 37.2)
  const OxygenRange := Range(95.0, 100.0)
  const FastingGlucoseRange := Range(70.0, 100.0)
  const RandomGlucoseRange := Range(70.0, 140.0)
  const Hba1cRange := Range(4.0, 5.6)
  const TotalCholesterolRange := Range(0.0, 200.0)
  const HdlRange := Range(40.0, 999.0)
  const LdlRange := Range(0.0, 100.0)
  const TriglyceridesRange := Range(0.0, 150.0)

  datatype Status = Low | High | Normal

  /** `interpretValue(value, range).status` */
  function InterpretValue(v: real, r: Range): Status {
    if v < r.min then Low else if v > r.max then High else Normal
  }

  /** On a range with `min <= max` exactly one status holds: low below the
      range, high above it, normal inside it with both bounds included. */
  lemma InterpretValueBands(v: real, r: Range)
    requires r.min <= r.max
    ensures InterpretValue(v, r) == Low <==> v < r.min
    ensures InterpretValue(v, r) == High <==> v > r.max
    ensures InterpretValue(v, r) == Normal <==> r.min <= v <= r.max
  {
  }

  // ---------------------------------------------------------------------
  // The interpretations

  /** An entered number; `None` for a field left empty (`undefined`) or not
      a number (NaN), both of which are falsy. */
  type Reading = Option<real>

  /** The field is truthy: present and not zero. */
  predicate Truthy(r: Reading) { r.Some? && r.value != 0.0 }

  datatype VitalSigns = VitalSigns(heartRate: Reading, systolic: Reading, diastolic: Reading, temperature: Reading, oxygen: Reading)
  datatype BloodSugar = BloodSugar(fasting: Reading, random: Reading, hba1c: Reading)
  datatype CholesterolProfile = CholesterolProfile(total: Reading, hdl: Reading, ldl: Reading, triglycerides: Reading)

  datatype Item =
    | HeartRate | BloodPressure | Temperature | Oxygen
    | FastingGlucose | RandomGlucose | Hba1c
    | TotalCholesterol | Hdl | Ldl | Triglycerides

  /** One pushed interpretation: which measurement and its status (the
      shown name, value, unit and colours are not modelled). */
  datatype Entry = Entry(item: Item, status: Status)

  /** `if (x) results.push({ ...interpretValue(x, range) })` */
  function Measured(r: Reading, item: Item, range: Range): seq<Entry> {
    if Truthy(r) then [Entry(item, InterpretValue(r.value, range))] else []
  }

  /** The combined blood-pressure status: high if either reading is high,
      else low if either is low, else normal. */
  function PressureStatus(sys: Status, dia: Status): Status {
    if sys == High || dia == High then High
    else if sys == Low || dia == Low then Low
    else Normal
  }

  /** `vitalSignsInterpretation` */
  function VitalSignsInterpretation(v: VitalSigns): seq<Entry> {
    Measured(v.heartRate, HeartRate, HeartRateRange)
    + (if Truthy(v.systolic) && Truthy(v.diastolic) then
         [Entry(BloodPressure, PressureStatus(InterpretValue(v.systolic.value, SystolicRange),
                                              InterpretValue(v.diastolic.value, DiastolicRange)))]
       else [])
    + Measured(v.temperature, Temperature, TemperatureRange)
    + Measured(v.oxygen, Oxygen, OxygenRange)
  }

  /** `bloodSugarInterpretation` */
  function BloodSugarInterpretation(s: BloodSugar): seq<Entry> {
    Measured(s.fasting, FastingGlucose, FastingGlucoseRange)
    + Measured(s.random, RandomGlucose, RandomGlucoseRange)
    + Measured(s.hba1c, Hba1c, Hba1cRange)
  }

  /** The HDL rule: normal from the minimum up, low below it; there is no
      upper bound. */
  function HdlStatus(h: real): Status {
    if h >= HdlRange.min then Normal else Low
  }

  /** `cholesterolInterpretation` */
  function CholesterolInterpretation(c: CholesterolProfile): seq<Entry> {
    Measured(c.total, TotalCholesterol, TotalCholesterolRange)
    + (if Truthy(c.hdl) then [Entry(Hdl, HdlStatus(c.hdl.value))] else [])
    + Measured(c.ldl, Ldl, LdlRange)
    + Measured(c.triglycerides, Triglycerides, TriglyceridesRange)
  }

  /** The blood-pressure entry appears exactly when both readings are
      truthy; it is high when either reading is above its range, low when
      neither is above and one is below, normal when both are inside. */
  lemma PressureEntry(v: VitalSigns, st: Status)
    ensures Entry(BloodPressure, st) in VitalSignsInterpretation(v) <==>
      Truthy(v.systolic) && Truthy(v.diastolic) &&
      var s, d := v.systolic.value, v.diastolic.value;
      st == (if s > 140.0 || d > 90.0 then High
             else if s < 90.0 || d < 60.0 then Low
             else Normal)
  {
  }

  /** A measurement other than blood pressure appears exactly when its
      reading is truthy (here: the heart rate). */
  lemma HeartRateEntry(v: VitalSigns)
    ensures (exists st :: Entry(HeartRate, st) in VitalSignsInterpretation(v)) <==> Truthy(v.heartRate)
  {
    if Truthy(v.heartRate) {
      assert VitalSignsInterpretation(v)[0] == Entry(HeartRate, InterpretValue(v.heartRate.value, HeartRateRange));
    }
  }

  /** HDL is normal from 40 up and low below; it is never high, and a zero
      or missing reading gives no entry. */
  lemma HdlEntry(c: CholesterolProfile, st: Status)
    ensures Entry(Hdl, st) in CholesterolInterpretation(c) <==>
      Truthy(c.hdl) && st == (if c.hdl.value >= 40.0 then Normal else Low)
    ensures Entry(Hdl, High) !in CholesterolInterpretation(c)
  {
  }

  // ---------------------------------------------------------------------
  // Risk level and overall interpretation

  /** Number of entries with status `st`. */
  function Tally(es: seq<Entry>, st: Status): nat
    decreases |es|
  {
    if es == [] then 0
    else Tally(es[..|es| - 1], st) + (if es[|es| - 1].status == st then 1 else 0)
  }

  lemma {:induction false} TallyAppend(a: seq<Entry>, b: seq<Entry>, st: Status)
    ensures Tally(a + b, st) == Tally(a, st) + Tally(b, st)
    decreases |b|
  {
    if b == [] {
      assert a + b == a;
    } else {
      assert (a + b)[..|a + b| - 1] == a + b[..|b| - 1];
      TallyAppend(a, b[..|b| - 1], st);
    }
  }

  /** No entry with status `st` exactly when the tally is zero. */
  lemma {:induction false} TallyZero(es: seq<Entry>, st: Status)
    ensures Tally(es, st) == 0 <==> forall i | 0 <= i < |es| :: es[i].status != st
    decreases |es|
  {
    if es != [] {
      TallyZero(es[..|es| - 1], st);
      assert forall i | 0 <= i < |es| - 1 :: es[..|es| - 1][i] == es[i];
    }
  }

  datatype Risk = LowRisk | Moderate | HighRisk | CriticalRisk

  function RiskRank(r: Risk): nat {
    match r
    case LowRisk => 0
    case Moderate => 1
    case HighRisk => 2
    case CriticalRisk => 3
  }

  /** `calculateRiskLevel`: two highs or two lows are high risk, one of
      either is moderate, none is low. */
  function RiskLevel(es: seq<Entry>): (r: Risk)
    ensures r != CriticalRisk
    ensures r == HighRisk <==> Tally(es, High) >= 2 || Tally(es, Low) >= 2
    ensures r == Moderate <==>
      Tally(es, High) < 2 && Tally(es, Low) < 2 && (Tally(es, High) == 1 || Tally(es, Low) == 1)
    ensures r == LowRisk <==> Tally(es, High) == 0 && Tally(es, Low) == 0
  {
    var highs, lows := Tally(es, High), Tally(es, Low);
    if highs >= 2 || lows >= 2 then HighRisk
    else if highs == 1 || lows == 1 then Moderate
    else LowRisk
  }

  /** The risk is low exactly when every entry is normal. */
  lemma LowRiskAllNormal(es: seq<Entry>)
    ensures RiskLevel(es) == LowRisk <==> forall i | 0 <= i < |es| :: es[i].status == Normal
  {
    TallyZero(es, High);
    TallyZero(es, Low);
    forall i | 0 <= i < |es| ensures es[i].status == Normal <==> es[i].status != High && es[i].status != Low {
      match es[i].status
      case Low =>
      case High =>
      case Normal =>
    }
  }

  /** One more entry never lowers the risk level. */
  lemma RiskMonotone(es: seq<Entry>, e: Entry)
    ensures RiskRank(RiskLevel(es)) <= RiskRank(RiskLevel(es + [e]))
  {
    TallyAppend(es, [e], High);
    TallyAppend(es, [e], Low);
    assert [e][..0] == [];
  }

  /** Number of entries whose status is not normal. */
  function AbnormalCount(es: seq<Entry>): nat
    decreases |es|
  {
    if es == [] then 0
    else AbnormalCount(es[..|es| - 1]) + (if es[|es| - 1].status != Normal then 1 else 0)
  }

  lemma {:induction false} AbnormalIsLowPlusHigh(es: seq<Entry>)
    ensures AbnormalCount(es) == Tally(es, Low) + Tally(es, High)
    decreases |es|
  {
    if es != [] {
      AbnormalIsLowPlusHigh(es[..|es| - 1]);
    }
  }

  const AllNormalText: string := "جميع القيم ضمن المعدل الطبيعي"
  const OutOfRangeText: string := " قيمة خارج المعدل الطبيعي"

  /** `getOverallInterpretation` */
  function OverallInterpretation(es: seq<Entry>): string {
    var n := AbnormalCount(es);
    if n == 0 then AllNormalText else NatToString(n) + OutOfRangeText
  }

  /** The all-normal message appears exactly when every entry is normal;
      otherwise the message starts with the number of abnormal entries,
      which `parseInt` reads back. */
  lemma OverallInterpretationSpec(es: seq<Entry>)
    ensures OverallInterpretation(es) == AllNormalText <==> forall i | 0 <= i < |es| :: es[i].status == Normal
    ensures OverallInterpretation(es) != AllNormalText ==>
      ParseIntJs(OverallInterpretation(es)) == Some(AbnormalCount(es))
  {
    var n := AbnormalCount(es);
    AbnormalIsLowPlusHigh(es);
    LowRiskAllNormal(es);
    if n != 0 {
      var t := NatToString(n) + OutOfRangeText;
      assert IsDigit(t[0]) && !IsDigit(AllNormalText[0]);
      ParseIntOfDigitsThen(NatToString(n), OutOfRangeText);
      NatToStringRoundTrip(n);
    }
  }

  lemma {:induction false} DigitRunOfDigitsThen(d: string, rest: string)
    requires AllDigits(d) && (rest == [] || !IsDigit(rest[0]))
    ensures DigitRun(d + rest) == |d|
    decreases |d|
  {
    if d != [] {
      assert (d + rest)[1..] == d[1..] + rest;
      DigitRunOfDigitsThen(d[1..], rest);
    } else {
      assert d + rest == rest;
    }
  }

  /** `parseInt` of digits followed by a non-digit reads the digits. */
  lemma ParseIntOfDigitsThen(d: string, rest: string)
    requires d != [] && AllDigits(d) && (rest == [] || !IsDigit(rest[0]))
    ensures ParseIntJs(d + rest) == Some(DigitsValue(d))
  {
    var t := d + rest;
    assert IsDigit(t[0]);
    assert TrimStart(t) == t;
    DigitRunOfDigitsThen(d, rest);
    assert t[..|d|] == d;
  }

  // ---------------------------------------------------------------------
  // Body-mass index

  datatype BmiCategory = Underweight | NormalWeight | Overweight | Obese

  function CategoryLabel(c: BmiCategory): string {
    match c
    case Underweight => "نقص الوزن"
    case NormalWeight => "وزن طبيعي"
    case Overweight => "زيادة الوزن"
    case Obese => "سمنة"
  }

  function CategoryRank(c: BmiCategory): nat {
    match c
    case Underweight => 0
    case NormalWeight => 1
    case Overweight => 2
    case Obese => 3
  }

  /** The category of `calculateBMI`, from the unrounded index. */
  function CategoryOf(bmi: real): BmiCategory {
    if bmi < 18.5 then Underweight
    else if bmi < 25.0 then NormalWeight
    else if bmi < 30.0 then Overweight
    else Obese
  }

  /** `weight / (height / 100) ^ 2`, in exact arithmetic. */
  function BmiValue(weight: real, height: real): real
    requires height != 0.0
  {
    weight / ((height / 100.0) * (height / 100.0))
  }

  /** The categories cut the line at 18.5, 25 and 30, each lower bound
      belonging to the upper category. */
  lemma CategoryBands(bmi: real)
    ensures CategoryOf(bmi) == Underweight <==> bmi < 18.5
    ensures CategoryOf(bmi) == NormalWeight <==> 18.5 <= bmi < 25.0
    ensures CategoryOf(bmi) == Overweight <==> 25.0 <= bmi < 30.0
    ensures CategoryOf(bmi) == Obese <==> 30.0 <= bmi
  {
  }

  /** A larger index never gets a lighter category. */
  lemma CategoryMonotone(a: real, b: real)
    requires a <= b
    ensures CategoryRank(CategoryOf(a)) <= CategoryRank(CategoryOf(b))
  {
  }

  // ---------------------------------------------------------------------
  // The page state and saveCurrentTest

  datatype Tab = VitalSignsTab | BloodSugarTab | CholesterolTab | BmiTab | AudioTab

  datatype BmiData = BmiData(weight: Reading, height: Reading, bmi: Option<real>, category: Option<BmiCategory>)

  /** The values a record stores: those of the active tab, or none. */
  datatype TabValues = Vitals(v: VitalSigns) | Sugar(s: BloodSugar) | Lipids(c: CholesterolProfile) | Body(b: BmiData) | NoValues

  datatype HealthRecord = HealthRecord(id: string, date: string, tab: Tab, values: TabValues, interpretation: string, risk: Risk)

  /** The interpretations the active tab looks at (none for the BMI and
      audio tabs). */
  function TabEntries(tab: Tab, v: VitalSigns, s: BloodSugar, c: CholesterolProfile): seq<Entry> {
    match tab
    case VitalSignsTab => VitalSignsInterpretation(v)
    case BloodSugarTab => BloodSugarInterpretation(s)
    case CholesterolTab => CholesterolInterpretation(c)
    case _ => []
  }

  function TabValuesOf(tab: Tab, v: VitalSigns, s: BloodSugar, c: CholesterolProfile, b: BmiData): TabValues {
    match tab
    case VitalSignsTab => Vitals(v)
    case BloodSugarTab => Sugar(s)
    case CholesterolTab => Lipids(c)
    case BmiTab => Body(b)
    case AudioTab => NoValues
  }

  const MaxRecords: nat := 10

  class HealthAIPage {
    var activeTab: Tab
    var vitalSigns: VitalSigns
    var bloodSugar: BloodSugar
    var cholesterol: CholesterolProfile
    var bmiData: BmiData
    var savedRecords: seq<HealthRecord>

    constructor()
      ensures activeTab == VitalSignsTab && savedRecords == []
      ensures vitalSigns == VitalSigns(None, None, None, None, None)
      ensures bloodSugar == BloodSugar(None, None, None)
      ensures cholesterol == CholesterolProfile(None, None, None, None)
      ensures bmiData == BmiData(None, None, None, None)
    {
      activeTab := VitalSignsTab;
      vitalSigns := VitalSigns(None, None, None, None, None);
      bloodSugar := BloodSugar(None, None, None);
      cholesterol := CholesterolProfile(None, None, None, None);
      bmiData := BmiData(None, None, None, None);
      savedRecords := [];
    }

    /** The record `saveCurrentTest` builds; `id` and `date` stand for
        `Date.now()` and the formatted current date. */
    function CurrentRecord(id: string, date: string): HealthRecord
      reads this
    {
      var es := TabEntries(activeTab, vitalSigns, bloodSugar, cholesterol);
      HealthRecord(id, date, activeTab, TabValuesOf(activeTab, vitalSigns, bloodSugar, cholesterol, bmiData),
        OverallInterpretation(es), RiskLevel(es))
    }

    /** `saveCurrentTest`: the new record first, then at most nine of the
        previous ones, in order. */
    method SaveCurrentTest(id: string, date: string)
      modifies this
      ensures savedRecords == [old(CurrentRecord(id, date))] + Capped(old(savedRecords), MaxRecords - 1)
      ensures |savedRecords| <= MaxRecords
      ensures activeTab == old(activeTab) && vitalSigns == old(vitalSigns) && bloodSugar == old(bloodSugar)
      ensures cholesterol == old(cholesterol) && bmiData == old(bmiData)
    {
      var record := CurrentRecord(id, date);
      savedRecords := [record] + Capped(savedRecords, MaxRecords - 1);
    }

    /** The effect on weight and height: with both truthy, the index and
        its category are stored (the index rounded to one decimal by
        `toFixed`, which is not modelled). */
    method RecalculateBmi()
      modifies this
      ensures Truthy(old(bmiData.weight)) && Truthy(old(bmiData.height)) ==>
        var b := BmiValue(old(bmiData.weight).value, old(bmiData.height).value);
        bmiData == old(bmiData).(bmi := Some(b), category := Some(CategoryOf(b)))
      ensures !(Truthy(old(bmiData.weight)) && Truthy(old(bmiData.height))) ==> bmiData == old(bmiData)
      ensures activeTab == old(activeTab) && vitalSigns == old(vitalSigns) && bloodSugar == old(bloodSugar)
      ensures cholesterol == old(cholesterol) && savedRecords == old(savedRecords)
    {
      if Truthy(bmiData.weight) && Truthy(bmiData.height) {
        var b := BmiValue(bmiData.weight.value, bmiData.height.value);
        bmiData := bmiData.(bmi := Some(b), category := Some(CategoryOf(b)));
      }
    }
  }

  /** Saving keeps at most ten records: the new one, then the first nine
      of the previous list in their order. */
  lemma SavedRecordsShape(r: HealthRecord, prev: seq<HealthRecord>)
    ensures var next := [r] + Capped(prev, MaxRecords - 1);
      |next| == (if |prev| < MaxRecords then |prev| + 1 else MaxRecords)
      && next[0] == r
      && forall i | 1 <= i < |next| :: next[i] == prev[i - 1]
  {
  }
}
