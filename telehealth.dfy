/** The remote-consultation triage (`src/pages/Telehealth.tsx`): four
    symptom severities and a duration in days give one of four levels, and
    the hospitals link it offers. */
module Telehealth {
  import opened Js
  import opened Hospitals

  /** An answer: none, mild, moderate or severe. */
  datatype Severity = Absent | Mild | Moderate | Severe

  function SeverityRank(s: Severity): nat {
    match s
    case Absent => 0
    case Mild => 1
    case Moderate => 2
    case Severe => 3
  }

  datatype Symptoms = Symptoms(fever: Severity, cough: Severity, breath: Severity, chestPain: Severity)

  datatype Level = Emergency | Urgent | NonUrgent | Normal

  function LevelRank(l: Level): nat {
    match l
    case Normal => 0
    case NonUrgent => 1
    case Urgent => 2
    case Emergency => 3
  }

  function LevelLabel(l: Level): string {
    match l
    case Emergency => "طارئ"
    case Urgent => "مستعجل"
    case NonUrgent => "غير طارئ"
    case Normal => "طبيعي"
  }

  /** `Number(durationDays || "0")` */
  function DaysOf(durationDays: string): Num {
    StringToNumber(if durationDays == "" then "0" else durationDays)
  }

  /** `days >= 3`; a duration that is not a number never is. */
  predicate LongIllness(days: Num) { days.Val? && days.v >= 3.0 }

  /** The `triage` table on the answers and the duration. */
  function TriageOf(s: Symptoms, days: Num): Level {
    var emergent := s.breath == Severe || s.chestPain == Severe;
    var urgent := s.fever == Severe || s.cough == Severe || s.breath == Moderate || s.chestPain == Moderate;
    if emergent then Emergency
    else if urgent || LongIllness(days) then Urgent
    else if s.fever != Absent || s.cough != Absent then NonUrgent
    else Normal
  }

  /** `triage` on the form. */
  function Triage(s: Symptoms, durationDays: string): Level {
    TriageOf(s, DaysOf(durationDays))
  }

  /** The four levels, each stated on the answers alone: an emergency
      exactly for severe breathing or chest pain; urgent otherwise exactly
      for severe fever or cough, moderate breathing or chest pain, or three
      days or more; not urgent otherwise exactly for any fever or cough;
      normal in the remaining case. */
  lemma TriageLevels(s: Symptoms, days: Num)
    ensures TriageOf(s, days) == Emergency <==> s.breath == Severe || s.chestPain == Severe
    ensures TriageOf(s, days) == Urgent <==>
      s.breath != Severe && s.chestPain != Severe &&
      (s.fever == Severe || s.cough == Severe || s.breath == Moderate || s.chestPain == Moderate || LongIllness(days))
    ensures TriageOf(s, days) == NonUrgent <==>
      SeverityRank(s.breath) <= 1 && SeverityRank(s.chestPain) <= 1 && !LongIllness(days) &&
      SeverityRank(s.fever) <= 2 && SeverityRank(s.cough) <= 2 && (s.fever != Absent || s.cough != Absent)
    ensures TriageOf(s, days) == Normal <==>
      SeverityRank(s.breath) <= 1 && SeverityRank(s.chestPain) <= 1 && !LongIllness(days) &&
      s.fever == Absent && s.cough == Absent
  {
  }

  /** Mild breathing trouble and chest pain alone, for two days, is normal. */
  lemma MildAloneIsNormal()
    ensures TriageOf(Symptoms(Absent, Absent, Mild, Mild), Val(2.0)) == Normal
  {
  }

  /** `s` is no worse than `t` in every answer. */
  predicate NoWorse(s: Symptoms, t: Symptoms) {
    SeverityRank(s.fever) <= SeverityRank(t.fever) && SeverityRank(s.cough) <= SeverityRank(t.cough)
    && SeverityRank(s.breath) <= SeverityRank(t.breath) && SeverityRank(s.chestPain) <= SeverityRank(t.chestPain)
  }

  /** `d` is no longer than `e`: not a number, or a number at most `e`'s. */
  predicate NoLonger(d: Num, e: Num) {
    d.NaN? || (e.Val? && d.v <= e.v)
  }

  /** Worse answers or a longer illness never lower the level. */
  lemma TriageMonotone(s: Symptoms, t: Symptoms, d: Num, e: Num)
    requires NoWorse(s, t) && NoLonger(d, e)
    ensures LevelRank(TriageOf(s, d)) <= LevelRank(TriageOf(t, e))
  {
  }

  /** The `type` the hospitals link asks for: government hospitals in an
      emergency, every kind otherwise. */
  function LinkKind(l: Level): string {
    if l == Emergency then "حكومي" else AllKinds
  }

  /** The parameters of `/hospitals?type=…&q=مستشفى`. */
  function HospitalsLinkParams(l: Level): Params {
    [("type", LinkKind(l)), ("q", "مستشفى")]
  }

  /** Following the link opens the directory searching for hospitals,
      filtered to government ones exactly at the emergency level. */
  lemma LinkOpensDirectory(l: Level, filter: string, query: string)
    ensures WithParams(filter, query, HospitalsLinkParams(l)) == (LinkKind(l), "مستشفى")
    ensures LinkKind(l) == "حكومي" <==> l == Emergency
  {
    var ps := HospitalsLinkParams(l);
    assert ParamGet(ps, "type") == Some(LinkKind(l));
    assert ps[1..] == [("q", "مستشفى")];
    assert ParamGet(ps, "q") == Some("مستشفى");
  }
}
