/** The diseases and prevention page (`src/pages/Diseases.tsx`): the
    symptom checklist and the hints it gives, the personal prevention plan,
    the disease dictionary search and its refresh from the WHO file. */
module Diseases {
  import opened Text
  import opened Js
  import opened Seqs

  // ---------------------------------------------------------------------
  // Symptom checklist

  /** `toggleSymptom`: a selected key is removed, any other is appended. */
  function Toggled(prev: seq<string>, key: string): (r: seq<string>)
    ensures key in r <==> key !in prev
    ensures forall k | k != key :: k in r <==> k in prev
    ensures key !in prev ==> r == prev + [key]
    ensures key in prev ==> IsSubseq(r, prev)
  {
    if key in prev then Filter(prev, k => k != key) else prev + [key]
  }

  /** Toggling never repeats a key. */
  lemma ToggleKeepsDistinct(prev: seq<string>, key: string)
    requires Distinct(prev)
    ensures Distinct(Toggled(prev, key))
  {
    if key in prev {
      FilterDistinct(prev, k => k != key);
    }
  }

  /** Toggling the same key twice gives back the same selection; when the
      key was not selected it gives back the very same list. */
  lemma ToggleTwice(prev: seq<string>, key: string)
    ensures forall k :: k in Toggled(Toggled(prev, key), key) <==> k in prev
    ensures key !in prev ==> Toggled(Toggled(prev, key), key) == prev
  {
    if key !in prev {
      var p := k => k != key;
      FilterAppend(prev, [key], p);
      FilterAll(prev, p);
      assert Filter([key], p) == [];
    }
  }

  /** The hint cards of `symptomHints`. */
  datatype Hint = FluHint | UrgentHint | SkinHint | GeneralHint

  function HintTitle(h: Hint): string {
    match h
    case FluHint => "إنفلونزا أو نزلة برد"
    case UrgentHint => "أعراض تستدعي تقييمًا عاجلًا"
    case SkinHint => "التهاب أو حساسية جلدية"
    case GeneralHint => "نصيحة عامة"
  }

  /** Only the urgent card carries the `urgent` flag. */
  predicate Urgent(h: Hint) { h == UrgentHint }

  /** The place of each card in the order they are pushed. */
  function HintRank(h: Hint): nat {
    match h
    case FluHint => 0
    case UrgentHint => 1
    case SkinHint => 2
    case GeneralHint => 3
  }

  /** `symptomHints`: the flu card for fever with cough, the urgent card
      for breathlessness or chest pain, the skin card for rash with fever,
      and the general card only when none of these fired and something is
      selected; the cards come in that order, each at most once. */
  method SymptomHints(selected: seq<string>) returns (hints: seq<Hint>)
    ensures FluHint in hints <==> "fever" in selected && "cough" in selected
    ensures UrgentHint in hints <==> "short_breath" in selected || "chest_pain" in selected
    ensures SkinHint in hints <==> "rash" in selected && "fever" in selected
    ensures GeneralHint in hints <==>
      selected != [] && !(FluHint in hints || UrgentHint in hints || SkinHint in hints)
    ensures selected == [] ==> hints == []
    ensures forall i, j | 0 <= i < j < |hints| :: HintRank(hints[i]) < HintRank(hints[j])
  {
    hints := [];
    if "fever" in selected && "cough" in selected {
      hints := hints + [FluHint];
    }
    if "short_breath" in selected || "chest_pain" in selected {
      hints := hints + [UrgentHint];
    }
    if "rash" in selected && "fever" in selected {
      hints := hints + [SkinHint];
    }
    if |hints| == 0 && |selected| > 0 {
      hints := hints + [GeneralHint];
    }
  }

  // ---------------------------------------------------------------------
  // Prevention plan

  /** The items `plan` can list; `ItemText` is the line shown for each. */
  datatype PlanItem =
    | Activity(level: string) | Diet | DiabetesCare | PressureCare | QuitSmoking | Checkups(ageGroup: string)

  function ItemText(i: PlanItem): string {
    match i
    case Activity(level) =>
      if level == "high" then "نشاط بدني 150 دقيقة أسبوعيًا"
      else if level == "medium" then "امشِ يوميًا 30 دقيقة"
      else "ابدأ بالمشي الخفيف 10–15 دقيقة"
    case Diet => "نظام متوازن: خضار/فاكهة/بروتينات خفيفة وتقليل السكريات"
    case DiabetesCare => "مراقبة سكر الدم ووجبات منتظمة"
    case PressureCare => "تقليل الملح وقياس الضغط أسبوعيًا"
    case QuitSmoking => "خطة للإقلاع عن التدخين ودعم سلوكي"
    case Checkups(ageGroup) =>
      if ageGroup == "senior" then "فحوصات دورية للقلب والعظام والرؤية"
      else if ageGroup == "youth" then "نوم كافٍ وتطعيمات محدثة"
      else "فحص سنوي شامل"
  }

  function Ord(b: bool): nat { if b then 1 else 0 }

  /** `plan`: the activity item, the diet item, the item of each chronic
      condition that is ticked (diabetes, blood pressure, smoking, in that
      order) and the age item last. */
  method Plan(ageGroup: string, hasDiabetes: bool, hasHypertension: bool, isSmoker: bool, activity: string)
    returns (items: seq<PlanItem>)
    ensures |items| == 3 + Ord(hasDiabetes) + Ord(hasHypertension) + Ord(isSmoker)
    ensures items[0] == Activity(activity) && items[1] == Diet
    ensures items[|items| - 1] == Checkups(ageGroup)
    ensures hasDiabetes ==> items[2] == DiabetesCare
    ensures hasHypertension ==> items[2 + Ord(hasDiabetes)] == PressureCare
    ensures isSmoker ==> items[2 + Ord(hasDiabetes) + Ord(hasHypertension)] == QuitSmoking
    ensures DiabetesCare in items <==> hasDiabetes
    ensures PressureCare in items <==> hasHypertension
    ensures QuitSmoking in items <==> isSmoker
  {
    items := [];
    items := items + [Activity(activity)];
    items := items + [Diet];
    if hasDiabetes {
      items := items + [DiabetesCare];
    }
    if hasHypertension {
      items := items + [PressureCare];
    }
    if isSmoker {
      items := items + [QuitSmoking];
    }
    items := items + [Checkups(ageGroup)];
  }

  // ---------------------------------------------------------------------
  // Disease dictionary

  datatype Disease = Disease(name: string, desc: string, tips: seq<string>, link: string)

  const InitialDiseases: seq<Disease> := [
    Disease("الإنفلونزا", "مرض فيروسي موسمي يسبب ارتفاع الحرارة والسعال وألم العضلات",
      ["التطعيم السنوي ضد الإنفلونزا", "غسل اليدين وتغطية الفم عند السعال", "الراحة وشرب السوائل"],
      "https://www.who.int/ar/health-topics/influenza"),
    Disease("السكري", "اضطراب مزمن يؤثر على تنظيم سكر الدم",
      ["نظام غذائي متوازن", "نشاط بدني ومراقبة السكر", "اتباع تعليمات الطبيب"],
      "https://www.who.int/ar/news-room/fact-sheets/detail/diabetes"),
    Disease("ضغط الدم", "ارتفاع الضغط يزيد خطر أمراض القلب والسكتة",
      ["تقليل الملح", "قياس الضغط بانتظام", "الالتزام بالأدوية"],
      "https://www.who.int/ar/news-room/fact-sheets/detail/hypertension"),
    Disease("أمراض الجهاز التنفسي", "مثل الربو والتهاب الشعب؛ تتأثر بالعوامل البيئية",
      ["تجنب المهيجات", "استخدام الكمامة في الأماكن المزدحمة", "مراجعة الطبيب عند ضيق النفس"],
      "https://www.who.int/ar/health-topics/respiratory-diseases")
  ]

  /** The name or the description contains the query, case ignored. */
  predicate DiseaseMatches(d: Disease, q: string) {
    Contains(ToLower(d.name), ToLower(q)) || Contains(ToLower(d.desc), ToLower(q))
  }

  /** `filtered`: the diseases that match, in order; an empty query keeps all. */
  function FilteredDiseases(ds: seq<Disease>, q: string): (r: seq<Disease>)
    ensures IsSubseq(r, ds)
    ensures forall d | d in r :: d in ds && DiseaseMatches(d, q)
    ensures forall d | d in ds && DiseaseMatches(d, q) :: d in r
    ensures q == "" ==> r == ds
  {
    var r := Filter(ds, d => DiseaseMatches(d, q));
    if q == "" then
      forall d | d in ds ensures DiseaseMatches(d, q) {
        ContainsEmpty(ToLower(d.name));
      }
      FilterAll(ds, d => DiseaseMatches(d, q));
      r
    else
      r
  }

  /** A WHO entry as read from the file; a missing or empty description is `None`. */
  datatype RawTopic = RawTopic(name: string, desc: Option<string>, link: string)

  /** What `res.json()` gave: an array of entries or something else. */
  datatype WhoData = Entries(items: seq<RawTopic>) | NotAnArray

  /** Reading the file: a failed request or unreadable body, or the data. */
  datatype WhoFetch = FetchFailed | Fetched(data: WhoData)

  /** The entry as a dictionary card: no tips, description defaulting to empty. */
  function TopicCard(t: RawTopic): Disease {
    Disease(t.name, if t.desc.Some? then t.desc.value else "", [], t.link)
  }

  /** `normalized`: one card per entry, in order; nothing for a non-array. */
  function Normalized(data: WhoData): (r: seq<Disease>)
    ensures data.NotAnArray? ==> r == []
    ensures data.Entries? ==> |r| == |data.items|
    ensures data.Entries? ==> forall i | 0 <= i < |r| ::
      r[i].name == data.items[i].name && r[i].link == data.items[i].link && r[i].tips == []
      && r[i].desc == (if data.items[i].desc.Some? then data.items[i].desc.value else "")
  {
    match data
    case NotAnArray => []
    case Entries(items) => seq(|items|, i requires 0 <= i < |items| => TopicCard(items[i]))
  }

  /** The dictionary after `fetchWho`: the normalized entries when there
      are any, the current list otherwise. */
  function AfterFetch(current: seq<Disease>, f: WhoFetch): (r: seq<Disease>)
    ensures f.FetchFailed? ==> r == current
    ensures f.Fetched? && Normalized(f.data) == [] ==> r == current
    ensures f.Fetched? && Normalized(f.data) != [] ==> r == Normalized(f.data)
  {
    if f.Fetched? && |Normalized(f.data)| > 0 then Normalized(f.data) else current
  }

  /** After a fetch with entries, searching for an entry's name finds its card. */
  lemma FetchedTopicsSearchable(current: seq<Disease>, items: seq<RawTopic>, i: nat)
    requires i < |items|
    ensures TopicCard(items[i]) in FilteredDiseases(AfterFetch(current, Fetched(Entries(items))), items[i].name)
  {
    var ds := AfterFetch(current, Fetched(Entries(items)));
    var card := TopicCard(items[i]);
    assert Normalized(Entries(items))[i] == card;
    assert card in ds;
    assert StartsWith(ToLower(card.name), ToLower(items[i].name));
    assert DiseaseMatches(card, items[i].name);
  }

  /** A fetch with entries replaces the list whole: what was shown before
      makes no difference, and every card shown comes from the file. */
  lemma FetchReplacesList(c1: seq<Disease>, c2: seq<Disease>, items: seq<RawTopic>)
    requires items != []
    ensures AfterFetch(c1, Fetched(Entries(items))) == AfterFetch(c2, Fetched(Entries(items)))
    ensures forall d | d in AfterFetch(c1, Fetched(Entries(items))) ::
      exists i | 0 <= i < |items| :: d == TopicCard(items[i])
  {
    var r := AfterFetch(c1, Fetched(Entries(items)));
    assert |Normalized(Entries(items))| == |items| > 0;
    forall d | d in r ensures exists i | 0 <= i < |items| :: d == TopicCard(items[i]) {
      var k :| 0 <= k < |r| && r[k] == d;
      assert r[k] == TopicCard(items[k]);
    }
  }

  /** Fetching the same file again changes nothing more. */
  lemma AfterFetchIdempotent(current: seq<Disease>, f: WhoFetch)
    ensures AfterFetch(AfterFetch(current, f), f) == AfterFetch(current, f)
  {
  }

  /** The page state the symptom checklist and dictionary use. */
  class DiseasesPage {
    var query: string
    var diseases: seq<Disease>
    var selectedSymptoms: seq<string>

    constructor()
      ensures query == "" && diseases == InitialDiseases && selectedSymptoms == []
    {
      query := "";
      diseases := InitialDiseases;
      selectedSymptoms := [];
    }

    /** The checkbox of one symptom. */
    method ToggleSymptom(key: string)
      modifies this
      ensures selectedSymptoms == Toggled(old(selectedSymptoms), key)
      ensures query == old(query) && diseases == old(diseases)
    {
      selectedSymptoms := Toggled(selectedSymptoms, key);
    }

    /** The WHO refresh button. */
    method FetchWho(f: WhoFetch)
      modifies this
      ensures diseases == AfterFetch(old(diseases), f)
      ensures query == old(query) && selectedSymptoms == old(selectedSymptoms)
    {
      if f.Fetched? {
        var normalized := Normalized(f.data);
        if |normalized| > 0 {
          diseases := normalized;
        }
      }
    }

    /** The cards the dictionary shows. */
    function Filtered(): seq<Disease>
      reads this
    {
      FilteredDiseases(diseases, query)
    }
  }
}
