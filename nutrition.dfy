/** The nutrition page (`src/pages/Nutrition.tsx`): the calorie estimate
    from a food name and a weight in grams, and the booking of a session
    with one of the nutritionists of Mafraq. */
module Nutrition {
  import opened Text
  import opened Js
  import opened Seqs
  import opened Schedule

  // ---------------------------------------------------------------------
  // The food table and estimate

  /** Values per 100 g. */
  datatype Nutrients = Nutrients(calories: real, protein: real, fat: real, carbs: real)

  /** A table of foods in the insertion order of its keys. */
  type FoodTable = seq<(string, Nutrients)>

  const Rice := Nutrients(130.0, 2.7, 0.3, 28.0)
  const Bread := Nutrients(265.0, 9.0, 3.2, 49.0)
  const Chicken := Nutrients(239.0, 27.0, 14.0, 0.0)
  const Beef := Nutrients(250.0, 26.0, 15.0, 0.0)
  const Fish := Nutrients(206.0, 22.0, 12.0, 0.0)
  const Apple := Nutrients(52.0, 0.3, 0.2, 14.0)
  const Banana := Nutrients(89.0, 1.1, 0.3, 23.0)
  const Salad := Nutrients(35.0, 1.5, 0.2, 7.0)

  /** The `db` table: Arabic names, then English synonyms. */
  const Foods: FoodTable := [
    ("أرز", Rice), ("رز", Rice), ("خبز", Bread), ("دجاج", Chicken), ("لحم", Beef),
    ("سمك", Fish), ("تفاح", Apple), ("موز", Banana), ("سلطة", Salad),
    ("rice", Rice), ("bread", Bread), ("chicken", Chicken), ("beef", Beef),
    ("fish", Fish), ("apple", Apple), ("banana", Banana), ("salad", Salad)
  ]

  /** `db[name]`: the entry whose key is exactly `name`. */
  function ExactEntry(t: FoodTable, name: string): (r: Option<Nutrients>)
    ensures r.Some? <==> exists i | 0 <= i < |t| :: t[i].0 == name
    ensures r.Some? ==> exists i | 0 <= i < |t| :: t[i] == (name, r.value)
    decreases |t|
  {
    if t == [] then None
    else if t[0].0 == name then Some(t[0].1)
    else
      var r := ExactEntry(t[1..], name);
      assert forall i | 0 <= i < |t[1..]| :: t[1..][i] == t[i + 1];
      assert forall i | 1 <= i < |t| :: t[i] == t[1..][i - 1];
      r
  }

  /** `Object.entries(db).find(([key]) => name.includes(key))`: the first
      entry whose key occurs in `name`. */
  function FirstContained(t: FoodTable, name: string): (r: Option<(string, Nutrients)>)
    ensures r.None? <==> forall i | 0 <= i < |t| :: !Contains(name, t[i].0)
    ensures r.Some? ==> exists i | 0 <= i < |t| ::
      t[i] == r.value && Contains(name, t[i].0) && forall j | 0 <= j < i :: !Contains(name, t[j].0)
    decreases |t|
  {
    if t == [] then None
    else if Contains(name, t[0].0) then Some(t[0])
    else
      var r := FirstContained(t[1..], name);
      assert forall i | 0 <= i < |t[1..]| :: t[1..][i] == t[i + 1];
      assert forall i | 1 <= i < |t| :: t[i] == t[1..][i - 1];
      r
  }

  /** The members every object inherits from `Object.prototype` whose names
      are lower case already, so that a trimmed, lower-cased name can reach
      them: `db[name]` is truthy for both, though neither is a food. */
  const InheritedKeys: seq<string> := ["constructor", "__proto__"]

  /** What a name finds in `db`: the values of a food, an inherited member
      (which has no nutrient fields), or nothing. */
  datatype Found = Food(n: Nutrients) | Inherited | NotFound

  /** `db[name] || Object.entries(db).find(([key]) => name.includes(key))?.[1]`:
      an own key first, then an inherited member, then the first own key the
      name contains (`Object.entries` lists own keys only). */
  function FoodEntry(t: FoodTable, name: string): (r: Found)
    ensures ExactEntry(t, name).Some? ==> r == Food(ExactEntry(t, name).value)
    ensures ExactEntry(t, name).None? && name in InheritedKeys ==> r == Inherited
    ensures ExactEntry(t, name).None? && name !in InheritedKeys && FirstContained(t, name).Some? ==>
      r == Food(FirstContained(t, name).value.1)
    ensures r == NotFound <==> name !in InheritedKeys && forall i | 0 <= i < |t| :: !Contains(name, t[i].0)
  {
    match ExactEntry(t, name)
    case Some(e) =>
      var i :| 0 <= i < |t| && t[i] == (name, e);
      assert StartsWith(name, t[i].0);
      Food(e)
    case None =>
      if name in InheritedKeys then Inherited
      else
        match FirstContained(t, name)
        case Some(kv) => Food(kv.1)
        case None => NotFound
  }

  /** The first entry of a key is what that key finds. */
  lemma {:induction false} KeyFindsItsValues(t: FoodTable, i: nat)
    requires i < |t|
    requires forall j | 0 <= j < i :: t[j].0 != t[i].0
    ensures ExactEntry(t, t[i].0) == Some(t[i].1)
    ensures FoodEntry(t, t[i].0) == Food(t[i].1)
    decreases i
  {
    if i > 0 {
      assert t[0].0 != t[i].0;
      assert t[1..][i - 1] == t[i];
      KeyFindsItsValues(t[1..], i - 1);
    }
  }

  /** What `estimate` shows: whole calories, and the other values scaled
      (their rounding to one decimal is not modelled); `AllNaN` when the
      entry is an inherited member, whose missing fields make every value
      `NaN`. */
  datatype Estimate = Estimate(calories: int, protein: real, fat: real, carbs: real) | AllNaN

  function Scaled(e: Nutrients, grams: real): Estimate {
    var factor := grams / 100.0;
    Estimate(Round(e.calories * factor), e.protein * factor, e.fat * factor, e.carbs * factor)
  }

  /** `estimate()`: the trimmed, lower-cased name and `parseFloat(grams)`;
      nothing for an empty name, a weight that is not a number or not
      positive, or a name the table does not know. */
  function EstimateOf(t: FoodTable, foodName: string, grams: string): (r: Option<Estimate>)
    ensures ToLower(Trim(foodName)) == "" ==> r.None?
    ensures ParseFloatJs(grams).NaN? || ParseFloatJs(grams).v <= 0.0 ==> r.None?
    ensures r.Some? <==>
      ToLower(Trim(foodName)) != "" && ParseFloatJs(grams).Val? && ParseFloatJs(grams).v > 0.0
      && (ToLower(Trim(foodName)) in InheritedKeys
          || exists i | 0 <= i < |t| :: Contains(ToLower(Trim(foodName)), t[i].0))
    ensures r == Some(AllNaN) <==>
      ToLower(Trim(foodName)) != "" && ParseFloatJs(grams).Val? && ParseFloatJs(grams).v > 0.0
      && ToLower(Trim(foodName)) in InheritedKeys && ExactEntry(t, ToLower(Trim(foodName))).None?
  {
    var name := ToLower(Trim(foodName));
    var g := ParseFloatJs(grams);
    if name == "" || g.NaN? || g.v <= 0.0 then None
    else
      match FoodEntry(t, name)
      case NotFound => None
      case Inherited => Some(AllNaN)
      case Food(e) => Some(Scaled(e, g.v))
  }

  /** For a known food and a positive weight the estimate is the table
      entry scaled by weight over 100. */
  lemma EstimateScales(t: FoodTable, foodName: string, grams: string, e: Nutrients)
    requires ToLower(Trim(foodName)) != "" && ParseFloatJs(grams).Val? && ParseFloatJs(grams).v > 0.0
    requires FoodEntry(t, ToLower(Trim(foodName))) == Food(e)
    ensures EstimateOf(t, foodName, grams) == Some(Scaled(e, ParseFloatJs(grams).v))
  {
  }

  /** A hundred grams give the table's own values, calories included. */
  lemma HundredGrams(e: Nutrients, c: nat)
    requires e.calories == c as real
    ensures Scaled(e, 100.0) == Estimate(c, e.protein, e.fat, e.carbs)
  {
    assert e.calories * (100.0 / 100.0) == c as real;
  }

  /** No key of the food table is an inherited name, so typing one of those
      names, with a positive weight, shows `NaN` for every value. */
  lemma InheritedNamesShowNaN(foodName: string, grams: string)
    requires ToLower(Trim(foodName)) in InheritedKeys
    requires ParseFloatJs(grams).Val? && ParseFloatJs(grams).v > 0.0
    ensures EstimateOf(Foods, foodName, grams) == Some(AllNaN)
  {
    var name := ToLower(Trim(foodName));
    assert |name| >= 9;
    forall i | 0 <= i < |Foods| ensures Foods[i].0 != name {
      assert |Foods[i].0| <= 7;
    }
  }

  // ---------------------------------------------------------------------
  // Booking

  datatype Nutritionist = Nutritionist(id: string, name: string, specialty: string, experience: string, location: string)

  const Nutritionists: seq<Nutritionist> := [
    Nutritionist("dr-sarah", "د. سارة أحمد", "أخصائية تغذية علاجية", "8 سنوات خبرة", "مستشفى المفرق الحكومي"),
    Nutritionist("dr-omar", "د. عمر محمد", "أخصائي تغذية رياضية", "6 سنوات خبرة", "عيادة التغذية المتقدمة"),
    Nutritionist("dr-layla", "د. ليلى حسن", "أخصائية تغذية الأطفال", "10 سنوات خبرة", "مركز الأمومة والطفولة"),
    Nutritionist("dr-khalid", "د. خالد العلي", "أخصائي السمنة والنحافة", "12 سنوات خبرة", "مجمع المفرق الطبي")
  ]

  /** `nutritionDoctors.find(d => d.id === id)` */
  function FindNutritionist(ds: seq<Nutritionist>, id: string): (r: Option<Nutritionist>)
    ensures r.Some? ==> r.value in ds && r.value.id == id
    ensures r.None? ==> forall d | d in ds :: d.id != id
    decreases |ds|
  {
    if ds == [] then None
    else if ds[0].id == id then Some(ds[0])
    else FindNutritionist(ds[1..], id)
  }

  datatype BookingForm = BookingForm(doctorId: string, date: string, time: string, patientName: string, patientPhone: string)

  const BlankForm := BookingForm("", "", "", "", "")

  datatype Booking = Booking(
    id: string, doctor: Option<Nutritionist>, date: string, time: string,
    patientName: string, patientPhone: string, createdAt: string)

  function BookingId(b: Booking): string { b.id }

  /** `isFormFilled` */
  predicate IsFormFilled(f: BookingForm) {
    f.doctorId != "" && f.date != "" && f.time != "" && f.patientName != "" && f.patientPhone != ""
  }

  datatype Rejection = MissingField | DateOutOfRange | TimeOutOfRange

  /** The checks of `confirmBooking`, in order. `day` is the booking date as
      a day number, `None` when `new Date(bookingDate)` is invalid: both
      comparisons with an invalid date are false, so it passes the date
      check. */
  function Rejected(f: BookingForm, day: Option<int>, today: int): (r: Option<Rejection>)
    ensures r.None? <==>
      IsFormFilled(f) && (day.Some? ==> InDateWindow(day.value, today)) && InWindowByText(f.time)
    ensures r == Some(MissingField) <==> !IsFormFilled(f)
    ensures r == Some(DateOutOfRange) <==> IsFormFilled(f) && day.Some? && !InDateWindow(day.value, today)
  {
    if !IsFormFilled(f) then Some(MissingField)
    else if day.Some? && (day.value < today || day.value > today + BookingHorizon) then Some(DateOutOfRange)
    else if LexLess(f.time, MinTime) || LexLess(MaxTime, f.time) then Some(TimeOutOfRange)
    else None
  }

  /** For a clock time proper, the string comparison accepts exactly the
      times from 540 to 1020 minutes. */
  lemma AcceptedClockTime(f: BookingForm, day: Option<int>, today: int)
    requires ValidClock(f.time) && IsFormFilled(f) && (day.Some? ==> InDateWindow(day.value, today))
    ensures Rejected(f, day, today).None? <==> 540 <= Minutes(f.time) <= 1020
  {
    WindowsAgree(f.time);
    WindowMinutes();
  }

  /** A date that does not parse is not refused for its date. */
  lemma UnparsedDatePasses(f: BookingForm, today: int)
    requires IsFormFilled(f)
    ensures Rejected(f, None, today) != Some(DateOutOfRange)
    ensures InWindowByText(f.time) ==> Rejected(f, None, today).None?
  {
  }

  /** The booking `confirmBooking` builds. */
  function NewBooking(f: BookingForm, id: string, createdAt: string): Booking {
    Booking(id, FindNutritionist(Nutritionists, f.doctorId), f.date, f.time, f.patientName, f.patientPhone, createdAt)
  }

  /** The page's estimate and booking state; `stored` is the
      `nutritionBookings` entry of local storage. */
  class NutritionPage {
    var foodName: string
    var grams: string
    var result: Option<Estimate>
    var form: BookingForm
    var stored: seq<Booking>
    var myBookings: seq<Booking>
    var bookingError: Option<Rejection>
    var bookingSuccess: bool

    constructor(saved: seq<Booking>)
      ensures foodName == "" && grams == "" && result.None? && form == BlankForm
      ensures stored == saved && myBookings == saved
      ensures bookingError.None? && !bookingSuccess
    {
      foodName := "";
      grams := "";
      result := None;
      form := BlankForm;
      stored := saved;
      myBookings := saved;
      bookingError := None;
      bookingSuccess := false;
    }

    /** `estimate()` */
    method Estimate()
      modifies this
      ensures result == EstimateOf(Foods, foodName, grams)
      ensures foodName == old(foodName) && grams == old(grams) && form == old(form)
      ensures stored == old(stored) && myBookings == old(myBookings)
      ensures bookingError == old(bookingError) && bookingSuccess == old(bookingSuccess)
    {
      result := EstimateOf(Foods, foodName, grams);
    }

    /** `confirmBooking`: a refused form reports its first failed check and
        changes no list; an accepted one is put first in the stored list,
        which becomes the shown list, and the five form fields are
        cleared. */
    method ConfirmBooking(id: string, createdAt: string, day: Option<int>, today: int)
      modifies this
      ensures bookingError == Rejected(old(form), day, today)
      ensures bookingError.Some? ==>
        stored == old(stored) && myBookings == old(myBookings) && form == old(form) && !bookingSuccess
      ensures bookingError.None? ==>
        stored == [NewBooking(old(form), id, createdAt)] + old(stored)
        && myBookings == stored && form == BlankForm && bookingSuccess
      ensures foodName == old(foodName) && grams == old(grams) && result == old(result)
    {
      bookingError := None;
      bookingSuccess := false;
      var r := Rejected(form, day, today);
      if r.Some? {
        bookingError := r;
        return;
      }
      var b := NewBooking(form, id, createdAt);
      stored := [b] + stored;
      myBookings := stored;
      form := BlankForm;
      bookingSuccess := true;
    }

    /** `cancelBooking(id)`: the shown list loses every entry with that id
        and is stored. */
    method CancelBooking(id: string)
      modifies this
      ensures myBookings == Without(old(myBookings), BookingId, id)
      ensures stored == myBookings
      ensures foodName == old(foodName) && grams == old(grams) && result == old(result)
      ensures form == old(form) && bookingError == old(bookingError) && bookingSuccess == old(bookingSuccess)
    {
      myBookings := Without(myBookings, BookingId, id);
      stored := myBookings;
    }
  }
}
