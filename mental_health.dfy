/** The mental-health page (`src/pages/MentalHealth.tsx`): the PHQ-2 and
    GAD-2 screening scores and their levels, the search over the
    therapists of Mafraq, and the booking form with its validation, the
    stored booking list and cancellation. */
module MentalHealth {
  import opened Text
  import opened Js
  import opened Seqs
  import opened Schedule

  // ---------------------------------------------------------------------
  // Screening

  /** An answer button: 0 (never) to 3 (nearly every day). */
  predicate Answer(a: int) { 0 <= a <= 3 }

  /** The level both tests derive from their score. */
  datatype Level = Probable | MildSigns | NoSigns

  function LevelRank(l: Level): nat {
    match l
    case NoSigns => 0
    case MildSigns => 1
    case Probable => 2
  }

  /** The level of a score: three and up probable, one or two mild, else none. */
  function LevelOf(score: int): (l: Level)
    ensures l == Probable <==> score >= 3
    ensures l == MildSigns <==> 1 <= score < 3
    ensures l == NoSigns <==> score < 1
  {
    if score >= 3 then Probable else if score >= 1 then MildSigns else NoSigns
  }

  /** The level text of the PHQ-2 (depression) test. */
  function DepressionLabel(l: Level): string {
    match l
    case Probable => "احتمال وجود أعراض اكتئاب"
    case MildSigns => "مؤشرات خفيفة"
    case NoSigns => "طبيعي"
  }

  /** The level text of the GAD-2 (anxiety) test. */
  function AnxietyLabel(l: Level): string {
    match l
    case Probable => "احتمال وجود أعراض قلق"
    case MildSigns => "مؤشرات خفيفة"
    case NoSigns => "طبيعي"
  }

  /** The score of a two-question test is the sum of its answers. */
  function Score(a1: int, a2: int): (s: int)
    ensures Answer(a1) && Answer(a2) ==> 0 <= s <= 6
  {
    a1 + a2
  }

  /** With answers in range, the score is out of six; it is probable
      exactly when the answers sum to three or more, and it is no sign at
      all only when both answers are "never". */
  lemma ScreeningBands(a1: int, a2: int)
    requires Answer(a1) && Answer(a2)
    ensures 0 <= Score(a1, a2) <= 6
    ensures LevelOf(Score(a1, a2)) == NoSigns <==> a1 == 0 && a2 == 0
    ensures a1 == 3 || a2 == 3 ==> LevelOf(Score(a1, a2)) == Probable
  {
  }

  /** A higher score never gives a lower level. */
  lemma LevelMonotone(s: int, t: int)
    requires s <= t
    ensures LevelRank(LevelOf(s)) <= LevelRank(LevelOf(t))
  {
  }

  /** The two tests share the mild and none texts; only the probable text
      names the condition. */
  lemma LabelsDiffer(l: Level)
    ensures DepressionLabel(l) == AnxietyLabel(l) <==> l != Probable
  {
    if l == Probable {
      assert DepressionLabel(l)[19] != AnxietyLabel(l)[19];
    }
  }

  // ---------------------------------------------------------------------
  // Therapists and search

  datatype ContactMethod = InClinic | Video | PhoneCall

  datatype Therapist = Therapist(id: string, name: string, clinic: string, address: string, phone: string, methods: seq<ContactMethod>)

  const Therapists: seq<Therapist> := [
    Therapist("mh-1", "د. رائد الخوالدة", "عيادة الراحة النفسية", "شارع الجامعة، المفرق", "+962 7 9012 3456", [InClinic, Video, PhoneCall]),
    Therapist("mh-2", "د. هبة الزعبي", "مركز التوازن", "دوار البريد، المفرق", "+962 7 9099 1122", [InClinic, Video]),
    Therapist("mh-3", "د. محمد الرواشدة", "عيادة نور", "الحسين، المفرق", "+962 7 9088 3344", [InClinic, PhoneCall])
  ]

  /** The query occurs in the name, the clinic or the address, with case kept. */
  predicate TherapistMatches(d: Therapist, q: string) {
    Contains(d.name, q) || Contains(d.clinic, q) || Contains(d.address, q)
  }

  /** `filteredDoctors` */
  function FilteredTherapists(ds: seq<Therapist>, q: string): (r: seq<Therapist>)
    ensures IsSubseq(r, ds)
    ensures forall d | d in r :: d in ds && TherapistMatches(d, q)
    ensures forall d | d in ds && TherapistMatches(d, q) :: d in r
    ensures q == "" ==> r == ds
  {
    var r := Filter(ds, d => TherapistMatches(d, q));
    if q == "" then
      forall d | d in ds ensures TherapistMatches(d, q) {
        ContainsEmpty(d.name);
      }
      FilterAll(ds, d => TherapistMatches(d, q));
      r
    else
      r
  }

  /** Searching within the results of a search for the same text changes nothing. */
  lemma SearchIdempotent(ds: seq<Therapist>, q: string)
    ensures FilteredTherapists(FilteredTherapists(ds, q), q) == FilteredTherapists(ds, q)
  {
    FilterTwice(ds, d => TherapistMatches(d, q));
  }

  // ---------------------------------------------------------------------
  // Booking

  datatype BookingForm = BookingForm(
    doctor: Option<Therapist>, contact: ContactMethod,
    date: string, time: string, userName: string, userPhone: string)

  datatype Booking = Booking(
    id: string, doctorId: string, doctorName: string, clinic: string,
    contact: ContactMethod, date: string, time: string,
    userName: string, userPhone: string, createdAt: string)

  /** The reasons `confirmBooking` refuses, in the order it checks them. */
  datatype Rejection = MissingField | InvalidDate | DateOutOfRange | InvalidTime | TimeOutOfRange

  /** A required field is empty or no therapist is selected. */
  predicate Incomplete(f: BookingForm) {
    f.doctor.None? || f.date == "" || f.time == "" || f.userName == "" || f.userPhone == ""
  }

  /** The checks of `confirmBooking`. `day` is the booking date as a day
      number, `None` when `new Date(bookingDate)` is invalid; `today` is the
      current day. */
  function Rejected(f: BookingForm, day: Option<int>, today: int): (r: Option<Rejection>)
    ensures r.None? <==>
      !Incomplete(f) && day.Some? && InDateWindow(day.value, today)
      && ClockFormat(f.time) && InWindowByMinutes(f.time)
    ensures r == Some(MissingField) <==> Incomplete(f)
    ensures r == Some(InvalidDate) <==> !Incomplete(f) && day.None?
    ensures r == Some(DateOutOfRange) <==> !Incomplete(f) && day.Some? && !InDateWindow(day.value, today)
    ensures r == Some(InvalidTime) <==>
      !Incomplete(f) && day.Some? && InDateWindow(day.value, today) && !ClockFormat(f.time)
  {
    if Incomplete(f) then Some(MissingField)
    else if day.None? then Some(InvalidDate)
    else if day.value < today || day.value > today + BookingHorizon then Some(DateOutOfRange)
    else if !ClockFormat(f.time) then Some(InvalidTime)
    else if Minutes(f.time) < Minutes(MinTime) || Minutes(f.time) > Minutes(MaxTime) then Some(TimeOutOfRange)
    else None
  }

  /** An accepted booking is at most sixty days ahead and its time lies
      from nine o'clock to five o'clock: the hour is 9 to 17, and at 17 the
      minutes are zero. The format lets minutes up to 99 through, so an
      hour of 8 with 60 or more minutes (`"08:75"`, 555 minutes) is
      accepted too. */
  lemma AcceptedHours(f: BookingForm, day: Option<int>, today: int)
    requires Rejected(f, day, today).None?
    ensures 0 <= day.value - today <= 60
    ensures var h, m := DigitsValue(f.time[..2]), DigitsValue(f.time[3..]);
      8 <= h <= 17 && (h == 17 ==> m == 0) && (h == 8 ==> m >= 60)
      && (ValidClock(f.time) ==> 9 <= h)
  {
    WindowMinutes();
    TwoDigits(f.time[3..]);
  }

  /** The entry `confirmBooking` stores. */
  function NewBooking(f: BookingForm, id: string, createdAt: string): Booking
    requires f.doctor.Some?
  {
    var d := f.doctor.value;
    Booking(id, d.id, d.name, d.clinic, f.contact, f.date, f.time, f.userName, f.userPhone, createdAt)
  }

  function BookingId(b: Booking): string { b.id }

  datatype Tab = TestsTab | BookingTab | MyBookingsTab

  /** The page's booking state; `stored` is the `mentalBookings` entry of
      local storage. */
  class MentalHealthPage {
    var form: BookingForm
    var docQuery: string
    var stored: seq<Booking>
    var myBookings: seq<Booking>
    var bookingError: Option<Rejection>
    var bookingSuccess: bool
    var tab: Tab

    /** The page starts on the tests tab with the stored bookings. */
    constructor(saved: seq<Booking>)
      ensures stored == saved && myBookings == saved && tab == TestsTab
      ensures form == BookingForm(None, InClinic, "", "", "", "") && docQuery == ""
      ensures bookingError.None? && !bookingSuccess
    {
      form := BookingForm(None, InClinic, "", "", "", "");
      docQuery := "";
      stored := saved;
      myBookings := saved;
      bookingError := None;
      bookingSuccess := false;
      tab := TestsTab;
    }

    function Visible(): seq<Therapist>
      reads this
    {
      FilteredTherapists(Therapists, docQuery)
    }

    /** `confirmBooking`: the first failed check is reported and nothing is
        stored; otherwise the entry is put first in both the stored list
        and the shown list and the page moves to the bookings tab. The form
        is not cleared. */
    method ConfirmBooking(id: string, createdAt: string, day: Option<int>, today: int)
      modifies this
      ensures bookingError == Rejected(old(form), day, today)
      ensures bookingError.Some? ==>
        stored == old(stored) && myBookings == old(myBookings) && tab == old(tab) && !bookingSuccess
      ensures bookingError.None? ==>
        old(form).doctor.Some?
        && stored == [NewBooking(old(form), id, createdAt)] + old(stored)
        && myBookings == [NewBooking(old(form), id, createdAt)] + old(myBookings)
        && bookingSuccess && tab == MyBookingsTab
      ensures form == old(form) && docQuery == old(docQuery)
    {
      bookingError := None;
      bookingSuccess := false;
      var r := Rejected(form, day, today);
      if r.Some? {
        bookingError := r;
        return;
      }
      var entry := NewBooking(form, id, createdAt);
      stored := [entry] + stored;
      myBookings := [entry] + myBookings;
      bookingSuccess := true;
      tab := MyBookingsTab;
    }

    /** The cancel button: the stored list loses every entry with that id
        and becomes the shown list. */
    method CancelBooking(id: string)
      modifies this
      ensures stored == Without(old(stored), BookingId, id)
      ensures myBookings == stored
      ensures form == old(form) && docQuery == old(docQuery) && tab == old(tab)
      ensures bookingError == old(bookingError) && bookingSuccess == old(bookingSuccess)
    {
      stored := Without(stored, BookingId, id);
      myBookings := stored;
    }
  }
}
