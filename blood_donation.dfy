/** The logic of the blood-donation page (`src/pages/BloodDonation.tsx`):
    ABO/Rh compatibility lists, the donation-eligibility check, the donor
    inventory, the donor register with its add and cancel actions, the
    donor filters and the community badges. */
module BloodDonation {
  import opened Text
  import opened Js
  import opened Seqs

  // ---------------------------------------------------------------------
  // Blood groups and compatibility

  datatype Abo = O | A | B | AB
  datatype Rh = Pos | Neg
  datatype Group = Group(abo: Abo, rh: Rh)

  function AboLabel(t: Abo): string {
    match t
    case O => "O"
    case A => "A"
    case B => "B"
    case AB => "AB"
  }

  function RhLabel(r: Rh): string {
    match r
    case Pos => "+"
    case Neg => "-"
  }

  /** `${bloodType}${rh}`, the inventory key and the label shown. */
  function Label(g: Group): string {
    AboLabel(g.abo) + RhLabel(g.rh)
  }

  /** The `donateTo` column of the ABO table. */
  function AboDonateTo(t: Abo): seq<Abo> {
    match t
    case O => [O, A, B, AB]
    case A => [A, AB]
    case B => [B, AB]
    case AB => [AB]
  }

  /** The `receiveFrom` column of the ABO table. */
  function AboReceiveFrom(t: Abo): seq<Abo> {
    match t
    case O => [O]
    case A => [A, O]
    case B => [B, O]
    case AB => [A, B, O, AB]
  }

  /** `flatMap(t => rh === "-" ? [t-, t+] : [t+])`: an Rh- donor gives to both
      Rh groups, an Rh+ donor only to Rh+. */
  function DonateTargets(ts: seq<Abo>, rh: Rh): seq<Group> {
    if ts == [] then []
    else
      (if rh == Neg then [Group(ts[0], Neg), Group(ts[0], Pos)] else [Group(ts[0], Pos)])
      + DonateTargets(ts[1..], rh)
  }

  lemma {:induction false} DonateTargetsMembers(ts: seq<Abo>, rh: Rh, g: Group)
    ensures g in DonateTargets(ts, rh) <==> g.abo in ts && (rh == Neg || g.rh == Pos)
  {
    if ts != [] {
      DonateTargetsMembers(ts[1..], rh, g);
      assert ts == [ts[0]] + ts[1..];
      var head := if rh == Neg then [Group(ts[0], Neg), Group(ts[0], Pos)] else [Group(ts[0], Pos)];
      assert DonateTargets(ts, rh) == head + DonateTargets(ts[1..], rh);
      assert g == Group(g.abo, g.rh);
      assert g.rh == Pos || g.rh == Neg;
      assert g in head <==> g.abo == ts[0] && (rh == Neg || g.rh == Pos);
    }
  }

  /** `flatMap(t => rh === "+" ? [t+, t-] : [t-])`: an Rh+ recipient takes
      from both Rh groups, an Rh- recipient only from Rh-. */
  function ReceiveSources(ts: seq<Abo>, rh: Rh): seq<Group> {
    if ts == [] then []
    else
      (if rh == Pos then [Group(ts[0], Pos), Group(ts[0], Neg)] else [Group(ts[0], Neg)])
      + ReceiveSources(ts[1..], rh)
  }

  lemma {:induction false} ReceiveSourcesMembers(ts: seq<Abo>, rh: Rh, g: Group)
    ensures g in ReceiveSources(ts, rh) <==> g.abo in ts && (rh == Pos || g.rh == Neg)
  {
    if ts != [] {
      ReceiveSourcesMembers(ts[1..], rh, g);
      assert ts == [ts[0]] + ts[1..];
      var head := if rh == Pos then [Group(ts[0], Pos), Group(ts[0], Neg)] else [Group(ts[0], Neg)];
      assert ReceiveSources(ts, rh) == head + ReceiveSources(ts[1..], rh);
      assert g == Group(g.abo, g.rh);
      assert g.rh == Pos || g.rh == Neg;
      assert g in head <==> g.abo == ts[0] && (rh == Pos || g.rh == Neg);
    }
  }

  /** `compatibility.donateTo` for the selected type and Rh. */
  function DonateTo(g: Group): seq<Group> {
    DonateTargets(AboDonateTo(g.abo), g.rh)
  }

  /** `compatibility.receiveFrom` for the selected type and Rh. */
  function ReceiveFrom(g: Group): seq<Group> {
    ReceiveSources(AboReceiveFrom(g.abo), g.rh)
  }

  /** Who a group gives to and receives from, by ABO column and Rh. */
  lemma CompatibilityMembers(g: Group, x: Group)
    ensures x in DonateTo(g) <==> x.abo in AboDonateTo(g.abo) && (g.rh == Neg || x.rh == Pos)
    ensures x in ReceiveFrom(g) <==> x.abo in AboReceiveFrom(g.abo) && (g.rh == Pos || x.rh == Neg)
  {
    DonateTargetsMembers(AboDonateTo(g.abo), g.rh, x);
    ReceiveSourcesMembers(AboReceiveFrom(g.abo), g.rh, x);
  }

  /** Every group can give to and receive from itself. */
  lemma SelfCompatible(g: Group)
    ensures g in DonateTo(g) && g in ReceiveFrom(g)
  {
    CompatibilityMembers(g, g);
    match g.abo
    case O =>
    case A =>
    case B =>
    case AB =>
  }

  /** The two ABO columns are converse. */
  lemma AboConverse(x: Abo, y: Abo)
    ensures x in AboDonateTo(y) <==> y in AboReceiveFrom(x)
  {
    match y
    case O =>
    case A =>
    case B =>
    case AB =>
  }

  /** The two lists are converse: `x` is among those `y` gives to exactly
      when `y` is among those `x` receives from. */
  lemma Converse(x: Group, y: Group)
    ensures x in DonateTo(y) <==> y in ReceiveFrom(x)
  {
    CompatibilityMembers(y, x);
    CompatibilityMembers(x, y);
    AboConverse(x.abo, y.abo);
  }

  /** O- gives to all eight groups; AB+ receives from all eight. */
  lemma UniversalDonorAndRecipient(g: Group)
    ensures g in DonateTo(Group(O, Neg))
    ensures g in ReceiveFrom(Group(AB, Pos))
  {
    CompatibilityMembers(Group(O, Neg), g);
    CompatibilityMembers(Group(AB, Pos), g);
    match g.abo
    case O =>
    case A =>
    case B =>
    case AB =>
  }

  /** An Rh+ donor gives only to Rh+; an Rh- recipient takes only from Rh-. */
  lemma RhRestrictions(t: Abo, g: Group)
    ensures g in DonateTo(Group(t, Pos)) ==> g.rh == Pos
    ensures g in ReceiveFrom(Group(t, Neg)) ==> g.rh == Neg
  {
    CompatibilityMembers(Group(t, Pos), g);
    CompatibilityMembers(Group(t, Neg), g);
  }

  // ---------------------------------------------------------------------
  // Eligibility

  /** The eligibility form; every field is the text typed in. */
  datatype EligibilityForm = EligibilityForm(age: string, weight: string, hb: string, gender: string, lastDonation: string)

  /** The three numbers the eligibility test reads off the form. */
  datatype Readings = Readings(age: Num, weight: Num, hb: Num)

  const Female: string := "أنثى"
  /** Days required between two whole-blood donations. */
  const RequiredGap: int := 56

  /** Why a donation is not possible yet, in the order they are pushed. */
  datatype Reason = AgeOutOfRange | Underweight | LowHemoglobin(min: real) | WaitDays(days: int)

  /** The day after which the next donation is possible: none without a
      last donation, an invalid date for an unparsable one. */
  datatype NextDate = NoNextDate | InvalidNextDate | NextOn(day: int)

  datatype Eligibility = Eligibility(eligible: bool, reasons: seq<Reason>, nextDate: NextDate)

  /** `Number(field || 0)`: an empty field counts as zero. */
  function FieldNumber(s: string): (n: Num)
    ensures s == "" ==> n == Val(0.0)
  {
    if s == "" then Val(0.0) else StringToNumber(s)
  }

  /** `age`, `weight` and `hb` as the memo computes them. */
  function ReadingsOf(form: EligibilityForm): Readings {
    Readings(FieldNumber(form.age), FieldNumber(form.weight), FieldNumber(form.hb))
  }

  /** `n < x` and `n > x` with NaN comparing false. */
  predicate Below(n: Num, x: real) { n.Val? && n.v < x }
  predicate Above(n: Num, x: real) { n.Val? && n.v > x }

  function HbMin(gender: string): real {
    if gender == Female then 12.5 else 13.0
  }

  /** Position of a reason in the order the checks run. */
  function Rank(r: Reason): nat {
    match r
    case AgeOutOfRange => 0
    case Underweight => 1
    case LowHemoglobin(_) => 2
    case WaitDays(_) => 3
  }

  /** `reasons.push(r)` when `c` holds. */
  function Pushed(c: bool, r: Reason): seq<Reason> {
    if c then [r] else []
  }

  predicate AgeRule(r: Readings) {
    Below(r.age, 18.0) || Above(r.age, 65.0)
  }

  predicate WeightRule(r: Readings) {
    Below(r.weight, 50.0)
  }

  /** `hb && hb < hbMin`: a zero or unparsable reading is not checked. */
  predicate HbRule(r: Readings, gender: string) {
    NumTruthy(r.hb) && Below(r.hb, HbMin(gender))
  }

  /** Fewer than 56 days since a valid last donation. Dates are day
      numbers: `dayOf` parses the text (`None` for an invalid date) and
      `today` is the current day. */
  predicate WaitRule(lastDonation: string, today: int, dayOf: string -> Option<int>) {
    lastDonation != "" && dayOf(lastDonation).Some? && today - dayOf(lastDonation).value < RequiredGap
  }

  function DaysToWait(lastDonation: string, today: int, dayOf: string -> Option<int>): int
    requires WaitRule(lastDonation, today, dayOf)
  {
    RequiredGap - (today - dayOf(lastDonation).value)
  }

  /** The reasons the four checks push, in check order. */
  function Reasons(r: Readings, gender: string, lastDonation: string, today: int, dayOf: string -> Option<int>): seq<Reason> {
    Pushed(AgeRule(r), AgeOutOfRange) + Pushed(WeightRule(r), Underweight)
    + Pushed(HbRule(r, gender), LowHemoglobin(HbMin(gender)))
    + (if WaitRule(lastDonation, today, dayOf) then [WaitDays(DaysToWait(lastDonation, today, dayOf))] else [])
  }

  /** The `eligibility` memo, on the readings `ReadingsOf(form)` and the
      gender and last-donation fields of the form. */
  method CheckEligibility(r: Readings, gender: string, lastDonation: string, today: int, dayOf: string -> Option<int>)
    returns (e: Eligibility)
    ensures e.reasons == Reasons(r, gender, lastDonation, today, dayOf)
    ensures e.eligible <==> e.reasons == []
    ensures lastDonation == "" ==> e.nextDate == NoNextDate
    ensures lastDonation != "" ==>
      e.nextDate == match dayOf(lastDonation)
        case None => InvalidNextDate
        case Some(d) => NextOn(d + RequiredGap)
  {
    var reasons: seq<Reason> := [];
    if Below(r.age, 18.0) || Above(r.age, 65.0) {
      reasons := reasons + [AgeOutOfRange];
    }
    if Below(r.weight, 50.0) {
      reasons := reasons + [Underweight];
    }
    var hbMin := HbMin(gender);
    if NumTruthy(r.hb) && Below(r.hb, hbMin) {
      reasons := reasons + [LowHemoglobin(hbMin)];
    }
    assert reasons == Pushed(AgeRule(r), AgeOutOfRange) + Pushed(WeightRule(r), Underweight)
      + Pushed(HbRule(r, gender), LowHemoglobin(hbMin));
    if lastDonation != "" {
      var last := dayOf(lastDonation);
      if last.Some? {
        var diff := today - last.value;
        if diff < RequiredGap {
          reasons := reasons + [WaitDays(RequiredGap - diff)];
        }
      }
    }
    var next := if lastDonation == "" then NoNextDate
      else match dayOf(lastDonation)
        case None => InvalidNextDate
        case Some(d) => NextOn(d + RequiredGap);
    e := Eligibility(reasons == [], reasons, next);
  }

  /** Eligible exactly when no check fires; each reason is present exactly
      when its check fires, with the threshold or the days still to wait
      (at least one); the reasons come in check order. */
  lemma EligibilityRules(form: EligibilityForm, today: int, dayOf: string -> Option<int>)
    ensures var r := ReadingsOf(form);
      var s := Reasons(r, form.gender, form.lastDonation, today, dayOf);
      (s == [] <==> !AgeRule(r) && !WeightRule(r) && !HbRule(r, form.gender) && !WaitRule(form.lastDonation, today, dayOf))
      && (AgeOutOfRange in s <==> Below(FieldNumber(form.age), 18.0) || Above(FieldNumber(form.age), 65.0))
      && (Underweight in s <==> Below(FieldNumber(form.weight), 50.0))
      && (forall m :: LowHemoglobin(m) in s <==>
           m == HbMin(form.gender) && NumTruthy(FieldNumber(form.hb)) && Below(FieldNumber(form.hb), m))
      && (forall n :: WaitDays(n) in s <==>
           WaitRule(form.lastDonation, today, dayOf) && n == RequiredGap - (today - dayOf(form.lastDonation).value))
      && (forall n | WaitDays(n) in s :: n >= 1)
      && (forall i, j | 0 <= i < j < |s| :: Rank(s[i]) < Rank(s[j]))
  {
    var r := ReadingsOf(form);
    var w := WaitRule(form.lastDonation, today, dayOf);
    var days := if w then DaysToWait(form.lastDonation, today, dayOf) else 1;
    ReasonsInOrder(AgeRule(r), WeightRule(r), HbRule(r, form.gender), w, HbMin(form.gender), days);
    assert Reasons(r, form.gender, form.lastDonation, today, dayOf) ==
      Pushed(AgeRule(r), AgeOutOfRange) + Pushed(WeightRule(r), Underweight)
      + Pushed(HbRule(r, form.gender), LowHemoglobin(HbMin(form.gender))) + Pushed(w, WaitDays(days));
  }

  /** An empty form is refused for age and weight but not for hemoglobin:
      blank fields read as zero, and a zero reading skips that check. */
  lemma BlankFormRefused(gender: string, today: int, dayOf: string -> Option<int>)
    ensures var s := Reasons(ReadingsOf(EligibilityForm("", "", "", gender, "")), gender, "", today, dayOf);
      s == [AgeOutOfRange, Underweight]
  {
    var r := ReadingsOf(EligibilityForm("", "", "", gender, ""));
    assert r == Readings(Val(0.0), Val(0.0), Val(0.0));
  }

  /** The reasons pushed by the four checks: which are present, in check order. */
  lemma ReasonsInOrder(c1: bool, c2: bool, c3: bool, c4: bool, hbMin: real, wait: int)
    ensures var s := Pushed(c1, AgeOutOfRange) + Pushed(c2, Underweight)
      + Pushed(c3, LowHemoglobin(hbMin)) + Pushed(c4, WaitDays(wait));
      (s == [] <==> !c1 && !c2 && !c3 && !c4)
      && (AgeOutOfRange in s <==> c1) && (Underweight in s <==> c2)
      && (forall m :: LowHemoglobin(m) in s <==> c3 && m == hbMin)
      && (forall n :: WaitDays(n) in s <==> c4 && n == wait)
      && (forall i, j | 0 <= i < j < |s| :: Rank(s[i]) < Rank(s[j]))
  {
    if c1 {
      if c2 { } else { }
    } else {
      if c2 { } else { }
    }
  }

  // ---------------------------------------------------------------------
  // Donors

  datatype Donor = Donor(
    id: string, name: string, phone: string, group: Group,
    age: Option<Num>, city: Option<string>, lastDonation: Option<string>,
    notes: Option<string>, available: Option<bool>, createdAt: string)

  /** `d.available !== false`: a missing flag counts as available. */
  predicate Available(d: Donor) { d.available != Some(false) }

  datatype DonorForm = DonorForm(
    name: string, phone: string, group: Group,
    age: string, city: string, lastDonation: string, notes: string)

  const BlankForm: DonorForm := DonorForm("", "", Group(O, Pos), "", "", "", "")

  /** `s || undefined` */
  function Optional(s: string): Option<string> {
    if s == "" then None else Some(s)
  }

  /** The form leaves `addDonor` nothing to do: blank name or phone. */
  predicate Incomplete(form: DonorForm) {
    Trim(form.name) == "" || Trim(form.phone) == ""
  }

  /** The donor `addDonor` builds from the form, the id and the creation time. */
  function NewDonor(form: DonorForm, id: string, createdAt: string): Donor {
    Donor(id, Trim(form.name), Trim(form.phone), form.group,
      if form.age == "" then None else Some(StringToNumber(form.age)),
      Optional(form.city), Optional(form.lastDonation), Optional(form.notes),
      Some(true), createdAt)
  }

  /** The donor list after `addDonor`. */
  function WithDonor(donors: seq<Donor>, form: DonorForm, id: string, createdAt: string): (r: seq<Donor>)
    ensures Incomplete(form) ==> r == donors
    ensures !Incomplete(form) ==>
      |r| == |donors| + 1 && r[1..] == donors
      && r[0].id == id && r[0].available == Some(true) && r[0].group == form.group
      && r[0].name == Trim(form.name) && r[0].phone == Trim(form.phone)
      && r[0].name != "" && Trimmed(r[0].name) && r[0].phone != "" && Trimmed(r[0].phone)
  {
    if Incomplete(form) then donors else [NewDonor(form, id, createdAt)] + donors
  }

  /** The donor list after `cancelDonation(id)`. */
  function Cancelled(donors: seq<Donor>, id: string): (r: seq<Donor>)
    ensures |r| == |donors|
    ensures forall i | 0 <= i < |r| :: r[i] == donors[i].(available := r[i].available)
    ensures forall i | 0 <= i < |r| :: donors[i].id == id ==> r[i].available == Some(false)
    ensures forall i | 0 <= i < |r| :: donors[i].id != id ==> r[i] == donors[i]
  {
    seq(|donors|, i requires 0 <= i < |donors| =>
      if donors[i].id == id then donors[i].(available := Some(false)) else donors[i])
  }

  /** Cancelling twice is cancelling once. */
  lemma CancelIdempotent(donors: seq<Donor>, id: string)
    ensures Cancelled(Cancelled(donors, id), id) == Cancelled(donors, id)
  {
    var once := Cancelled(donors, id);
    var twice := Cancelled(once, id);
    assert forall i | 0 <= i < |donors| :: twice[i] == once[i];
  }

  /** The donor register: the `donors` list state and the donor form. */
  class DonorRegister {
    var donors: seq<Donor>
    var form: DonorForm

    /** The page starts from the saved list and a blank form. */
    constructor(saved: seq<Donor>)
      ensures donors == saved && form == BlankForm
    {
      donors := saved;
      form := BlankForm;
    }

    /** `addDonor`, with `Date.now()` as `id` and the ISO time as `createdAt`:
        an incomplete form changes nothing; otherwise the new donor is
        prepended and the form is reset. */
    method AddDonor(id: string, createdAt: string)
      modifies this
      ensures donors == WithDonor(old(donors), old(form), id, createdAt)
      ensures form == if Incomplete(old(form)) then old(form) else BlankForm
    {
      if Incomplete(form) {
        return;
      }
      donors := [NewDonor(form, id, createdAt)] + donors;
      form := BlankForm;
    }

    /** `cancelDonation(id)` */
    method CancelDonation(id: string)
      modifies this
      ensures donors == Cancelled(old(donors), id)
      ensures form == old(form)
    {
      donors := Cancelled(donors, id);
    }
  }

  // ---------------------------------------------------------------------
  // Inventory

  /** Number of available donors of group `g`. */
  function Count(ds: seq<Donor>, g: Group): nat
    decreases |ds|
  {
    if ds == [] then 0
    else Count(ds[..|ds| - 1], g) + (if Available(ds[|ds| - 1]) && ds[|ds| - 1].group == g then 1 else 0)
  }

  lemma CountSnoc(ds: seq<Donor>, d: Donor, g: Group)
    ensures Count(ds + [d], g) == Count(ds, g) + (if Available(d) && d.group == g then 1 else 0)
  {
    assert (ds + [d])[..|ds|] == ds;
  }

  /** The per-group counts of a donor list. */
  function CountOf(ds: seq<Donor>): Group -> nat {
    g => Count(ds, g)
  }

  /** The groups in the order the sorted inventory lists them. */
  const SortedGroups: seq<Group> := [
    Group(A, Pos), Group(A, Neg), Group(AB, Pos), Group(AB, Neg),
    Group(B, Pos), Group(B, Neg), Group(O, Pos), Group(O, Neg)]

  /** Where a group stands in the sorted order. */
  function Position(g: Group): (k: nat)
    ensures k < |SortedGroups| && SortedGroups[k] == g
  {
    match g
    case Group(A, Pos) => 0
    case Group(A, Neg) => 1
    case Group(AB, Pos) => 2
    case Group(AB, Neg) => 3
    case Group(B, Pos) => 4
    case Group(B, Neg) => 5
    case Group(O, Pos) => 6
    case Group(O, Neg) => 7
  }

  lemma PositionOfSorted(k: nat)
    requires k < |SortedGroups|
    ensures Position(SortedGroups[k]) == k
  {
  }

  /** `Position` strictly increases along `order`. */
  predicate Ascending(order: seq<Group>) {
    forall p, q | 0 <= p < q < |order| :: Position(order[p]) < Position(order[q])
  }

  lemma AscendingTail(order: seq<Group>)
    requires order != [] && Ascending(order)
    ensures Ascending(order[1..])
  {
    var tail := order[1..];
    forall p, q | 0 <= p < q < |tail| ensures Position(tail[p]) < Position(tail[q]) {
      assert tail[p] == order[p + 1] && tail[q] == order[q + 1];
    }
  }

  lemma SortedGroupsAscending()
    ensures Ascending(SortedGroups)
  {
    forall p, q | 0 <= p < q < |SortedGroups| ensures Position(SortedGroups[p]) < Position(SortedGroups[q]) {
      PositionOfSorted(p);
      PositionOfSorted(q);
    }
  }

  /** The entries `(g, count(g))` for the groups `g` of `order` with a
      positive count, in the order of `order`. */
  function EntriesFor(count: Group -> nat, order: seq<Group>): seq<(Group, nat)> {
    if order == [] then []
    else (if count(order[0]) > 0 then [(order[0], count(order[0]))] else []) + EntriesFor(count, order[1..])
  }

  /** The `inventory` memo: one entry per group with available donors, sorted. */
  function Inventory(ds: seq<Donor>): seq<(Group, nat)> {
    EntriesFor(CountOf(ds), SortedGroups)
  }

  lemma {:induction false} EntriesForCongruent(c1: Group -> nat, c2: Group -> nat, order: seq<Group>)
    requires forall g :: c1(g) == c2(g)
    ensures EntriesFor(c1, order) == EntriesFor(c2, order)
  {
    if order != [] {
      EntriesForCongruent(c1, c2, order[1..]);
    }
  }

  /** Each entry is a group of `order` with its positive count, and every
      group of `order` with a positive count has an entry. */
  lemma {:induction false} EntriesForMembers(count: Group -> nat, order: seq<Group>)
    ensures var r := EntriesFor(count, order);
      (forall i | 0 <= i < |r| :: r[i].0 in order && r[i].1 == count(r[i].0) && r[i].1 >= 1)
      && (forall g | g in order && count(g) > 0 :: exists i | 0 <= i < |r| :: r[i].0 == g)
  {
    if order != [] {
      var tail := order[1..];
      EntriesForMembers(count, tail);
      var rest := EntriesFor(count, tail);
      var head: seq<(Group, nat)> := if count(order[0]) > 0 then [(order[0], count(order[0]))] else [];
      var r := head + rest;
      assert r == EntriesFor(count, order);
      assert order == [order[0]] + tail;
      forall i | 0 <= i < |r| ensures r[i].0 in order && r[i].1 == count(r[i].0) && r[i].1 >= 1 {
        if i >= |head| {
          assert r[i] == rest[i - |head|];
        }
      }
      forall g | g in order && count(g) > 0 ensures exists i | 0 <= i < |r| :: r[i].0 == g {
        if g == order[0] {
          assert r[0].0 == g;
        } else {
          var k :| 0 <= k < |rest| && rest[k].0 == g;
          assert r[k + |head|].0 == g;
        }
      }
    }
  }

  /** The entries keep the order of `order`. */
  /** Entries only come from groups of `order`, so a bound below every
      position of `order` is below every entry's. */
  lemma {:induction false} EntriesForAbove(count: Group -> nat, order: seq<Group>, k: int)
    requires forall q | 0 <= q < |order| :: k < Position(order[q])
    ensures forall i | 0 <= i < |EntriesFor(count, order)| :: k < Position(EntriesFor(count, order)[i].0)
  {
    if order != [] {
      var tail := order[1..];
      assert forall q | 0 <= q < |tail| :: tail[q] == order[q + 1];
      EntriesForAbove(count, tail, k);
    }
  }

  lemma {:induction false} EntriesForSorted(count: Group -> nat, order: seq<Group>)
    requires Ascending(order)
    ensures forall i, j | 0 <= i < j < |EntriesFor(count, order)| ::
      Position(EntriesFor(count, order)[i].0) < Position(EntriesFor(count, order)[j].0)
  {
    if order != [] {
      var tail := order[1..];
      AscendingTail(order);
      EntriesForSorted(count, tail);
      assert forall q | 0 <= q < |tail| :: Position(order[0]) < Position(tail[q]) by {
        assert forall q | 0 <= q < |tail| :: tail[q] == order[q + 1];
      }
      EntriesForAbove(count, tail, Position(order[0]));
      var rest := EntriesFor(count, tail);
      var head: seq<(Group, nat)> := if count(order[0]) > 0 then [(order[0], count(order[0]))] else [];
      var r := head + rest;
      assert r == EntriesFor(count, order);
      forall i, j | 0 <= i < j < |r| ensures Position(r[i].0) < Position(r[j].0) {
        if i < |head| {
          assert r[j] == rest[j - 1];
        } else {
          assert r[i] == rest[i - |head|] && r[j] == rest[j - |head|];
        }
      }
    }
  }

  /** `inventory`: counts the available donors per key into a map, then
      lists the entries sorted. */
  method TallyInventory(ds: seq<Donor>) returns (entries: seq<(Group, nat)>)
    ensures entries == Inventory(ds)
  {
    var m: map<Group, nat> := map[];
    for i := 0 to |ds|
      invariant forall g :: (g in m <==> Count(ds[..i], g) > 0) && (g in m ==> m[g] == Count(ds[..i], g))
    {
      assert ds[..i + 1] == ds[..i] + [ds[i]];
      forall g ensures Count(ds[..i + 1], g) == Count(ds[..i], g) + (if Available(ds[i]) && ds[i].group == g then 1 else 0) {
        CountSnoc(ds[..i], ds[i], g);
      }
      if Available(ds[i]) {
        var k := ds[i].group;
        m := m[k := (if k in m then m[k] else 0) + 1];
      }
    }
    assert ds[..|ds|] == ds;
    var tally := g => if g in m then m[g] else 0;
    EntriesForCongruent(tally, CountOf(ds), SortedGroups);
    entries := EntriesFor(tally, SortedGroups);
  }

  /** Sum of the counts of an inventory. */
  function SumCounts(r: seq<(Group, nat)>): nat {
    if r == [] then 0 else r[0].1 + SumCounts(r[1..])
  }

  /** Sum of `count` over `order`, each group as often as it occurs. */
  function CountOver(count: Group -> nat, order: seq<Group>): nat {
    if order == [] then 0 else count(order[0]) + CountOver(count, order[1..])
  }

  lemma {:induction false} EntriesForSum(count: Group -> nat, order: seq<Group>)
    ensures SumCounts(EntriesFor(count, order)) == CountOver(count, order)
  {
    if order != [] {
      EntriesForSum(count, order[1..]);
      var rest := EntriesFor(count, order[1..]);
      if count(order[0]) > 0 {
        assert ([(order[0], count(order[0]))] + rest)[1..] == rest;
      } else {
        assert [] + rest == rest;
      }
    }
  }

  /** How often `g` occurs in `order`. */
  function Occurrences(order: seq<Group>, g: Group): nat {
    if order == [] then 0 else (if order[0] == g then 1 else 0) + Occurrences(order[1..], g)
  }

  /** Adding one to the count of `g0` adds its occurrences to the sum. */
  lemma {:induction false} CountOverBump(c1: Group -> nat, c2: Group -> nat, order: seq<Group>, g0: Group, bump: bool)
    requires forall g :: c2(g) == c1(g) + (if bump && g == g0 then 1 else 0)
    ensures CountOver(c2, order) == CountOver(c1, order) + (if bump then Occurrences(order, g0) else 0)
  {
    if order != [] {
      CountOverBump(c1, c2, order[1..], g0, bump);
    }
  }

  lemma {:induction false} OccurrencesAscending(order: seq<Group>, g: Group)
    requires Ascending(order)
    ensures Occurrences(order, g) == if g in order then 1 else 0
  {
    if order != [] {
      var tail := order[1..];
      AscendingTail(order);
      OccurrencesAscending(tail, g);
      assert order == [order[0]] + tail;
      if order[0] == g {
        assert g !in tail by {
          forall k | 0 <= k < |tail| ensures tail[k] != g {
            assert tail[k] == order[k + 1];
          }
        }
      }
    }
  }

  /** Over an order listing every group once, the counts add up to the
      number of available donors. */
  lemma {:induction false} CountOverAll(ds: seq<Donor>, order: seq<Group>)
    requires Ascending(order) && forall g :: g in order
    ensures CountOver(CountOf(ds), order) == |Filter(ds, Available)|
    decreases |ds|
  {
    if ds == [] {
      ZeroCountOver(CountOf([]), order);
    } else {
      var front, d := ds[..|ds| - 1], ds[|ds| - 1];
      assert ds == front + [d];
      CountOverAll(front, order);
      forall g ensures CountOf(ds)(g) == CountOf(front)(g) + (if Available(d) && g == d.group then 1 else 0) {
        CountSnoc(front, d, g);
      }
      CountOverBump(CountOf(front), CountOf(ds), order, d.group, Available(d));
      OccurrencesAscending(order, d.group);
      FilterAppend(front, [d], Available);
    }
  }

  /** The inventory counts add up to the number of available donors. */
  lemma InventoryTotal(ds: seq<Donor>)
    ensures SumCounts(Inventory(ds)) == |Filter(ds, Available)|
  {
    SortedGroupsAscending();
    forall g ensures g in SortedGroups {
      assert SortedGroups[Position(g)] == g;
    }
    CountOverAll(ds, SortedGroups);
    EntriesForSum(CountOf(ds), SortedGroups);
    assert Inventory(ds) == EntriesFor(CountOf(ds), SortedGroups);
  }

  lemma {:induction false} ZeroCountOver(count: Group -> nat, order: seq<Group>)
    requires forall g :: count(g) == 0
    ensures CountOver(count, order) == 0
  {
    if order != [] {
      ZeroCountOver(count, order[1..]);
    }
  }

  lemma LexLessPrefix(c: char, a: string, b: string)
    requires LexLess(a, b)
    ensures LexLess([c] + a, [c] + b)
  {
    assert ([c] + a)[1..] == a && ([c] + b)[1..] == b;
  }

  lemma AdjacentLabels(i: nat)
    requires i + 1 < |SortedGroups|
    ensures LexLess(Label(SortedGroups[i]), Label(SortedGroups[i + 1]))
  {
    var a, b := Label(SortedGroups[i]), Label(SortedGroups[i + 1]);
    if i == 0 || i == 4 || i == 6 {
      assert a[1..] == "+" && b[1..] == "-";
      assert LexLess("+", "-");
      LexLessPrefix(a[0], "+", "-");
      assert a == [a[0]] + "+" && b == [a[0]] + "-";
    } else if i == 2 {
      assert LexLess("+", "-");
      LexLessPrefix('B', "+", "-");
      LexLessPrefix('A', "B+", "B-");
      assert a == "AB+" && b == "AB-";
    } else if i == 1 {
      assert a == "A-" && b == "AB+";
    } else {
      assert a[0] < b[0];
    }
  }

  lemma {:induction false} LabelsChain(i: nat, j: nat)
    requires i < j < |SortedGroups|
    ensures LexLess(Label(SortedGroups[i]), Label(SortedGroups[j]))
    decreases j - i
  {
    AdjacentLabels(j - 1);
    if i < j - 1 {
      LabelsChain(i, j - 1);
      LexLessTransitive(Label(SortedGroups[i]), Label(SortedGroups[j - 1]), Label(SortedGroups[j]));
    }
  }

  /** A group earlier in the sorted order has the smaller label. */
  lemma LabelsOrdered(g: Group, h: Group)
    requires Position(g) < Position(h)
    ensures LexLess(Label(g), Label(h))
  {
    LabelsChain(Position(g), Position(h));
  }

  /** Along an ascending order the entries' labels strictly increase. */
  lemma EntriesForLabels(count: Group -> nat, order: seq<Group>)
    requires Ascending(order)
    ensures var r := EntriesFor(count, order);
      forall i, j | 0 <= i < j < |r| :: LexLess(Label(r[i].0), Label(r[j].0))
  {
    var r := EntriesFor(count, order);
    EntriesForSorted(count, order);
    forall i, j | 0 <= i < j < |r| ensures LexLess(Label(r[i].0), Label(r[j].0)) {
      LabelsOrdered(r[i].0, r[j].0);
    }
  }

  lemma EntriesOfCounts(ds: seq<Donor>, order: seq<Group>)
    ensures forall e | e in EntriesFor(CountOf(ds), order) :: e.1 == Count(ds, e.0) && e.1 >= 1
  {
    EntriesForMembers(CountOf(ds), order);
  }

  /** Each inventory entry is a group with its number of available donors,
      at least one. */
  lemma InventoryCounts(ds: seq<Donor>)
    ensures forall e | e in Inventory(ds) :: e.1 == Count(ds, e.0) && e.1 >= 1
  {
    EntriesOfCounts(ds, SortedGroups);
    assert Inventory(ds) == EntriesFor(CountOf(ds), SortedGroups);
  }

  /** Every group with an available donor has an inventory entry. */
  lemma InventoryComplete(ds: seq<Donor>, g: Group)
    requires Count(ds, g) > 0
    ensures var r := Inventory(ds);
      exists i | 0 <= i < |r| :: r[i].0 == g
  {
    EntriesForMembers(CountOf(ds), SortedGroups);
    assert SortedGroups[Position(g)] == g;
    assert CountOf(ds)(g) > 0;
    assert Inventory(ds) == EntriesFor(CountOf(ds), SortedGroups);
  }

  /** The inventory is sorted by key: the labels strictly increase. */
  lemma InventorySorted(ds: seq<Donor>)
    ensures var r := Inventory(ds);
      forall i, j | 0 <= i < j < |r| :: LexLess(Label(r[i].0), Label(r[j].0))
  {
    SortedGroupsAscending();
    EntriesForLabels(CountOf(ds), SortedGroups);
    assert Inventory(ds) == EntriesFor(CountOf(ds), SortedGroups);
  }

  // ---------------------------------------------------------------------
  // Filters and badges

  /** A donor shown under the type and Rh filters (`None` is "all"). */
  predicate Listed(d: Donor, ft: Option<Abo>, fr: Option<Rh>) {
    (ft.None? || d.group.abo == ft.value) && (fr.None? || d.group.rh == fr.value) && Available(d)
  }

  /** `filteredDonors` */
  function FilteredDonors(donors: seq<Donor>, ft: Option<Abo>, fr: Option<Rh>): (r: seq<Donor>)
    ensures IsSubseq(r, donors)
    ensures forall d | d in r :: Available(d) && (ft.None? || d.group.abo == ft.value) && (fr.None? || d.group.rh == fr.value)
    ensures forall d | d in donors && Listed(d, ft, fr) :: d in r
  {
    Filter(donors, d => Listed(d, ft, fr))
  }

  /** A cancelled donor is no longer listed under any filter. */
  lemma CancelledNotListed(donors: seq<Donor>, id: string, ft: Option<Abo>, fr: Option<Rh>)
    ensures forall d | d in FilteredDonors(Cancelled(donors, id), ft, fr) :: d.id != id
  {
    var c := Cancelled(donors, id);
    forall d | d in FilteredDonors(c, ft, fr) ensures d.id != id {
      var i :| 0 <= i < |c| && c[i] == d;
      assert c[i].id == donors[i].id;
    }
  }

  datatype Badge = LifeSaver | SupportiveCommunity | ActiveCampaign

  function BadgeRank(b: Badge): nat {
    match b
    case LifeSaver => 0
    case SupportiveCommunity => 1
    case ActiveCampaign => 2
  }

  /** `donorBadges`: an O- donor anywhere in the list (available or not),
      then five and ten registered donors. */
  function DonorBadges(donors: seq<Donor>): (r: seq<Badge>)
    ensures LifeSaver in r <==> exists i | 0 <= i < |donors| :: donors[i].group == Group(O, Neg)
    ensures SupportiveCommunity in r <==> |donors| >= 5
    ensures ActiveCampaign in r <==> |donors| >= 10
    ensures forall i, j | 0 <= i < j < |r| :: BadgeRank(r[i]) < BadgeRank(r[j])
  {
    var hero := exists i | 0 <= i < |donors| :: donors[i].group == Group(O, Neg);
    (if hero then [LifeSaver] else [])
    + (if |donors| >= 5 then [SupportiveCommunity] else [])
    + (if |donors| >= 10 then [ActiveCampaign] else [])
  }
}
