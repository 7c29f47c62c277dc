/** The hospital and clinic directory (`src/pages/Hospitals.tsx`): the
    search and type filter over both lists, the map query of a site,
    and the filter and query taken from the page address. */
module Hospitals {
  import opened Text
  import opened Js
  import opened Seqs

  /** A hospital or clinic card (hours, rating, status, location and
      description are only shown). */
  datatype Facility = Facility(id: int, name: string, nameEn: string, kind: string, specialty: string, address: string, phone: string)

  /** The filter value that keeps every kind. */
  const AllKinds: string := "all"

  /** The search part of `filterData`: name, English name and specialty
      compared lower-cased, the address as written. */
  predicate MatchesSearch(f: Facility, q: string) {
    var lq := ToLower(q);
    Contains(ToLower(f.name), lq) || Contains(ToLower(f.nameEn), lq)
    || Contains(ToLower(f.specialty), lq) || Contains(f.address, q)
  }

  /** The filter part: everything for `"all"`, else the exact kind or a
      specialty containing the filter text. */
  predicate MatchesFilter(f: Facility, t: string) {
    t == AllKinds || f.kind == t || Contains(f.specialty, t)
  }

  /** `filterData(data)` with the current query and filter. */
  function FilterData(data: seq<Facility>, q: string, t: string): (r: seq<Facility>)
    ensures IsSubseq(r, data)
    ensures forall f | f in r :: f in data && MatchesSearch(f, q) && MatchesFilter(f, t)
    ensures forall f | f in data && MatchesSearch(f, q) && MatchesFilter(f, t) :: f in r
  {
    Filter(data, f => MatchesSearch(f, q) && MatchesFilter(f, t))
  }

  /** An empty query with the `"all"` filter shows every site. */
  lemma EmptySearchKeepsAll(data: seq<Facility>)
    ensures FilterData(data, "", AllKinds) == data
  {
    forall f | f in data ensures MatchesSearch(f, "") && MatchesFilter(f, AllKinds) {
      ContainsEmpty(ToLower(f.name));
    }
    FilterAll(data, f => MatchesSearch(f, "") && MatchesFilter(f, AllKinds));
  }

  /** The filter never adds a site back: filtering a filtered list again
      with the same query and filter changes nothing. */
  lemma FilterDataIdempotent(data: seq<Facility>, q: string, t: string)
    ensures FilterData(FilterData(data, q, t), q, t) == FilterData(data, q, t)
  {
    FilterTwice(data, f => MatchesSearch(f, q) && MatchesFilter(f, t));
  }

  /** A kind filter keeps every site of that kind that matches the search. */
  lemma KindFilterKeepsKind(data: seq<Facility>, q: string, f: Facility)
    requires f in data && MatchesSearch(f, q)
    ensures f in FilterData(data, q, f.kind)
  {
  }

  // ---------------------------------------------------------------------
  // Map query

  /** The word `openMap` puts after the name: hospital for the
      government, private and university kinds, clinic for any other. */
  function KindWord(kind: string): (w: string)
    ensures w == "مستشفى" <==> kind == "حكومي" || kind == "خاص" || kind == "جامعي"
    ensures w == "مستشفى" || w == "عيادة"
  {
    if kind == "حكومي" || kind == "خاص" || kind == "جامعي" then "مستشفى" else "عيادة"
  }

  /** The text `openMap` searches for, before URL encoding. */
  function MapQuery(f: Facility): (q: string)
    ensures StartsWith(q, f.name + " " + KindWord(f.kind) + " " + f.address)
    ensures EndsWith(q, ", المفرق, الأردن")
    ensures q == f.name + " " + KindWord(f.kind) + " " + f.address + ", المفرق, الأردن"
  {
    var head := f.name + " " + KindWord(f.kind) + " " + f.address;
    var tail := ", المفرق, الأردن";
    assert (head + tail)[..|head|] == head;
    assert (head + tail)[|head + tail| - |tail|..] == tail;
    head + tail
  }

  /** Every kind but the three hospital kinds, the military one included,
      is searched for as a clinic. */
  lemma OtherKindsAreClinics(f: Facility)
    requires f.kind != "حكومي" && f.kind != "خاص" && f.kind != "جامعي"
    ensures MapQuery(f) == f.name + " عيادة " + f.address + ", المفرق, الأردن"
  {
    assert f.name + " " + KindWord(f.kind) + " " + f.address == f.name + " عيادة " + f.address;
  }

  // ---------------------------------------------------------------------
  // Address parameters

  /** The query parameters of the page address, in order. */
  type Params = seq<(string, string)>

  /** `searchParams.get(name)`: the first value given for that name. */
  function ParamGet(ps: Params, name: string): (r: Option<string>)
    ensures r.None? <==> forall i | 0 <= i < |ps| :: ps[i].0 != name
    ensures r.Some? ==> exists i | 0 <= i < |ps| :: ps[i] == (name, r.value) && forall j | 0 <= j < i :: ps[j].0 != name
    decreases |ps|
  {
    if ps == [] then None
    else if ps[0].0 == name then Some(ps[0].1)
    else
      var r := ParamGet(ps[1..], name);
      assert forall i | 0 <= i < |ps[1..]| :: ps[1..][i] == ps[i + 1];
      assert forall i | 1 <= i < |ps| :: ps[i] == ps[1..][i - 1];
      r
  }

  /** A value that is there and not empty. */
  predicate Truthy(v: Option<string>) { v.Some? && v.value != "" }

  /** The filter and query after the parameter effect: `type` and `q`
      overwrite them only when present and not empty. */
  function WithParams(filter: string, query: string, ps: Params): (r: (string, string))
    ensures r.0 == (if Truthy(ParamGet(ps, "type")) then ParamGet(ps, "type").value else filter)
    ensures r.1 == (if Truthy(ParamGet(ps, "q")) then ParamGet(ps, "q").value else query)
  {
    var t, q := ParamGet(ps, "type"), ParamGet(ps, "q");
    (if Truthy(t) then t.value else filter, if Truthy(q) then q.value else query)
  }

  /** An address without parameters leaves the filter and query alone, and
      applying the same parameters twice is applying them once. */
  lemma WithParamsStable(filter: string, query: string, ps: Params)
    ensures WithParams(filter, query, []) == (filter, query)
    ensures var r := WithParams(filter, query, ps); WithParams(r.0, r.1, ps) == r
  {
  }

  class HospitalsPage {
    var searchQuery: string
    var filterType: string

    constructor()
      ensures searchQuery == "" && filterType == AllKinds
    {
      searchQuery := "";
      filterType := AllKinds;
    }

    /** The effect run on the address parameters. */
    method ApplyParams(ps: Params)
      modifies this
      ensures (filterType, searchQuery) == WithParams(old(filterType), old(searchQuery), ps)
    {
      var t := ParamGet(ps, "type");
      var q := ParamGet(ps, "q");
      if Truthy(t) {
        filterType := t.value;
      }
      if Truthy(q) {
        searchQuery := q.value;
      }
    }

    /** The hospital and clinic cards shown. */
    function Shown(hospitals: seq<Facility>, clinics: seq<Facility>): (seq<Facility>, seq<Facility>)
      reads this
    {
      (FilterData(hospitals, searchQuery, filterType), FilterData(clinics, searchQuery, filterType))
    }
  }
}
