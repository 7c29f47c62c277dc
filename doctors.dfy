/** The doctors directory (`src/pages/Doctors.tsx`): the list of doctors
    and facilities, its replacement from the local JSON file, the merge of
    Google Places results, the search and the map link of a card. */
module Doctors {
  import opened Text
  import opened Js
  import opened Seqs

  datatype Location = Location(lat: real, lng: real)

  /** A card; the optional fields of the source are `Option`s. The years of
      experience, hours, rating and notes are only shown. */
  datatype DoctorItem = DoctorItem(
    id: string, name: string, specialty: Option<string>, clinic: Option<string>,
    address: Option<string>, phone: Option<string>, languages: Option<seq<string>>,
    location: Option<Location>)

  // ---------------------------------------------------------------------
  // Google Places

  /** A Places result; an empty name or vicinity stands for a missing one. */
  datatype Place = Place(placeId: string, name: string, vicinity: string, location: Option<Location>)

  const DefaultPlaceName: string := "منشأة صحية"
  const DefaultPlaceAddress: string := "المفرق، الأردن"

  /** The card made of a Places result. */
  function PlaceItem(p: Place): (d: DoctorItem)
    ensures d.id == p.placeId && d.location == p.location
    ensures d.name == (if p.name == "" then DefaultPlaceName else p.name)
    ensures d.address == Some(if p.vicinity == "" then DefaultPlaceAddress else p.vicinity)
    ensures d.phone == Some("") && d.specialty.None? && d.clinic.None? && d.languages.None?
    ensures d.name != "" && d.address.value != ""
  {
    DoctorItem(
      p.placeId, if p.name == "" then DefaultPlaceName else p.name,
      None, None, Some(if p.vicinity == "" then DefaultPlaceAddress else p.vicinity),
      Some(""), None, p.location)
  }

  /** `results.map(...)`. */
  function PlaceItems(results: seq<Place>): (r: seq<DoctorItem>)
    ensures |r| == |results| && forall i | 0 <= i < |r| :: r[i] == PlaceItem(results[i])
  {
    seq(|results|, i requires 0 <= i < |results| => PlaceItem(results[i]))
  }

  /** The merge key: name, coordinates and phone (a missing phone as empty). */
  datatype MergeKey = MergeKey(name: string, location: Option<Location>, phone: string)

  function KeyOf(d: DoctorItem): MergeKey {
    MergeKey(d.name, d.location, if d.phone.Some? then d.phone.value else "")
  }

  /** The list after the merge: the previous cards then the places, with
      every card dropped whose key an earlier card already has. */
  function Merged(prev: seq<DoctorItem>, places: seq<DoctorItem>): seq<DoctorItem> {
    Deduped(prev + places, KeyOf)
  }

  /** What the merge promises: the previous cards stay in front and in
      order when their keys were distinct; no key occurs twice; every key
      of either list survives; every surviving card comes from one of the
      lists; and the first card with a given key is the one kept. */
  lemma MergeProperties(prev: seq<DoctorItem>, places: seq<DoctorItem>)
    ensures KeysDistinct(prev, KeyOf) ==>
      |prev| <= |Merged(prev, places)| && Merged(prev, places)[..|prev|] == prev
    ensures KeysDistinct(Merged(prev, places), KeyOf)
    ensures KeysOf(Merged(prev, places), KeyOf) == KeysOf(prev + places, KeyOf)
    ensures forall d | d in Merged(prev, places) :: d in prev || d in places
    ensures forall i | 0 <= i < |prev + places| && KeyOf((prev + places)[i]) !in KeysOf((prev + places)[..i], KeyOf) ::
      (prev + places)[i] in Merged(prev, places)
  {
    DedupedAppendPrefix(prev, places, KeyOf);
    if KeysDistinct(prev, KeyOf) {
      DedupedOfDistinct(prev, KeyOf);
    }
    DedupedDistinct(prev + places, KeyOf);
    DedupedKeys(prev + places, KeyOf);
    DedupedMembers(prev + places, KeyOf);
    forall i | 0 <= i < |prev + places| && KeyOf((prev + places)[i]) !in KeysOf((prev + places)[..i], KeyOf)
      ensures (prev + places)[i] in Merged(prev, places)
    {
      DedupedKeepsFirst(prev + places, KeyOf, i);
    }
  }

  /** A place with the same name, coordinates and phone as a card already
      listed is not added again. */
  lemma MergeSkipsKnown(prev: seq<DoctorItem>, p: DoctorItem)
    requires exists d | d in prev :: KeyOf(d) == KeyOf(p)
    ensures Merged(prev, [p]) == Deduped(prev, KeyOf)
  {
    var d :| d in prev && KeyOf(d) == KeyOf(p);
    var all := prev + [p];
    assert all[..|all| - 1] == prev;
    var i :| 0 <= i < |prev| && prev[i] == d;
    assert KeyOf(p) in KeysOf(prev, KeyOf);
  }

  /** What the Places request gave: a failure, or a body whose `results`
      may be missing. */
  datatype PlacesReply = PlacesFailed | PlacesBody(results: Option<seq<Place>>)

  // ---------------------------------------------------------------------
  // Search

  /** `arr.join(sep)`. */
  function Join(ss: seq<string>, sep: string): string
    decreases |ss|
  {
    if ss == [] then ""
    else if |ss| == 1 then ss[0]
    else Join(ss[..|ss| - 1], sep) + sep + ss[|ss| - 1]
  }

  /** Every joined element occurs in the joined text. */
  lemma {:induction false} JoinOccurs(ss: seq<string>, sep: string, i: nat)
    requires i < |ss|
    ensures exists k :: OccursAt(Join(ss, sep), ss[i], k)
    decreases |ss|
  {
    if |ss| == 1 {
      assert OccursAt(Join(ss, sep), ss[i], 0);
    } else {
      var init := Join(ss[..|ss| - 1], sep);
      var j := init + sep + ss[|ss| - 1];
      assert j == Join(ss, sep);
      if i == |ss| - 1 {
        assert j[|init + sep|..|init + sep| + |ss[i]|] == ss[i];
        assert OccursAt(j, ss[i], |init + sep|);
      } else {
        JoinOccurs(ss[..|ss| - 1], sep, i);
        var k :| OccursAt(init, ss[..|ss| - 1][i], k);
        assert ss[..|ss| - 1][i] == ss[i];
        assert j[k..k + |ss[i]|] == init[k..k + |ss[i]|];
        assert OccursAt(j, ss[i], k);
      }
    }
  }

  /** Lower-casing keeps an occurrence where it is. */
  lemma LowerOccurs(s: string, sub: string, k: int)
    requires OccursAt(s, sub, k)
    ensures OccursAt(ToLower(s), ToLower(sub), k)
  {
    assert ToLower(s)[k..k + |sub|] == ToLower(sub);
  }

  function OrEmpty(s: Option<string>): string { if s.Some? then s.value else "" }

  /** A card's languages as the search sees them. */
  function LanguageText(d: DoctorItem): string {
    ToLower(Join(if d.languages.Some? then d.languages.value else [], ", "))
  }

  /** The card matches the prepared query `q`. */
  predicate DoctorMatches(d: DoctorItem, q: string) {
    Contains(ToLower(d.name), q) || Contains(ToLower(OrEmpty(d.specialty)), q)
    || Contains(ToLower(OrEmpty(d.clinic)), q) || Contains(ToLower(OrEmpty(d.address)), q)
    || Contains(LanguageText(d), q)
  }

  /** `filtered`: the cards that match the trimmed, lower-cased query, in
      order; a blank query keeps every card. */
  function FilteredDoctors(list: seq<DoctorItem>, searchQuery: string): (r: seq<DoctorItem>)
    ensures IsSubseq(r, list)
    ensures forall d | d in r :: d in list && DoctorMatches(d, ToLower(Trim(searchQuery)))
    ensures forall d | d in list && DoctorMatches(d, ToLower(Trim(searchQuery))) :: d in r
    ensures Trim(searchQuery) == "" ==> r == list
  {
    var q := ToLower(Trim(searchQuery));
    var r := Filter(list, d => DoctorMatches(d, q));
    if Trim(searchQuery) == "" then
      forall d | d in list ensures DoctorMatches(d, q) {
        ContainsEmpty(ToLower(d.name));
      }
      FilterAll(list, d => DoctorMatches(d, q));
      r
    else
      r
  }

  /** Searching for one of a doctor's languages finds that doctor. */
  lemma LanguageFindsDoctor(d: DoctorItem, l: string)
    requires d.languages.Some? && l in d.languages.value
    ensures DoctorMatches(d, ToLower(l))
  {
    var ls := d.languages.value;
    var i :| 0 <= i < |ls| && ls[i] == l;
    JoinOccurs(ls, ", ", i);
    var k :| OccursAt(Join(ls, ", "), l, k);
    LowerOccurs(Join(ls, ", "), l, k);
    ContainsAt(LanguageText(d), ToLower(l));
  }

  // ---------------------------------------------------------------------
  // Map link

  /** The page `openMap` opens: directions to the coordinates, or a search
      for the name (before URL encoding). */
  datatype MapLink = Directions(lat: real, lng: real) | NameSearch(query: string)

  /** A coordinate is truthy when it is not zero. */
  function MapLinkOf(d: DoctorItem): (m: MapLink)
    ensures m.Directions? <==> d.location.Some? && d.location.value.lat != 0.0 && d.location.value.lng != 0.0
    ensures m.Directions? ==> m == Directions(d.location.value.lat, d.location.value.lng)
    ensures m.NameSearch? ==> StartsWith(m.query, d.name) && EndsWith(m.query, " المفرق الأردن")
    ensures m.NameSearch? ==> m.query == d.name + " المفرق الأردن"
  {
    if d.location.Some? && d.location.value.lat != 0.0 && d.location.value.lng != 0.0 then
      Directions(d.location.value.lat, d.location.value.lng)
    else
      var q := d.name + " المفرق الأردن";
      assert q[..|d.name|] == d.name;
      assert q[|q| - |" المفرق الأردن"|..] == " المفرق الأردن";
      NameSearch(q)
  }

  /** A place without coordinates, and one on the equator or the zero
      meridian, are searched for by name. */
  lemma NoCoordinatesSearchesName(d: DoctorItem)
    requires d.location.None? || d.location.value.lat == 0.0 || d.location.value.lng == 0.0
    ensures MapLinkOf(d) == NameSearch(d.name + " المفرق الأردن")
  {
  }

  // ---------------------------------------------------------------------
  // The page

  class DoctorsDirectory {
    var searchQuery: string
    var loading: bool
    var list: seq<DoctorItem>

    /** The page starts from the built-in Mafraq list. */
    constructor(builtIn: seq<DoctorItem>)
      ensures searchQuery == "" && !loading && list == builtIn
    {
      searchQuery := "";
      loading := false;
      list := builtIn;
    }

    /** `fetchOnline`: the list becomes the file's content when it could be
        read, and stays as it was otherwise. */
    method FetchOnline(data: Option<seq<DoctorItem>>)
      modifies this
      ensures list == (if data.Some? then data.value else old(list))
      ensures !loading && searchQuery == old(searchQuery)
    {
      loading := true;
      if data.Some? {
        list := data.value;
      }
      loading := false;
    }

    /** `fetchFromGooglePlaces`: nothing at all happens without an API key;
        a failed request leaves the list alone; otherwise the places are
        merged after the current cards, de-duplicated by key with a set of
        keys seen. */
    method FetchFromGooglePlaces(apiKey: string, reply: PlacesReply)
      modifies this
      ensures apiKey == "" ==> list == old(list) && loading == old(loading)
      ensures apiKey != "" && reply.PlacesFailed? ==> list == old(list) && !loading
      ensures apiKey != "" && reply.PlacesBody? ==>
        list == Merged(old(list), PlaceItems(if reply.results.Some? then reply.results.value else []))
        && !loading
      ensures searchQuery == old(searchQuery)
    {
      if apiKey == "" {
        return;
      }
      loading := true;
      if reply.PlacesBody? {
        var results := if reply.results.Some? then reply.results.value else [];
        var places := PlaceItems(results);
        list := Dedup(list + places, KeyOf);
      }
      loading := false;
    }

    /** The cards shown. */
    function Filtered(): seq<DoctorItem>
      reads this
    {
      FilteredDoctors(list, searchQuery)
    }
  }
}
