/** The Jordan doctors scraper: command-line options, the two page parsers,
    the four crawl loops, the locality filter and the final
    concatenate, filter and map step that produces `public/doctors.json`.

    A fetched page is given as the fragments the selectors pick out of it;
    the network is a function from URL to `Fetched` outcome, and
    `new URL(href, base)` is a function that may fail (`None`, a throw). */
module JoDoctors {
  import opened Text
  import opened Js
  import opened Seqs
  import opened Web
  import opened DoctorPatterns
  import opened Crawls

  const BaseUrl: string := "https://www.almubdaa.com/dir/ar/jo/All/"
  const AltibbiListUrl: string := "https://altibbi.com/الدليل-الطبي/الاردن/المفرق/اطباء"
  const AltibbiSlugs: seq<string> := [
    "طب-عام", "باطنية", "نسائية-وتوليد", "اطفال", "اسنان", "جلدية-وتناسلية",
    "عيون", "انف-اذن-حنجرة", "عظام", "قلب-واوعية"
  ]
  /** The last-resort address of a listing card. */
  const Jordan: string := "الأردن"
  /** The address of every Altibbi doctor. */
  const AltibbiAddress: string := "المفرق، الأردن"
  const Mafraq: string := "المفرق"

  // ----- data -----

  /** One element matched by `a.card, div.card, li.card, .doctor-card, .listing`:
      its whole text, the text of the first element under it for each field
      selector (`""` when there is none) and its `title` attribute. */
  datatype Card = Card(
    text: string,
    title: string,       // .card-title, .title, .name, .doctor-name
    titleAttr: string,   // attr('title')
    specialty: string,   // .specialty, .category, .cat, .doctor-specialty
    city: string,        // .city, .doctor-city
    address: string)     // .address, .location, .city, .doctor-address

  /** A directory page: its cards in document order, the text of `body`, and
      the `href` of the first "next" link (`""` when missing). */
  datatype ListingPage = ListingPage(cards: seq<Card>, body: string, nextHref: string)

  /** An Altibbi page: the text of every `div`, `article` and `li`, in document order. */
  datatype AltibbiPage = AltibbiPage(blocks: seq<string>)

  /** A scraped doctor; `None` is a field left `undefined`. */
  datatype Doctor = Doctor(
    id: string,
    name: string,
    specialty: Option<string>,
    address: string,
    phone: Option<string>)

  /** `d.phone || ''` */
  function PhoneOrEmpty(d: Doctor): string {
    if d.phone.Some? then d.phone.value else ""
  }

  /** `${d.name}-${d.address}-${d.phone || ''}` */
  function FullKey(d: Doctor): string {
    d.name + "-" + d.address + "-" + PhoneOrEmpty(d)
  }

  /** `${d.name}-${d.phone || ''}`, the Altibbi key. */
  function NamePhoneKey(d: Doctor): string {
    d.name + "-" + PhoneOrEmpty(d)
  }

  /** What every parsed doctor satisfies. */
  predicate WellFormed(d: Doctor) {
    d.name != "" && d.id != "" && d.address != ""
    && (d.phone.Some? && d.phone.value != "" ==> PhoneShaped(d.phone.value))
  }

  // ----- parseDoctors -----

  /** The name of a card: the trimmed title text, else the `title` attribute as it is. */
  function CardName(c: Card): string {
    if Trim(c.title) != "" then Trim(c.title) else c.titleAttr
  }

  /** The address of a card: the address selector's text, else the city
      selector's text, else the city extracted from the card text, else `الأردن`. */
  function CardAddress(c: Card): (a: string)
    ensures a != "" && Trimmed(a)
    ensures a == Trim(c.address) || a == Trim(c.city) || a == ExtractCity(c.text) || a == Jordan
    ensures Trim(c.address) != "" ==> a == Trim(c.address)
    ensures Trim(c.address) == "" && Trim(c.city) != "" ==> a == Trim(c.city)
    ensures Trim(c.address) == "" && Trim(c.city) == "" && ExtractCity(c.text) != "" ==> a == ExtractCity(c.text)
    ensures Trim(c.address) == "" && Trim(c.city) == "" && ExtractCity(c.text) == "" ==> a == Jordan
  {
    var cityText := if Trim(c.city) != "" then Trim(c.city) else ExtractCity(c.text);
    if Trim(c.address) != "" then Trim(c.address)
    else if cityText != "" then cityText
    else Jordan
  }

  /** The item a card contributes: only a card with a name gives one. */
  function CardDoctor(c: Card): (r: Option<Doctor>)
    ensures r.Some? <==> CardName(c) != ""
    ensures r.Some? ==>
      WellFormed(r.value) && r.value.name == CardName(c) && r.value.address == CardAddress(c)
  {
    var name := CardName(c);
    var specialty := Trim(c.specialty);
    var address := CardAddress(c);
    var phone := Phone(c.text);
    if name == "" then None
    else Some(Doctor(
      name + "-" + address, name,
      if specialty == "" then None else Some(specialty),
      address,
      if phone == "" then None else Some(phone)))
  }

  /** The whole-page fallback: the first honorific name in the body text,
      with the extracted city (else `الأردن`) and the first phone (kept even
      when empty). */
  function Fallback(body: string): (r: seq<Doctor>)
    ensures |r| <= 1
    ensures forall d | d in r :: WellFormed(d)
  {
    match Name(body)
    case None => []
    case Some(name) =>
      var city := ExtractCity(body);
      var phone := Phone(body);
      if name == "" then []
      else [Doctor(name + "-0", name, None, if city != "" then city else Jordan, Some(phone))]
  }

  /** The items `parseDoctors` pushes before de-duplicating. */
  function RawDoctors(p: ListingPage): seq<Doctor> {
    var cards := Collect(p.cards, CardDoctor);
    if cards == [] then Fallback(p.body) else cards
  }

  /** `parseDoctors(html)`. */
  function ParsedDoctors(p: ListingPage): seq<Doctor> {
    Deduped(RawDoctors(p), FullKey)
  }

  /** The fall-back runs only when no card has a name, and adds at most one item. */
  lemma FallbackOnlyWithoutCards(p: ListingPage)
    ensures (exists i | 0 <= i < |p.cards| :: CardName(p.cards[i]) != "") ==>
      RawDoctors(p) == Collect(p.cards, CardDoctor)
    ensures (forall i | 0 <= i < |p.cards| :: CardName(p.cards[i]) == "") ==>
      RawDoctors(p) == Fallback(p.body) && |RawDoctors(p)| <= 1
  {
    CollectEmpty(p.cards, CardDoctor);
  }

  /** Every item of a parsed page is well-formed. */
  lemma ParsedDoctorsWellFormed(p: ListingPage)
    ensures forall d | d in ParsedDoctors(p) :: WellFormed(d)
  {
    CollectMembers(p.cards, CardDoctor);
    DedupedMembers(RawDoctors(p), FullKey);
  }

  /** The parse loop: each card in turn, then the fall-back, then the
      de-duplication pass. */
  method ParseDoctors(p: ListingPage) returns (items: seq<Doctor>)
    ensures items == ParsedDoctors(p)
  {
    var pushed := CollectEach(p.cards, CardDoctor);
    if |pushed| == 0 {
      pushed := Fallback(p.body);
    }
    items := Dedup(pushed, FullKey);
  }

  // ----- parseAltibbiDoctors -----

  /** `/المفرق\s*,?\s*الاردن|المفرق/i.test(text)`: the first alternative begins
      with the second, so the test is whether the text contains `المفرق`. */
  predicate MentionsMafraq(t: string) {
    Contains(t, Mafraq)
  }

  /** The item an Altibbi block contributes. */
  function AltibbiDoctor(raw: string): (r: Option<Doctor>)
    ensures r.Some? <==> Contains(NormalizeSpace(raw), Mafraq) && Name(NormalizeSpace(raw)).Some?
    ensures r.Some? ==> WellFormed(r.value) && r.value.address == AltibbiAddress
    ensures r.Some? ==> r.value.name == Name(NormalizeSpace(raw)).value
    ensures r.Some? ==> r.value.specialty == Specialty(NormalizeSpace(raw))
  {
    var t := NormalizeSpace(raw);
    if !MentionsMafraq(t) then None
    else
      match Name(t)
      case None => None
      case Some(name) =>
        assert name != "";
        var phone := Phone(t);
        Some(Doctor(name + "-" + AltibbiAddress, name, Specialty(t), AltibbiAddress,
          if phone == "" then None else Some(phone)))
  }

  /** `parseAltibbiDoctors(html)`. */
  function ParsedAltibbi(p: AltibbiPage): seq<Doctor> {
    Deduped(Collect(p.blocks, AltibbiDoctor), NamePhoneKey)
  }

  method ParseAltibbiDoctors(p: AltibbiPage) returns (items: seq<Doctor>)
    ensures items == ParsedAltibbi(p)
  {
    var pushed := CollectEach(p.blocks, AltibbiDoctor);
    items := Dedup(pushed, NamePhoneKey);
  }

  /** Every Altibbi item is well-formed, lives in Mafraq and comes from a
      block that mentions it. */
  lemma ParsedAltibbiSound(p: AltibbiPage)
    ensures forall d | d in ParsedAltibbi(p) ::
      WellFormed(d) && d.address == AltibbiAddress
      && exists i | 0 <= i < |p.blocks| :: AltibbiDoctor(p.blocks[i]) == Some(d)
  {
    CollectMembers(p.blocks, AltibbiDoctor);
    DedupedMembers(Collect(p.blocks, AltibbiDoctor), NamePhoneKey);
  }

  // ----- the four crawls -----

  function NextHref(p: ListingPage): string {
    p.nextHref
  }

  /** `crawl(maxPages)`: follow the "next" links from the directory's first
      page, then de-duplicate by name, address and phone. */
  method Crawl(web: string -> Fetched<ListingPage>, resolve: (string, string) -> Option<string>,
               maxPages: int) returns (doctors: seq<Doctor>, fetched: seq<string>)
    ensures var r := FollowFrom(web, ParsedDoctors, NextHref, resolve, BaseUrl,
                                if maxPages < 0 then 0 else maxPages);
      doctors == Deduped(r.0, FullKey) && fetched == r.1
  {
    var all;
    all, fetched := FollowLinks(web, ParsedDoctors, NextHref, resolve, BaseUrl, maxPages);
    doctors := Dedup(all, FullKey);
  }

  /** `${BASE_URL}links_dept_${i}.html` */
  function DeptUrl(i: nat): string {
    BaseUrl + "links_dept_" + NatToString(i) + ".html"
  }

  /** Distinct departments are distinct pages, so a failure of one cannot
      be a failure of another. */
  lemma DeptUrlInjective(i: nat, j: nat)
    requires DeptUrl(i) == DeptUrl(j)
    ensures i == j
  {
    var p := BaseUrl + "links_dept_";
    var a := DeptUrl(i);
    var b := DeptUrl(j);
    assert |NatToString(i)| == |NatToString(j)|;
    assert a[|p|..|a| - 5] == NatToString(i);
    assert b[|p|..|b| - 5] == NatToString(j);
    NatToStringInjective(i, j);
  }

  /** `crawlDepartments(maxDept)`: every department page `1..maxDept` in
      turn, failures skipped, then de-duplicated like `crawl`. */
  method CrawlDepartments(web: string -> Fetched<ListingPage>, maxDept: int)
    returns (doctors: seq<Doctor>, fetched: seq<string>)
    ensures var n := if maxDept < 0 then 0 else maxDept;
      doctors == Deduped(RangeItems(web, ParsedDoctors, DeptUrl, 1, n), FullKey)
      && fetched == RangeUrls(DeptUrl, n)
  {
    var all;
    all, fetched := CrawlRange(web, ParsedDoctors, DeptUrl, maxDept);
    doctors := Dedup(all, FullKey);
  }

  /** `crawlAltibbiList(maxPages)`: the numbered list pages, de-duplicated
      by name and phone. */
  method CrawlAltibbiList(web: string -> Fetched<AltibbiPage>, maxPages: int)
    returns (doctors: seq<Doctor>, fetched: seq<string>)
    ensures var r := PagedFrom(web, ParsedAltibbi, AltibbiListUrl, 1, maxPages);
      doctors == Deduped(r.0, NamePhoneKey) && fetched == r.1
  {
    var all;
    all, fetched := CrawlPages(web, ParsedAltibbi, AltibbiListUrl, maxPages);
    doctors := Dedup(all, NamePhoneKey);
  }

  /** `${ALTIBBI_LIST_URL}/${slug}` */
  function SlugBase(slug: string): string {
    AltibbiListUrl + "/" + slug
  }

  /** `crawlAltibbiSpecialties(maxPagesPer)`: the numbered pages of every
      specialty slug in turn, de-duplicated together by name and phone. */
  method CrawlAltibbiSpecialties(web: string -> Fetched<AltibbiPage>, maxPagesPer: int)
    returns (doctors: seq<Doctor>, fetched: seq<string>)
    ensures var r := PagedEach(web, ParsedAltibbi, SlugBase, AltibbiSlugs, maxPagesPer);
      doctors == Deduped(r.0, NamePhoneKey) && fetched == r.1
  {
    var all;
    all, fetched := CrawlEach(web, ParsedAltibbi, SlugBase, AltibbiSlugs, maxPagesPer);
    doctors := Dedup(all, NamePhoneKey);
  }

  // ----- includesCity -----

  const CityVariants: seq<string> := ["المفرق", "mafraq", "al mafraq", "al-mafraq"]

  /** Some of `vs`, lower-cased, occurs in `t`. */
  predicate AnyIncluded(t: string, vs: seq<string>)
    decreases |vs|
  {
    vs != [] && (Contains(t, ToLower(vs[0])) || AnyIncluded(t, vs[1..]))
  }

  /** `includesCity(text, city)`. */
  predicate IncludesCity(text: string, city: string) {
    city == "" || AnyIncluded(ToLower(text), [city] + CityVariants)
  }

  /** The two `al` spellings are covered by `mafraq`: the test is the city
      itself, `المفرق` or `mafraq`. So a Mafraq item passes whatever the
      chosen city. */
  lemma IncludesCityEquivalent(text: string, city: string)
    ensures IncludesCity(text, city) <==>
      city == "" || Contains(ToLower(text), ToLower(city))
      || Contains(ToLower(text), Mafraq) || Contains(ToLower(text), "mafraq")
  {
    var t := ToLower(text);
    var vs := [city] + CityVariants;
    assert ToLower("mafraq") == "mafraq";
    assert ToLower(Mafraq) == Mafraq;
    assert ToLower("al mafraq") == "al mafraq" == "al " + "mafraq";
    assert ToLower("al-mafraq") == "al-mafraq" == "al-" + "mafraq";
    if Contains(t, "al mafraq") {
      ContainsPartsOf(t, "al ", "mafraq");
    }
    if Contains(t, "al-mafraq") {
      ContainsPartsOf(t, "al-", "mafraq");
    }
    var v1 := CityVariants[1..];
    var v2 := CityVariants[2..];
    var v3 := CityVariants[3..];
    assert vs[0] == city && vs[1..] == CityVariants;
    assert CityVariants[0] == Mafraq && v1 == ["mafraq", "al mafraq", "al-mafraq"];
    assert v1[0] == "mafraq" && v1[1..] == v2 == ["al mafraq", "al-mafraq"];
    assert v2[0] == "al mafraq" && v2[1..] == v3 == ["al-mafraq"];
    assert v3[0] == "al-mafraq" && v3[1..] == [];
    assert AnyIncluded(t, v3) <==> Contains(t, "al-mafraq");
    assert AnyIncluded(t, v2) <==> Contains(t, "al mafraq") || AnyIncluded(t, v3);
    assert AnyIncluded(t, v1) <==> Contains(t, "mafraq") || AnyIncluded(t, v2);
    assert AnyIncluded(t, CityVariants) <==> Contains(t, Mafraq) || AnyIncluded(t, v1);
    assert AnyIncluded(t, vs) <==> Contains(t, ToLower(city)) || AnyIncluded(t, CityVariants);
  }

  // ----- parseArgs -----

  /** A command-line value: `--key=value`, or `true` for any other argument. */
  datatype ArgValue = Str(s: string) | Flag

  datatype Options = Options(city: string, pages: int, depts: int)

  /** What `.` refuses to match. */
  predicate LineBreak(c: char) {
    c == '\n' || c == '\r' || c == '\U{2028}' || c == '\U{2029}'
  }

  /** One argument as an entry: `^--([^=]+)=(.*)$` gives `[key, value]`;
      otherwise the argument with a leading `--` removed maps to `true`. */
  function ArgEntry(a: string): (e: (string, ArgValue)) {
    if |a| >= 2 && a[..2] == "--" then
      var rest := a[2..];
      var k := IndexOf(rest, '=');
      if 1 <= k < |rest| && forall j | k + 1 <= j < |rest| :: !LineBreak(rest[j]) then
        (rest[..k], Str(rest[k + 1..]))
      else (rest, Flag)
    else (a, Flag)
  }

  /** `Object.fromEntries`: the last entry for a key wins. */
  function Lookup(argv: seq<string>, key: string): (v: Option<ArgValue>)
    decreases |argv|
  {
    if argv == [] then None
    else
      var e := ArgEntry(argv[|argv| - 1]);
      if e.0 == key then Some(e.1) else Lookup(argv[..|argv| - 1], key)
  }

  predicate ArgTruthy(v: Option<ArgValue>) {
    v.Some? && (v.value.Flag? || v.value.s != "")
  }

  /** `String(v)`. */
  function ArgString(v: ArgValue): string {
    if v.Flag? then "true" else v.s
  }

  /** `(a || b || fallback)` as a string. */
  function FirstTruthy(a: Option<ArgValue>, b: Option<ArgValue>, fallback: string): string {
    if ArgTruthy(a) then ArgString(a.value)
    else if ArgTruthy(b) then ArgString(b.value)
    else fallback
  }

  /** `parseInt(s, 10)`, with NaN replaced by `dflt`. */
  function IntOr(s: string, dflt: int): int {
    match ParseIntJs(s)
    case None => dflt
    case Some(n) => n
  }

  /** The default counts are numbers `parseInt` reads back. */
  lemma DefaultCounts()
    ensures IntOr("10", 10) == 10 && IntOr("80", 80) == 80
  {
    ParseIntOfNat(10);
    assert NatToString(10) == "10" by {
      assert NatToString(1) == "1";
    }
    ParseIntOfNat(80);
    assert NatToString(80) == "80" by {
      assert NatToString(8) == "8";
    }
  }

  /** `parseArgs()` over `process.argv.slice(2)`: the first truthy of the
      English and the Arabic key, and 10 pages and 80 departments both when
      neither is given and when the given value is not a number. */
  function ParseArgs(argv: seq<string>): (o: Options)
    ensures Trimmed(o.city)
    ensures !ArgTruthy(Lookup(argv, "pages")) && !ArgTruthy(Lookup(argv, "صفحات")) ==> o.pages == 10
    ensures ArgTruthy(Lookup(argv, "pages")) ==> o.pages == IntOr(ArgString(Lookup(argv, "pages").value), 10)
    ensures !ArgTruthy(Lookup(argv, "pages")) && ArgTruthy(Lookup(argv, "صفحات")) ==>
      o.pages == IntOr(ArgString(Lookup(argv, "صفحات").value), 10)
    ensures !ArgTruthy(Lookup(argv, "depts")) && !ArgTruthy(Lookup(argv, "اقسام")) ==> o.depts == 80
    ensures ArgTruthy(Lookup(argv, "depts")) ==> o.depts == IntOr(ArgString(Lookup(argv, "depts").value), 80)
    ensures !ArgTruthy(Lookup(argv, "depts")) && ArgTruthy(Lookup(argv, "اقسام")) ==>
      o.depts == IntOr(ArgString(Lookup(argv, "اقسام").value), 80)
  {
    DefaultCounts();
    Options(
      Trim(FirstTruthy(Lookup(argv, "city"), Lookup(argv, "مدينة"), "")),
      IntOr(FirstTruthy(Lookup(argv, "pages"), Lookup(argv, "صفحات"), "10"), 10),
      IntOr(FirstTruthy(Lookup(argv, "depts"), Lookup(argv, "اقسام"), "80"), 80))
  }

  /** A value that is not a number gives the default count. */
  lemma NotANumberDefaults(argv: seq<string>)
    requires ArgTruthy(Lookup(argv, "pages")) && ParseIntJs(ArgString(Lookup(argv, "pages").value)).None?
    requires ArgTruthy(Lookup(argv, "depts")) && ParseIntJs(ArgString(Lookup(argv, "depts").value)).None?
    ensures ParseArgs(argv).pages == 10 && ParseArgs(argv).depts == 80
  {
  }

  lemma ParseArgsDefaults()
    ensures ParseArgs([]) == Options("", 10, 80)
  {
    assert FirstTruthy(Lookup([], "city"), Lookup([], "مدينة"), "") == "";
  }

  /** The argument `--key=value`. */
  function OptionArg(key: string, value: string): string {
    "--" + key + "=" + value
  }

  /** A key `ArgEntry` can split off: non-empty and without `=`. */
  predicate PlainKey(key: string) {
    key != "" && forall j | 0 <= j < |key| :: key[j] != '='
  }

  /** A value `.` matches in full: no line break. */
  predicate OneLine(value: string) {
    forall j | 0 <= j < |value| :: !LineBreak(value[j])
  }

  lemma ArgEntryOfOption(key: string, value: string)
    requires PlainKey(key) && OneLine(value)
    ensures ArgEntry(OptionArg(key, value)) == (key, Str(value))
  {
    var a := OptionArg(key, value);
    var rest := a[2..];
    assert rest == key + ("=" + value);
    IndexOfAppend(key, "=" + value, '=');
    var k := IndexOf(rest, '=');
    assert k == |key|;
    assert rest[..k] == key;
    assert rest[k + 1..] == value;
  }

  /** Three `--key=value` arguments: a key gets the value of its last
      occurrence, and a key that does not occur gets nothing. */
  lemma LookupOptionArgs(k1: string, v1: string, k2: string, v2: string, k3: string, v3: string, key: string)
    requires PlainKey(k1) && PlainKey(k2) && PlainKey(k3)
    requires OneLine(v1) && OneLine(v2) && OneLine(v3)
    ensures Lookup([OptionArg(k1, v1), OptionArg(k2, v2), OptionArg(k3, v3)], key)
      == if key == k3 then Some(Str(v3)) else if key == k2 then Some(Str(v2))
         else if key == k1 then Some(Str(v1)) else None
  {
    ArgEntryOfOption(k1, v1);
    ArgEntryOfOption(k2, v2);
    ArgEntryOfOption(k3, v3);
    var a1, a2, a3 := OptionArg(k1, v1), OptionArg(k2, v2), OptionArg(k3, v3);
    assert [a1, a2, a3][..2] == [a1, a2] && [a1, a2][..1] == [a1] && [a1][..0] == [];
    assert Lookup([a1], key) == if key == k1 then Some(Str(v1)) else None;
    assert Lookup([a1, a2], key) == if key == k2 then Some(Str(v2)) else Lookup([a1], key);
  }

  /** Writing the options out as `--city=`, `--pages=` and `--depts=`
      arguments and parsing them gives them back. */
  lemma ParseArgsRoundTrip(city: string, pages: nat, depts: nat)
    requires Trimmed(city) && city != "" && OneLine(city)
    ensures ParseArgs([OptionArg("city", city), OptionArg("pages", NatToString(pages)),
                       OptionArg("depts", NatToString(depts))])
      == Options(city, pages, depts)
  {
    var p, d := NatToString(pages), NatToString(depts);
    assert PlainKey("city") && PlainKey("pages") && PlainKey("depts");
    assert OneLine(p) && OneLine(d);
    assert "pages"[0] != "depts"[0];
    assert "مدينة"[0] != "pages"[0] && "مدينة"[0] != "depts"[0];
    assert "صفحات"[0] != "pages"[0] && "صفحات"[0] != "depts"[0];
    LookupOptionArgs("city", city, "pages", p, "depts", d, "city");
    LookupOptionArgs("city", city, "pages", p, "depts", d, "pages");
    LookupOptionArgs("city", city, "pages", p, "depts", d, "depts");
    ParseIntOfNat(pages);
    ParseIntOfNat(depts);
  }

  // ----- main: concatenate, filter, map -----

  /** The `id` written for a doctor: `d.id || i`. */
  datatype DoctorId = TextId(text: string) | IndexId(index: nat)

  /** One record of `doctors.json`; the fields main sets to `undefined`
      (clinic, languages, workingHours, rating, location) are not written. */
  datatype OutputDoctor = OutputDoctor(
    id: DoctorId,
    name: string,
    specialty: Option<string>,
    address: string,
    phone: Option<string>)

  function OutputRecord(d: Doctor, i: nat): OutputDoctor {
    OutputDoctor(if d.id != "" then TextId(d.id) else IndexId(i), d.name, d.specialty, d.address, d.phone)
  }

  /** `filtered.map((d, i) => ...)`. */
  function OutputRecords(ds: seq<Doctor>): (out: seq<OutputDoctor>)
    ensures |out| == |ds|
  {
    seq(|ds|, i requires 0 <= i < |ds| => OutputRecord(ds[i], i))
  }

  /** The keep rule of `main`'s filter. */
  predicate KeepForCity(d: Doctor, city: string) {
    IncludesCity(d.address, city) || IncludesCity(d.name, city)
  }

  /** Filter by city, then map, keeping the concatenation order. */
  function Select(combined: seq<Doctor>, city: string): seq<OutputDoctor> {
    OutputRecords(Filter(combined, d => KeepForCity(d, city)))
  }

  /** `main()`: the four crawls in order, then the records written to the file. */
  method Run(argv: seq<string>, web: string -> Fetched<ListingPage>,
             resolve: (string, string) -> Option<string>, altibbi: string -> Fetched<AltibbiPage>)
    returns (written: seq<OutputDoctor>)
    ensures var o := ParseArgs(argv);
      var general := Deduped(FollowFrom(web, ParsedDoctors, NextHref, resolve, BaseUrl,
                                        if o.pages < 0 then 0 else o.pages).0, FullKey);
      var depts := Deduped(RangeItems(web, ParsedDoctors, DeptUrl, 1, if o.depts < 0 then 0 else o.depts), FullKey);
      var list := Deduped(PagedFrom(altibbi, ParsedAltibbi, AltibbiListUrl, 1, 20).0, NamePhoneKey);
      var specs := Deduped(PagedEach(altibbi, ParsedAltibbi, SlugBase, AltibbiSlugs, 10).0, NamePhoneKey);
      written == Select(general + depts + list + specs, o.city)
  {
    var o := ParseArgs(argv);
    var general, _ := Crawl(web, resolve, o.pages);
    var depts, _ := CrawlDepartments(web, o.depts);
    var list, _ := CrawlAltibbiList(altibbi, 20);
    var specs, _ := CrawlAltibbiSpecialties(altibbi, 10);
    written := Select(general + depts + list + specs, o.city);
  }

  /** Every written record keeps a doctor that passed the city filter, in
      order, and takes its id from the doctor's own non-empty id. */
  lemma SelectSound(combined: seq<Doctor>, city: string)
    requires forall d | d in combined :: WellFormed(d)
    ensures var kept := Filter(combined, d => KeepForCity(d, city));
      |Select(combined, city)| == |kept|
      && forall i | 0 <= i < |kept| ::
        KeepForCity(kept[i], city) && kept[i] in combined
        && Select(combined, city)[i] == OutputDoctor(TextId(kept[i].id), kept[i].name,
             kept[i].specialty, kept[i].address, kept[i].phone)
  {
  }

  /** Without a city nothing is dropped and nothing is merged: sources are
      not de-duplicated against each other. */
  lemma NoCityKeepsEverything(combined: seq<Doctor>)
    ensures |Select(combined, "")| == |combined|
  {
    FilterAll(combined, d => KeepForCity(d, ""));
  }

  /** The crawl results that feed `main` are all well-formed. */
  lemma CrawlResultsWellFormed(web: string -> Fetched<ListingPage>,
      resolve: (string, string) -> Option<string>, altibbi: string -> Fetched<AltibbiPage>, n: nat, m: nat)
    ensures forall d | d in Deduped(FollowFrom(web, ParsedDoctors, NextHref, resolve, BaseUrl, n).0, FullKey) ::
      WellFormed(d)
    ensures forall d | d in Deduped(RangeItems(web, ParsedDoctors, DeptUrl, 1, m), FullKey) :: WellFormed(d)
    ensures forall d | d in Deduped(PagedFrom(altibbi, ParsedAltibbi, AltibbiListUrl, 1, 20).0, NamePhoneKey) ::
      WellFormed(d)
    ensures forall d | d in Deduped(PagedEach(altibbi, ParsedAltibbi, SlugBase, AltibbiSlugs, 10).0, NamePhoneKey) ::
      WellFormed(d)
  {
    forall u, d | web(u).Ok? && d in ParsedDoctors(web(u).page)
      ensures WellFormed(d)
    {
      ParsedDoctorsWellFormed(web(u).page);
    }
    forall u, d | altibbi(u).Ok? && d in ParsedAltibbi(altibbi(u).page)
      ensures WellFormed(d)
    {
      ParsedAltibbiSound(altibbi(u).page);
    }
    FollowItemsAll(web, ParsedDoctors, NextHref, resolve, BaseUrl, n, WellFormed);
    RangeItemsAll(web, ParsedDoctors, DeptUrl, 1, m, WellFormed);
    PagedItemsAll(altibbi, ParsedAltibbi, AltibbiListUrl, 1, 20, WellFormed);
    EachItemsAll(altibbi, ParsedAltibbi, SlugBase, AltibbiSlugs, 10, WellFormed);
    DedupedMembers(FollowFrom(web, ParsedDoctors, NextHref, resolve, BaseUrl, n).0, FullKey);
    DedupedMembers(RangeItems(web, ParsedDoctors, DeptUrl, 1, m), FullKey);
    DedupedMembers(PagedFrom(altibbi, ParsedAltibbi, AltibbiListUrl, 1, 20).0, NamePhoneKey);
    DedupedMembers(PagedEach(altibbi, ParsedAltibbi, SlugBase, AltibbiSlugs, 10).0, NamePhoneKey);
  }
}
