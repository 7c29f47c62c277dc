/** The WHO topics scraper: the fact-sheet list parser and its page loop,
    the two topic-index parsers, the three-level source fall-back of `main`
    and the records written to `public/who_diseases.json`.

    A page is given as the fragments its selectors pick out; the network
    is a function from URL to `Fetched` outcome, and `new URL(link, base)`
    is a function that may fail (`None`, a throw). */
module WhoTopics {
  import opened Text
  import opened Js
  import opened Seqs
  import opened Web
  import opened Crawls

  const FactsUrl: string := "https://www.who.int/ar/news-room/fact-sheets"
  const EmroTopicsUrl: string := "https://www.emro.who.int/ar/health-topics/index.html"
  const WhoTopicsUrl: string := "https://www.who.int/ar/health-topics"
  const Source: string := "WHO"

  // ----- data -----

  /** One element matched by the fact-list selectors: the text of its first
      heading, the `href` of its first anchor (`""` when missing) and the
      text of its first summary element. */
  datatype FactBlock = FactBlock(heading: string, href: string, summary: string)

  datatype FactPage = FactPage(blocks: seq<FactBlock>)

  /** One anchor matched by a topic-index selector: its text and `href`. */
  datatype Anchor = Anchor(text: string, href: string)

  datatype TopicPage = TopicPage(anchors: seq<Anchor>)

  /** A scraped topic. */
  datatype Topic = Topic(name: string, desc: string, link: string)

  /** The resolver `new URL(link, base).toString()`; `None` is a throw. */
  type Resolver = (string, string) -> Option<string>

  // ----- links -----

  /** `/^https?:\/\//.test(link)` */
  predicate IsAbsolute(link: string) {
    StartsWith(link, "http://") || StartsWith(link, "https://")
  }

  /** A non-empty relative link is resolved against `base`; an absolute or
      empty one is kept as it is. */
  function ResolveLink(resolve: Resolver, link: string, base: string): (r: Option<string>)
    ensures link == "" || IsAbsolute(link) ==> r == Some(link)
    ensures link != "" && !IsAbsolute(link) ==> r == resolve(link, base)
  {
    if link != "" && !IsAbsolute(link) then resolve(link, base) else Some(link)
  }

  /** `it.link || it.name` */
  function LinkOrName(t: Topic): string {
    if t.link != "" then t.link else t.name
  }

  function LinkOf(t: Topic): string {
    t.link
  }

  // ----- parseFactList -----

  /** One block of the fact list: a throw when its link does not resolve,
      otherwise an item when it has a title and a link. */
  function FactStep(resolve: Resolver, b: FactBlock): (s: Step<Topic>)
    ensures s.Push? ==>
      s.item.name != "" && s.item.link != ""
      && s.item.name == NormalizeSpace(b.heading) && s.item.desc == NormalizeSpace(b.summary)
    ensures s.Fail? <==> ResolveLink(resolve, b.href, FactsUrl).None?
  {
    var title := NormalizeSpace(b.heading);
    match ResolveLink(resolve, b.href, FactsUrl)
    case None => Fail
    case Some(link) =>
      if title != "" && link != "" then Push(Topic(title, NormalizeSpace(b.summary), link)) else Skip
  }

  /** `parseFactList(html)`: the kept items, unique by link; `None` when it throws. */
  function ParsedFacts(resolve: Resolver, p: FactPage): Option<seq<Topic>> {
    match Gather(p.blocks, b => FactStep(resolve, b))
    case None => None
    case Some(items) => Some(Deduped(items, LinkOf))
  }

  method ParseFactList(resolve: Resolver, p: FactPage) returns (r: Option<seq<Topic>>)
    ensures r == ParsedFacts(resolve, p)
  {
    var items := GatherEach(p.blocks, b => FactStep(resolve, b));
    if items.None? {
      return None;
    }
    var unique := Dedup(items.value, LinkOf);
    r := Some(unique);
  }

  /** The fact list throws exactly when some block's link fails to resolve;
      otherwise every item has a non-empty single-spaced name and a
      non-empty link, no two share a link, and each comes from a block. */
  lemma ParsedFactsSound(resolve: Resolver, p: FactPage)
    ensures ParsedFacts(resolve, p).None? <==>
      exists i | 0 <= i < |p.blocks| :: ResolveLink(resolve, p.blocks[i].href, FactsUrl).None?
    ensures ParsedFacts(resolve, p).Some? ==>
      var ts := ParsedFacts(resolve, p).value;
      KeysDistinct(ts, LinkOf)
      && forall t | t in ts :: t.name != "" && t.link != "" && Trimmed(t.name) && SingleSpaced(t.name)
           && exists i | 0 <= i < |p.blocks| :: FactStep(resolve, p.blocks[i]) == Push(t)
  {
    var f := b => FactStep(resolve, b);
    GatherFails(p.blocks, f);
    if Gather(p.blocks, f).Some? {
      var items := Gather(p.blocks, f).value;
      GatherMembers(p.blocks, f);
      DedupedDistinct(items, LinkOf);
      DedupedMembers(items, LinkOf);
    }
  }

  /** The first block with a given link is the one kept. */
  lemma ParsedFactsKeepsFirst(resolve: Resolver, p: FactPage, i: nat)
    requires ParsedFacts(resolve, p).Some?
    requires var items := Gather(p.blocks, b => FactStep(resolve, b)).value;
      i < |items| && items[i].link !in KeysOf(items[..i], LinkOf)
    ensures Gather(p.blocks, b => FactStep(resolve, b)).value[i] in ParsedFacts(resolve, p).value
  {
    DedupedKeepsFirst(Gather(p.blocks, b => FactStep(resolve, b)).value, LinkOf, i);
  }

  // ----- parseEmroTopics and parseWhoTopics -----

  /** `/index\.html?$/.test(link)` */
  predicate IsIndexPage(link: string) {
    EndsWith(link, "index.htm") || EndsWith(link, "index.html")
  }

  /** One anchor of the EMRO index: a throw when its link does not resolve,
      otherwise an item when its name is longer than two characters and the
      link is not an index page. */
  function EmroStep(resolve: Resolver, a: Anchor): (s: Step<Topic>)
    ensures s.Push? ==>
      |s.item.name| > 2 && !IsIndexPage(s.item.link) && s.item.desc == ""
      && s.item.name == NormalizeSpace(a.text)
    ensures s.Fail? <==> ResolveLink(resolve, a.href, EmroTopicsUrl).None?
  {
    var name := NormalizeSpace(a.text);
    match ResolveLink(resolve, a.href, EmroTopicsUrl)
    case None => Fail
    case Some(link) =>
      if name != "" && |name| > 2 && !IsIndexPage(link) then Push(Topic(name, "", link)) else Skip
  }

  /** One anchor of the WHO index: kept when its name is longer than two characters. */
  function WhoStep(resolve: Resolver, a: Anchor): (s: Step<Topic>)
    ensures s.Push? ==> |s.item.name| > 2 && s.item.desc == "" && s.item.name == NormalizeSpace(a.text)
    ensures s.Fail? <==> ResolveLink(resolve, a.href, WhoTopicsUrl).None?
  {
    var name := NormalizeSpace(a.text);
    match ResolveLink(resolve, a.href, WhoTopicsUrl)
    case None => Fail
    case Some(link) =>
      if name != "" && |name| > 2 then Push(Topic(name, "", link)) else Skip
  }

  /** `parseEmroTopics(html)`: unique by link, or by name when the link is empty. */
  function ParsedEmro(resolve: Resolver, p: TopicPage): Option<seq<Topic>> {
    match Gather(p.anchors, a => EmroStep(resolve, a))
    case None => None
    case Some(items) => Some(Deduped(items, LinkOrName))
  }

  /** `parseWhoTopics(html)`: unique by link, or by name when the link is empty. */
  function ParsedWho(resolve: Resolver, p: TopicPage): Option<seq<Topic>> {
    match Gather(p.anchors, a => WhoStep(resolve, a))
    case None => None
    case Some(items) => Some(Deduped(items, LinkOrName))
  }

  method ParseEmroTopics(resolve: Resolver, p: TopicPage) returns (r: Option<seq<Topic>>)
    ensures r == ParsedEmro(resolve, p)
  {
    var items := GatherEach(p.anchors, a => EmroStep(resolve, a));
    if items.None? {
      return None;
    }
    var unique := Dedup(items.value, LinkOrName);
    r := Some(unique);
  }

  method ParseWhoTopics(resolve: Resolver, p: TopicPage) returns (r: Option<seq<Topic>>)
    ensures r == ParsedWho(resolve, p)
  {
    var items := GatherEach(p.anchors, a => WhoStep(resolve, a));
    if items.None? {
      return None;
    }
    var unique := Dedup(items.value, LinkOrName);
    r := Some(unique);
  }

  /** Every EMRO topic has a name of more than two characters, a link that
      is not an index page and an empty description, and no two share a
      link-or-name key. */
  lemma ParsedEmroSound(resolve: Resolver, p: TopicPage)
    requires ParsedEmro(resolve, p).Some?
    ensures var ts := ParsedEmro(resolve, p).value;
      KeysDistinct(ts, LinkOrName)
      && forall t | t in ts :: |t.name| > 2 && !IsIndexPage(t.link) && t.desc == ""
           && exists i | 0 <= i < |p.anchors| :: EmroStep(resolve, p.anchors[i]) == Push(t)
  {
    var f := a => EmroStep(resolve, a);
    var items := Gather(p.anchors, f).value;
    GatherMembers(p.anchors, f);
    DedupedDistinct(items, LinkOrName);
    DedupedMembers(items, LinkOrName);
  }

  /** Every WHO topic has a name of more than two characters and an empty
      description, and no two share a link-or-name key. */
  lemma ParsedWhoSound(resolve: Resolver, p: TopicPage)
    requires ParsedWho(resolve, p).Some?
    ensures var ts := ParsedWho(resolve, p).value;
      KeysDistinct(ts, LinkOrName)
      && forall t | t in ts :: |t.name| > 2 && t.desc == ""
           && exists i | 0 <= i < |p.anchors| :: WhoStep(resolve, p.anchors[i]) == Push(t)
  {
    var f := a => WhoStep(resolve, a);
    var items := Gather(p.anchors, f).value;
    GatherMembers(p.anchors, f);
    DedupedDistinct(items, LinkOrName);
    DedupedMembers(items, LinkOrName);
  }

  /** An index-page link keeps an anchor out of the EMRO list whatever its name. */
  lemma EmroDropsIndexPages(resolve: Resolver, a: Anchor)
    requires ResolveLink(resolve, a.href, EmroTopicsUrl).Some?
    requires IsIndexPage(ResolveLink(resolve, a.href, EmroTopicsUrl).value)
    ensures EmroStep(resolve, a) == Skip
  {
  }

  // ----- crawlFacts -----

  /** What the `try` block of one fact page gives: the parsed list, or a
      failure when the request fails or the parser throws. */
  function FactsOutcome(web: string -> Fetched<FactPage>, resolve: Resolver, url: string)
    : (r: Fetched<seq<Topic>>)
    ensures r.Ok? <==> web(url).Ok? && ParsedFacts(resolve, web(url).page).Some?
  {
    match web(url)
    case Err => Err
    case Ok(p) =>
      match ParsedFacts(resolve, p)
      case None => Err
      case Some(ts) => Ok(ts)
  }

  function FactsPageUrl(i: nat): string {
    PageUrl(FactsUrl, i)
  }

  function Identity(ts: seq<Topic>): seq<Topic> {
    ts
  }

  /** The number of passes of `for (let i = 1; i <= maxPages; i++)` when
      `maxPages` is a JavaScript number: none for NaN. */
  function LoopBound(maxPages: Num): (n: int)
    ensures maxPages.Val? ==> n as real <= maxPages.v < n as real + 1.0
    ensures maxPages.NaN? ==> n == 0
  {
    if maxPages.NaN? then 0 else maxPages.v.Floor
  }

  /** Pass `i` runs exactly when `i <= maxPages`. */
  lemma LoopBoundCounts(maxPages: Num, i: int)
    ensures maxPages.Val? ==> (i as real <= maxPages.v <==> i <= LoopBound(maxPages))
    ensures maxPages.NaN? ==> LoopBound(maxPages) == 0
  {
  }

  /** `crawlFacts(maxPages)`: pages `1..maxPages` of the fact list, a
      failing page skipped, then unique by link. */
  method CrawlFacts(web: string -> Fetched<FactPage>, resolve: Resolver, maxPages: Num)
    returns (facts: seq<Topic>, fetched: seq<string>)
    ensures var n := if LoopBound(maxPages) < 0 then 0 else LoopBound(maxPages);
      var outcome := u => FactsOutcome(web, resolve, u);
      facts == Deduped(RangeItems(outcome, Identity, FactsPageUrl, 1, n), LinkOf)
      && fetched == RangeUrls(FactsPageUrl, n)
  {
    var all;
    all, fetched := CrawlRange(u => FactsOutcome(web, resolve, u), Identity, FactsPageUrl, LoopBound(maxPages));
    facts := Dedup(all, LinkOf);
  }

  /** Page 1 is the bare list URL and page `i > 1` adds `?page=i`; every page
      `1..n` is requested whatever happened to the others. */
  lemma FactsPagesRequested(n: nat, k: nat)
    requires k < n
    ensures RangeUrls(FactsPageUrl, n)[k] == PageUrl(FactsUrl, k + 1)
  {
    RangeUrlsAt(FactsPageUrl, n, k);
  }

  // ----- crawlEmroTopics, crawlWhoTopics -----

  /** `crawlEmroTopics()`: the parsed index, or nothing on any failure. */
  function EmroTopicsOf(web: string -> Fetched<TopicPage>, resolve: Resolver): (r: seq<Topic>)
    ensures web(EmroTopicsUrl).Err? ==> r == []
    ensures web(EmroTopicsUrl).Ok? && ParsedEmro(resolve, web(EmroTopicsUrl).page).None? ==> r == []
    ensures web(EmroTopicsUrl).Ok? && ParsedEmro(resolve, web(EmroTopicsUrl).page).Some? ==>
      r == ParsedEmro(resolve, web(EmroTopicsUrl).page).value
  {
    match web(EmroTopicsUrl)
    case Err => []
    case Ok(p) =>
      match ParsedEmro(resolve, p)
      case None => []
      case Some(ts) => ts
  }

  /** `crawlWhoTopics()`: the parsed index, or nothing on any failure. */
  function WhoTopicsOf(web: string -> Fetched<TopicPage>, resolve: Resolver): (r: seq<Topic>)
    ensures web(WhoTopicsUrl).Err? ==> r == []
    ensures web(WhoTopicsUrl).Ok? && ParsedWho(resolve, web(WhoTopicsUrl).page).None? ==> r == []
    ensures web(WhoTopicsUrl).Ok? && ParsedWho(resolve, web(WhoTopicsUrl).page).Some? ==>
      r == ParsedWho(resolve, web(WhoTopicsUrl).page).value
  {
    match web(WhoTopicsUrl)
    case Err => []
    case Ok(p) =>
      match ParsedWho(resolve, p)
      case None => []
      case Some(ts) => ts
  }

  method CrawlEmroTopics(web: string -> Fetched<TopicPage>, resolve: Resolver) returns (items: seq<Topic>)
    ensures items == EmroTopicsOf(web, resolve)
  {
    var res := web(EmroTopicsUrl);
    if res.Err? {
      return [];
    }
    var parsed := ParseEmroTopics(resolve, res.page);
    if parsed.None? {
      return [];
    }
    items := parsed.value;
  }

  method CrawlWhoTopics(web: string -> Fetched<TopicPage>, resolve: Resolver) returns (items: seq<Topic>)
    ensures items == WhoTopicsOf(web, resolve)
  {
    var res := web(WhoTopicsUrl);
    if res.Err? {
      return [];
    }
    var parsed := ParseWhoTopics(resolve, res.page);
    if parsed.None? {
      return [];
    }
    items := parsed.value;
  }

  // ----- main -----

  /** `s.split('=')` destructured into `[k, v]`, `--` dropped from `k`:
      `v` is the text between the first and the second `=`, `None` when
      there is no `=`. */
  function WhoArgEntry(s: string): (e: (string, Option<string>)) {
    var k := IndexOf(s, '=');
    var key := if StartsWith(s[..k], "--") then s[2..k] else s[..k];
    if k == |s| then (key, None)
    else
      var rest := s[k + 1..];
      (key, Some(rest[..IndexOf(rest, '=')]))
  }

  /** The value of the last entry for `key`; `None` for a missing key and
      for an entry without a value. */
  function WhoLookup(argv: seq<string>, key: string): Option<string>
    decreases |argv|
  {
    if argv == [] then None
    else
      var e := WhoArgEntry(argv[|argv| - 1]);
      if e.0 == key then e.1 else WhoLookup(argv[..|argv| - 1], key)
  }

  /** `Number(args.pages || 5)` */
  function PagesArg(argv: seq<string>): (n: Num)
    ensures WhoLookup(argv, "pages").None? ==> n == Val(5.0)
  {
    match WhoLookup(argv, "pages")
    case None => Val(5.0)
    case Some(v) => if v == "" then Val(5.0) else StringToNumber(v)
  }

  /** One record of `who_diseases.json`. */
  datatype WhoRecord = WhoRecord(id: nat, name: string, desc: string, link: string, source: string)

  /** `list.map((f, i) => ({ id: i, name, desc: f.desc || '', link, source: 'WHO' }))`;
      the descriptions here are strings already, so `|| ''` keeps them. */
  function Records(ts: seq<Topic>): (out: seq<WhoRecord>)
    ensures |out| == |ts|
  {
    seq(|ts|, i requires 0 <= i < |ts| => WhoRecord(i, ts[i].name, ts[i].desc, ts[i].link, Source))
  }

  /** Records are numbered `0..n-1` in order and carry their topic and the source `WHO`. */
  lemma RecordsAre(ts: seq<Topic>)
    ensures forall i | 0 <= i < |ts| ::
      Records(ts)[i].id == i && Records(ts)[i].source == Source
      && Records(ts)[i].name == ts[i].name && Records(ts)[i].desc == ts[i].desc
      && Records(ts)[i].link == ts[i].link
    ensures ts == [] ==> Records(ts) == []
  {
  }

  /** The list `main` ends with: the fact sheets, else the WHO index, else
      the EMRO index. */
  function Chosen(facts: seq<Topic>, who: seq<Topic>, emro: seq<Topic>): (r: seq<Topic>)
    ensures facts != [] ==> r == facts
    ensures facts == [] && who != [] ==> r == who
    ensures facts == [] && who == [] ==> r == emro
  {
    if |facts| > 0 then facts else if |who| > 0 then who else emro
  }

  /** `main()`: both writes, in order, and the index URLs requested after
      the fact pages. The first write maps the fact sheets, the second (the
      one the file keeps) maps the chosen list. */
  method Run(argv: seq<string>, facts: string -> Fetched<FactPage>, topics: string -> Fetched<TopicPage>,
             resolve: Resolver)
    returns (first: seq<WhoRecord>, written: seq<WhoRecord>, indexRequests: seq<string>)
    ensures var n := LoopBound(PagesArg(argv));
      var f := Deduped(RangeItems(u => FactsOutcome(facts, resolve, u), Identity, FactsPageUrl, 1,
                                  if n < 0 then 0 else n), LinkOf);
      first == Records(f)
      && written == Records(Chosen(f, WhoTopicsOf(topics, resolve), EmroTopicsOf(topics, resolve)))
      && indexRequests == (
           if f != [] then []
           else [WhoTopicsUrl] + (if WhoTopicsOf(topics, resolve) != [] then [] else [EmroTopicsUrl]))
  {
    var pages := PagesArg(argv);
    var factList, _ := CrawlFacts(facts, resolve, pages);
    var items := factList;
    indexRequests := [];
    if |items| == 0 {
      var whoTopics := CrawlWhoTopics(topics, resolve);
      indexRequests := [WhoTopicsUrl];
      if |whoTopics| > 0 {
        items := whoTopics;
      } else {
        var emro := CrawlEmroTopics(topics, resolve);
        indexRequests := indexRequests + [EmroTopicsUrl];
        items := emro;
      }
    }
    first := Records(factList);
    written := Records(items);
  }

  /** The second write keeps the fact sheets whenever there are any, so the
      two writes differ only when the fall-back found topics. */
  lemma WritesAgreeWithFacts(f: seq<Topic>, who: seq<Topic>, emro: seq<Topic>)
    ensures f != [] ==> Records(Chosen(f, who, emro)) == Records(f)
    ensures Records(Chosen(f, who, emro)) != Records(f) ==> f == [] && (who != [] || emro != [])
  {
  }

  /** Without a `--pages` argument the fact list is read from pages 1 to 5. */
  lemma DefaultPages()
    ensures LoopBound(PagesArg([])) == 5
  {
  }
}
