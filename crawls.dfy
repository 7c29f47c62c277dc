/** The three crawl loops of the Jordan doctors scraper, over any page type
    `P` and any item type `D`. A loop requests pages through `web`, turns
    each loaded page into items with the page parser `items`, and appends
    them in request order; `fetched` lists the URLs requested, in order.

    The loops differ in how they choose the next page and when they stop:
    following a "next" link (`crawl`), every index of a range, skipping
    failures (`crawlDepartments`), or numbered pages until an error or an
    empty later page (`crawlAltibbiList`, and once per slug in
    `crawlAltibbiSpecialties`). */
module Crawls {
  import opened Js
  import opened Web

  // ----- follow the "next" link -----

  /** The items and the requested URLs of a crawl that starts at `url` with
      at most `n` requests left. A failed request, a page without a "next"
      link, or a link that does not resolve ends it. */
  function FollowFrom<P, D>(web: string -> Fetched<P>, items: P -> seq<D>, next: P -> string,
                            resolve: (string, string) -> Option<string>, url: string, n: nat)
    : (r: (seq<D>, seq<string>))
    ensures |r.1| <= n
    ensures n > 0 ==> |r.1| >= 1 && r.1[0] == url
    decreases n
  {
    if n == 0 then ([], [])
    else
      match web(url)
      case Err => ([], [url])
      case Ok(p) =>
        if next(p) == "" then (items(p), [url])
        else
          match resolve(next(p), url)
          case None => (items(p), [url])
          case Some(u) =>
            var rest := FollowFrom(web, items, next, resolve, u, n - 1);
            (items(p) + rest.0, [url] + rest.1)
  }

  /** A request that ends the crawl completes the items and URLs so far. */
  lemma FollowEnds<P, D>(web: string -> Fetched<P>, items: P -> seq<D>, next: P -> string,
                         resolve: (string, string) -> Option<string>, url: string, n: nat,
                         all: seq<D>, fetched: seq<string>, whole: (seq<D>, seq<string>))
    requires n > 0
    requires all + FollowFrom(web, items, next, resolve, url, n).0 == whole.0
    requires fetched + FollowFrom(web, items, next, resolve, url, n).1 == whole.1
    ensures web(url).Err? ==> all == whole.0 && fetched + [url] == whole.1
    ensures web(url).Ok? && (next(web(url).page) == "" || resolve(next(web(url).page), url).None?) ==>
      all + items(web(url).page) == whole.0 && fetched + [url] == whole.1
  {
    if web(url).Err? {
      assert all + [] == all;
    }
  }

  /** A request whose "next" link resolves to `u` moves the crawl on to `u`. */
  lemma FollowMoves<P, D>(web: string -> Fetched<P>, items: P -> seq<D>, next: P -> string,
                          resolve: (string, string) -> Option<string>, url: string, n: nat,
                          all: seq<D>, fetched: seq<string>, whole: (seq<D>, seq<string>))
    requires n > 0 && web(url).Ok? && next(web(url).page) != ""
    requires resolve(next(web(url).page), url).Some?
    requires all + FollowFrom(web, items, next, resolve, url, n).0 == whole.0
    requires fetched + FollowFrom(web, items, next, resolve, url, n).1 == whole.1
    ensures var u := resolve(next(web(url).page), url).value;
      (all + items(web(url).page)) + FollowFrom(web, items, next, resolve, u, n - 1).0 == whole.0
      && (fetched + [url]) + FollowFrom(web, items, next, resolve, u, n - 1).1 == whole.1
  {
    var u := resolve(next(web(url).page), url).value;
    var rest := FollowFrom(web, items, next, resolve, u, n - 1);
    assert all + (items(web(url).page) + rest.0) == (all + items(web(url).page)) + rest.0;
    assert fetched + ([url] + rest.1) == (fetched + [url]) + rest.1;
  }

  /** The loop `for (let i = 0; i < maxPages; i++)` that follows the links. */
  method FollowLinks<P, D>(web: string -> Fetched<P>, items: P -> seq<D>, next: P -> string,
                           resolve: (string, string) -> Option<string>, start: string, maxPages: int)
    returns (all: seq<D>, fetched: seq<string>)
    ensures (all, fetched) == FollowFrom(web, items, next, resolve, start, if maxPages < 0 then 0 else maxPages)
  {
    ghost var left: nat := if maxPages < 0 then 0 else maxPages;
    ghost var whole := FollowFrom(web, items, next, resolve, start, left);
    var url := start;
    all := [];
    fetched := [];
    var i := 0;
    while i < maxPages
      invariant i + left == if maxPages < 0 then 0 else maxPages
      invariant all + FollowFrom(web, items, next, resolve, url, left).0 == whole.0
      invariant fetched + FollowFrom(web, items, next, resolve, url, left).1 == whole.1
      decreases left
    {
      FollowEnds(web, items, next, resolve, url, left, all, fetched, whole);
      ghost var sent := fetched;
      fetched := fetched + [url];
      var res := web(url);
      if res.Err? {
        break;
      }
      var found := items(res.page);
      ghost var before := all;
      all := all + found;
      if next(res.page) == "" {
        break;
      }
      var u := resolve(next(res.page), url);
      if u.None? {
        break;
      }
      FollowMoves(web, items, next, resolve, url, left, before, sent, whole);
      left := left - 1;
      url := u.value;
      i := i + 1;
    }
    assert all + [] == all && fetched + [] == fetched;
  }

  /** Each requested page after the first was reached from the one before
      it: that page loaded, had a "next" link, and the link resolved to it. */
  lemma {:induction false} FollowsNextLinks<P, D>(web: string -> Fetched<P>, items: P -> seq<D>,
      next: P -> string, resolve: (string, string) -> Option<string>, url: string, n: nat, j: nat)
    requires j + 1 < |FollowFrom(web, items, next, resolve, url, n).1|
    ensures var us := FollowFrom(web, items, next, resolve, url, n).1;
      web(us[j]).Ok? && next(web(us[j]).page) != ""
      && resolve(next(web(us[j]).page), us[j]) == Some(us[j + 1])
    decreases n
  {
    var p := web(url).page;
    var u := resolve(next(p), url).value;
    if j > 0 {
      FollowsNextLinks(web, items, next, resolve, u, n - 1, j - 1);
    }
  }

  /** No page is requested after one that failed. */
  lemma FollowStopsAtFailure<P, D>(web: string -> Fetched<P>, items: P -> seq<D>, next: P -> string,
      resolve: (string, string) -> Option<string>, url: string, n: nat, j: nat)
    requires j < |FollowFrom(web, items, next, resolve, url, n).1|
    requires web(FollowFrom(web, items, next, resolve, url, n).1[j]).Err?
    ensures j == |FollowFrom(web, items, next, resolve, url, n).1| - 1
  {
    if j + 1 < |FollowFrom(web, items, next, resolve, url, n).1| {
      FollowsNextLinks(web, items, next, resolve, url, n, j);
    }
  }

  /** Every item comes from a page that was requested and loaded. */
  lemma {:induction false} FollowItemsFromPages<P, D>(web: string -> Fetched<P>, items: P -> seq<D>,
      next: P -> string, resolve: (string, string) -> Option<string>, url: string, n: nat, x: D)
    requires x in FollowFrom(web, items, next, resolve, url, n).0
    ensures exists u | u in FollowFrom(web, items, next, resolve, url, n).1 ::
      web(u).Ok? && x in items(web(u).page)
    decreases n
  {
    var p := web(url).page;
    var r := FollowFrom(web, items, next, resolve, url, n);
    if x in items(p) {
      assert url == r.1[0];
    } else {
      var u := resolve(next(p), url).value;
      var rest := FollowFrom(web, items, next, resolve, u, n - 1);
      assert x in rest.0;
      FollowItemsFromPages(web, items, next, resolve, u, n - 1, x);
      var v :| v in rest.1 && web(v).Ok? && x in items(web(v).page);
      assert v in r.1;
    }
  }

  /** A property every page's items have holds of every crawled item. */
  lemma {:induction false} FollowItemsAll<P, D>(web: string -> Fetched<P>, items: P -> seq<D>,
      next: P -> string, resolve: (string, string) -> Option<string>, url: string, n: nat, ok: D -> bool)
    requires forall u, x | web(u).Ok? && x in items(web(u).page) :: ok(x)
    ensures forall x | x in FollowFrom(web, items, next, resolve, url, n).0 :: ok(x)
    decreases n
  {
    if n > 0 && web(url).Ok? {
      var p := web(url).page;
      if next(p) != "" && resolve(next(p), url).Some? {
        FollowItemsAll(web, items, next, resolve, resolve(next(p), url).value, n - 1, ok);
      }
    }
  }

  // ----- every index of a range -----

  /** What index `i` contributes: the items of its page, nothing when the request fails. */
  function IndexItems<P, D>(web: string -> Fetched<P>, items: P -> seq<D>, url: nat -> string, i: nat)
    : (r: seq<D>)
    ensures web(url(i)).Err? ==> r == []
    ensures web(url(i)).Ok? ==> r == items(web(url(i)).page)
  {
    match web(url(i))
    case Err => []
    case Ok(p) => items(p)
  }

  /** The items of indices `lo..hi`, in index order. */
  function RangeItems<P, D>(web: string -> Fetched<P>, items: P -> seq<D>, url: nat -> string,
                            lo: nat, hi: int): seq<D>
    decreases hi - lo
  {
    if hi < lo then [] else RangeItems(web, items, url, lo, hi - 1) + IndexItems(web, items, url, hi)
  }

  /** The URLs of indices `1..n`, in order. */
  function RangeUrls(url: nat -> string, n: nat): (us: seq<string>)
    ensures |us| == n
  {
    if n == 0 then [] else RangeUrls(url, n - 1) + [url(n)]
  }

  /** Index `k + 1` is the `k`-th request. */
  lemma {:induction false} RangeUrlsAt(url: nat -> string, n: nat, k: nat)
    requires k < n
    ensures RangeUrls(url, n)[k] == url(k + 1)
  {
    if k < n - 1 {
      RangeUrlsAt(url, n - 1, k);
    }
  }

  /** The loop `for (let i = 1; i <= max; i++)` whose failures are skipped. */
  method CrawlRange<P, D>(web: string -> Fetched<P>, items: P -> seq<D>, url: nat -> string, max: int)
    returns (all: seq<D>, fetched: seq<string>)
    ensures var n := if max < 0 then 0 else max;
      all == RangeItems(web, items, url, 1, n) && fetched == RangeUrls(url, n)
  {
    all := [];
    fetched := [];
    var i := 1;
    while i <= max
      invariant 1 <= i <= if max < 0 then 1 else max + 1
      invariant all == RangeItems(web, items, url, 1, i - 1)
      invariant fetched == RangeUrls(url, i - 1)
      decreases max - i
    {
      var u := url(i);
      fetched := fetched + [u];
      var res := web(u);
      if res.Ok? {
        var found := items(res.page);
        all := all + found;
      }
      i := i + 1;
    }
  }

  /** The range depends only on the pages of its own indices. */
  lemma {:induction false} RangeItemsAgree<P, D>(web: string -> Fetched<P>, web2: string -> Fetched<P>,
      items: P -> seq<D>, url: nat -> string, lo: nat, hi: int)
    requires forall i | lo <= i <= hi :: web2(url(i)) == web(url(i))
    ensures RangeItems(web2, items, url, lo, hi) == RangeItems(web, items, url, lo, hi)
    decreases hi - lo
  {
    if hi >= lo {
      RangeItemsAgree(web, web2, items, url, lo, hi - 1);
    }
  }

  /** A range is the concatenation of its two halves. */
  lemma {:induction false} RangeItemsSplit<P, D>(web: string -> Fetched<P>, items: P -> seq<D>,
      url: nat -> string, lo: nat, m: nat, hi: int)
    requires lo <= m <= hi + 1
    ensures RangeItems(web, items, url, lo, hi)
      == RangeItems(web, items, url, lo, m - 1) + RangeItems(web, items, url, m, hi)
    decreases hi - lo
  {
    if hi >= m {
      RangeItemsSplit(web, items, url, lo, m, hi - 1);
      var x := RangeItems(web, items, url, lo, m - 1);
      var y := RangeItems(web, items, url, m, hi - 1);
      var z := IndexItems(web, items, url, hi);
      assert (x + y) + z == x + (y + z);
    } else {
      assert RangeItems(web, items, url, m, hi) == [];
    }
  }

  /** A failing index removes its own items and nothing else. */
  lemma RangeFailureIsolated<P, D>(web: string -> Fetched<P>, web2: string -> Fetched<P>,
      items: P -> seq<D>, url: nat -> string, n: nat, j: nat)
    requires 1 <= j <= n
    requires web2(url(j)).Err?
    requires forall i | 1 <= i <= n && i != j :: web2(url(i)) == web(url(i))
    ensures RangeItems(web2, items, url, 1, n)
      == RangeItems(web, items, url, 1, j - 1) + RangeItems(web, items, url, j + 1, n)
  {
    var before := RangeItems(web2, items, url, 1, j - 1);
    var at := RangeItems(web2, items, url, j, j);
    var after := RangeItems(web2, items, url, j + 1, n);
    RangeItemsSplit(web2, items, url, 1, j, n);
    RangeItemsSplit(web2, items, url, j, j + 1, n);
    assert RangeItems(web2, items, url, 1, n) == before + (at + after);
    assert at == [] by {
      assert at == RangeItems(web2, items, url, j, j - 1) + IndexItems(web2, items, url, j);
    }
    assert at + after == after;
    RangeItemsAgree(web, web2, items, url, 1, j - 1);
    RangeItemsAgree(web, web2, items, url, j + 1, n);
  }

  lemma {:induction false} RangeItemsAll<P, D>(web: string -> Fetched<P>, items: P -> seq<D>,
      url: nat -> string, lo: nat, hi: int, ok: D -> bool)
    requires forall u, x | web(u).Ok? && x in items(web(u).page) :: ok(x)
    ensures forall x | x in RangeItems(web, items, url, lo, hi) :: ok(x)
    decreases hi - lo
  {
    if hi >= lo {
      RangeItemsAll(web, items, url, lo, hi - 1, ok);
    }
  }

  // ----- numbered pages -----

  /** The items and the requested URLs of the page loop over `base` from
      page `i` up to `maxPages`: it stops at a failed request, and at an
      empty page other than the first (whose items, none, still count). */
  function PagedFrom<P, D>(web: string -> Fetched<P>, items: P -> seq<D>, base: string, i: nat,
                           maxPages: int): (r: (seq<D>, seq<string>))
    requires i >= 1
    ensures i <= maxPages ==> |r.1| >= 1 && r.1[0] == PageUrl(base, i)
    ensures |r.1| <= if maxPages - i + 1 < 0 then 0 else maxPages - i + 1
    decreases maxPages - i + 1
  {
    if i > maxPages then ([], [])
    else
      var url := PageUrl(base, i);
      match web(url)
      case Err => ([], [url])
      case Ok(p) =>
        if |items(p)| == 0 && i > 1 then (items(p), [url])
        else
          var rest := PagedFrom(web, items, base, i + 1, maxPages);
          (items(p) + rest.0, [url] + rest.1)
  }

  /** A page that ends the loop completes the items and URLs so far. */
  lemma PagedEnds<P, D>(web: string -> Fetched<P>, items: P -> seq<D>, base: string, i: nat,
                        maxPages: int, all: seq<D>, fetched: seq<string>, whole: (seq<D>, seq<string>))
    requires 1 <= i <= maxPages
    requires all + PagedFrom(web, items, base, i, maxPages).0 == whole.0
    requires fetched + PagedFrom(web, items, base, i, maxPages).1 == whole.1
    ensures web(PageUrl(base, i)).Err? ==> all == whole.0 && fetched + [PageUrl(base, i)] == whole.1
    ensures web(PageUrl(base, i)).Ok? && |items(web(PageUrl(base, i)).page)| == 0 && i > 1 ==>
      all + items(web(PageUrl(base, i)).page) == whole.0 && fetched + [PageUrl(base, i)] == whole.1
  {
    if web(PageUrl(base, i)).Err? {
      assert all + [] == all;
    }
  }

  /** A page that loaded and is the first or gave items moves the loop on. */
  lemma PagedMoves<P, D>(web: string -> Fetched<P>, items: P -> seq<D>, base: string, i: nat,
                         maxPages: int, all: seq<D>, fetched: seq<string>, whole: (seq<D>, seq<string>))
    requires 1 <= i <= maxPages && web(PageUrl(base, i)).Ok?
    requires |items(web(PageUrl(base, i)).page)| > 0 || i == 1
    requires all + PagedFrom(web, items, base, i, maxPages).0 == whole.0
    requires fetched + PagedFrom(web, items, base, i, maxPages).1 == whole.1
    ensures (all + items(web(PageUrl(base, i)).page)) + PagedFrom(web, items, base, i + 1, maxPages).0 == whole.0
    ensures (fetched + [PageUrl(base, i)]) + PagedFrom(web, items, base, i + 1, maxPages).1 == whole.1
  {
    var found := items(web(PageUrl(base, i)).page);
    var rest := PagedFrom(web, items, base, i + 1, maxPages);
    assert all + (found + rest.0) == (all + found) + rest.0;
    assert fetched + ([PageUrl(base, i)] + rest.1) == (fetched + [PageUrl(base, i)]) + rest.1;
  }

  /** The loop `for (let i = 1; i <= maxPages; i++)` over numbered pages. */
  method CrawlPages<P, D>(web: string -> Fetched<P>, items: P -> seq<D>, base: string, maxPages: int)
    returns (all: seq<D>, fetched: seq<string>)
    ensures (all, fetched) == PagedFrom(web, items, base, 1, maxPages)
  {
    ghost var whole := PagedFrom(web, items, base, 1, maxPages);
    all := [];
    fetched := [];
    var i := 1;
    while i <= maxPages
      invariant 1 <= i
      invariant all + PagedFrom(web, items, base, i, maxPages).0 == whole.0
      invariant fetched + PagedFrom(web, items, base, i, maxPages).1 == whole.1
      decreases maxPages - i
    {
      PagedEnds(web, items, base, i, maxPages, all, fetched, whole);
      ghost var sent := fetched;
      var url := PageUrl(base, i);
      fetched := fetched + [url];
      var res := web(url);
      if res.Err? {
        break;
      }
      var found := items(res.page);
      ghost var before := all;
      all := all + found;
      if |found| == 0 && i > 1 {
        break;
      }
      PagedMoves(web, items, base, i, maxPages, before, sent, whole);
      i := i + 1;
    }
    assert all + [] == all && fetched + [] == fetched;
  }

  /** The requested URLs are pages `i`, `i + 1`, ... of `base`; the loop
      moves on from a page only when it loaded and is the first page or
      gave items. */
  lemma {:induction false} PagesInOrder<P, D>(web: string -> Fetched<P>, items: P -> seq<D>,
      base: string, i: nat, maxPages: int, k: nat)
    requires i >= 1 && k < |PagedFrom(web, items, base, i, maxPages).1|
    ensures var us := PagedFrom(web, items, base, i, maxPages).1;
      us[k] == PageUrl(base, i + k)
      && (k + 1 < |us| ==> web(us[k]).Ok? && (i + k == 1 || |items(web(us[k]).page)| > 0))
    decreases maxPages - i + 1
  {
    var us := PagedFrom(web, items, base, i, maxPages).1;
    var url := PageUrl(base, i);
    if 1 < |us| {
      assert web(url).Ok? && (i == 1 || |items(web(url).page)| > 0);
      var rest := PagedFrom(web, items, base, i + 1, maxPages).1;
      assert us == [url] + rest;
      if k > 0 {
        PagesInOrder(web, items, base, i + 1, maxPages, k - 1);
        assert us[k] == rest[k - 1];
      }
    }
  }

  /** An empty first page does not stop the loop. */
  lemma EmptyFirstPageContinues<P, D>(web: string -> Fetched<P>, items: P -> seq<D>, base: string,
      maxPages: int)
    requires maxPages >= 2
    requires web(PageUrl(base, 1)).Ok? && items(web(PageUrl(base, 1)).page) == []
    ensures var us := PagedFrom(web, items, base, 1, maxPages).1;
      |us| >= 2 && us[1] == PageUrl(base, 2)
  {
  }

  lemma {:induction false} PagedItemsAll<P, D>(web: string -> Fetched<P>, items: P -> seq<D>,
      base: string, i: nat, maxPages: int, ok: D -> bool)
    requires i >= 1
    requires forall u, x | web(u).Ok? && x in items(web(u).page) :: ok(x)
    ensures forall x | x in PagedFrom(web, items, base, i, maxPages).0 :: ok(x)
    decreases maxPages - i + 1
  {
    if i <= maxPages {
      PagedItemsAll(web, items, base, i + 1, maxPages, ok);
    }
  }

  /** One page loop per key, in order, each over the base `baseOf(key)`. */
  function PagedEach<P, D>(web: string -> Fetched<P>, items: P -> seq<D>, baseOf: string -> string,
                           keys: seq<string>, maxPagesPer: int): (seq<D>, seq<string>)
    decreases |keys|
  {
    if keys == [] then ([], [])
    else
      var prev := PagedEach(web, items, baseOf, keys[..|keys| - 1], maxPagesPer);
      var cur := PagedFrom(web, items, baseOf(keys[|keys| - 1]), 1, maxPagesPer);
      (prev.0 + cur.0, prev.1 + cur.1)
  }

  /** The outer `for (const key of keys)` loop around the page loop. */
  method CrawlEach<P, D>(web: string -> Fetched<P>, items: P -> seq<D>, baseOf: string -> string,
                         keys: seq<string>, maxPagesPer: int)
    returns (all: seq<D>, fetched: seq<string>)
    ensures (all, fetched) == PagedEach(web, items, baseOf, keys, maxPagesPer)
  {
    all := [];
    fetched := [];
    for s := 0 to |keys|
      invariant (all, fetched) == PagedEach(web, items, baseOf, keys[..s], maxPagesPer)
    {
      assert keys[..s + 1][..s] == keys[..s];
      var found, urls := CrawlPages(web, items, baseOf(keys[s]), maxPagesPer);
      all := all + found;
      fetched := fetched + urls;
    }
    assert keys[..|keys|] == keys;
  }

  /** A failure ends only its own key's loop: the first page of every key
      is requested. */
  lemma {:induction false} EveryKeyAttempted<P, D>(web: string -> Fetched<P>, items: P -> seq<D>,
      baseOf: string -> string, keys: seq<string>, maxPagesPer: int, s: nat)
    requires maxPagesPer >= 1 && s < |keys|
    ensures PageUrl(baseOf(keys[s]), 1) in PagedEach(web, items, baseOf, keys, maxPagesPer).1
    decreases |keys|
  {
    var init := keys[..|keys| - 1];
    if s < |keys| - 1 {
      assert init[s] == keys[s];
      EveryKeyAttempted(web, items, baseOf, init, maxPagesPer, s);
    } else {
      var cur := PagedFrom(web, items, baseOf(keys[s]), 1, maxPagesPer).1;
      var prev := PagedEach(web, items, baseOf, init, maxPagesPer).1;
      assert (prev + cur)[|prev|] == cur[0];
    }
  }

  lemma {:induction false} EachItemsAll<P, D>(web: string -> Fetched<P>, items: P -> seq<D>,
      baseOf: string -> string, keys: seq<string>, maxPagesPer: int, ok: D -> bool)
    requires forall u, x | web(u).Ok? && x in items(web(u).page) :: ok(x)
    ensures forall x | x in PagedEach(web, items, baseOf, keys, maxPagesPer).0 :: ok(x)
    decreases |keys|
  {
    if keys != [] {
      EachItemsAll(web, items, baseOf, keys[..|keys| - 1], maxPagesPer, ok);
      PagedItemsAll(web, items, baseOf(keys[|keys| - 1]), 1, maxPagesPer, ok);
    }
  }
}
