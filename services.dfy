/** The services grid of the home page (`src/components/Services.tsx`):
    the list of services and its featured-first order, a stable sort of a
    copy by the comparator `(b.featured ? 1 : 0) - (a.featured ? 1 : 0)`. */
module Services {
  import opened Seqs

  /** A service card; the icon, description and colours are only shown. */
  datatype Service = Service(title: string, link: string, featured: bool)

  const AllServices: seq<Service> := [
    Service("دليل المستشفيات والعيادات", "/hospitals", true),
    Service("فحوصات صحية بالذكاء الاصطناعي", "/health-ai", false),
    Service("تحليل التغذية والسعرات", "/nutrition", false),
    Service("تفسير التحاليل المخبرية", "/lab-analysis", false),
    Service("بوابة التبرع بالدم", "/blood-donation", true),
    Service("وظائف القطاع الصحي", "/jobs", true),
    Service("مراجعات وتجارب المرضى", "/reviews", true),
    Service("الاستشارات الطبية عن بُعد", "/telehealth", false),
    Service("دعم الصحة النفسية", "/mental-health", false),
    Service("النشاط واللياقة البدنية", "/fitness", false),
    Service("التثقيف الصحي والأمراض", "/diseases", false),
    Service("دليل الأطباء", "/doctors", false),
    Service("الخدمات الصحية الحكومية", "/government", false),
    Service("مقالات ونصائح صحية", "/blog", false)
  ]

  function Flag(b: bool): int { if b then 1 else 0 }

  /** The comparator: negative puts `a` first, positive puts `b` first. */
  function Compare(a: Service, b: Service): int {
    Flag(b.featured) - Flag(a.featured)
  }

  /** Puts `x` into the sorted `t` after every element that does not
      compare above it, so equal elements keep their order. */
  function Insert(t: seq<Service>, x: Service): seq<Service>
    decreases |t|
  {
    if t == [] then [x]
    else if Compare(t[|t| - 1], x) <= 0 then t + [x]
    else Insert(t[..|t| - 1], x) + [t[|t| - 1]]
  }

  /** Inserting adds the one element and nothing else. */
  lemma {:induction false} InsertPermutes(t: seq<Service>, x: Service)
    ensures multiset(Insert(t, x)) == multiset(t) + multiset{x}
    decreases |t|
  {
    if t != [] && Compare(t[|t| - 1], x) > 0 {
      InsertPermutes(t[..|t| - 1], x);
      SplitLast(t);
    }
  }

  /** `[...services].sort(compare)`: a stable sort, here by insertion. */
  function SortServices(s: seq<Service>): seq<Service>
    decreases |s|
  {
    if s == [] then [] else Insert(SortServices(s[..|s| - 1]), s[|s| - 1])
  }

  predicate IsFeatured(x: Service) { x.featured }
  predicate NotFeatured(x: Service) { !x.featured }

  /** The reference order: the featured services, then the others, each
      group in its original order. */
  function FeaturedFirst(s: seq<Service>): seq<Service> {
    Filter(s, IsFeatured) + Filter(s, NotFeatured)
  }

  /** A service that does not compare above the last one goes at the end. */
  lemma InsertAtEnd(t: seq<Service>, x: Service)
    requires t == [] || Compare(t[|t| - 1], x) <= 0
    ensures Insert(t, x) == t + [x]
  {
  }

  /** A featured service moves in front of a last service that is not. */
  lemma InsertPastOther(f: seq<Service>, o: seq<Service>, x: Service)
    requires o != [] && x.featured && !o[|o| - 1].featured
    requires Insert(f + o[..|o| - 1], x) == (f + [x]) + o[..|o| - 1]
    ensures Insert(f + o, x) == (f + [x]) + o
  {
    AppendInitLast(f, o);
    AppendInitLast(f + [x], o);
  }

  /** Inserting into a featured-first list: a featured service goes after
      the featured ones, any other at the end. */
  lemma {:induction false} InsertIntoGroups(f: seq<Service>, o: seq<Service>, x: Service)
    requires forall i | 0 <= i < |f| :: f[i].featured
    requires forall i | 0 <= i < |o| :: !o[i].featured
    ensures Insert(f + o, x) == if x.featured then (f + [x]) + o else f + (o + [x])
    decreases |o|
  {
    if o == [] {
      assert f + o == f;
      InsertAtEnd(f, x);
      assert (f + [x]) + o == f + [x] && f + (o + [x]) == f + [x];
    } else if x.featured {
      InsertIntoGroups(f, o[..|o| - 1], x);
      InsertPastOther(f, o, x);
    } else {
      assert (f + o)[|f + o| - 1] == o[|o| - 1];
      InsertAtEnd(f + o, x);
      assert (f + o) + [x] == f + (o + [x]);
    }
  }

  /** One more service keeps the sort equal to the featured-first order. */
  lemma SortStep(s: seq<Service>)
    requires s != [] && SortServices(s[..|s| - 1]) == FeaturedFirst(s[..|s| - 1])
    ensures SortServices(s) == FeaturedFirst(s)
  {
    var s0, x := s[..|s| - 1], s[|s| - 1];
    var f, o := Filter(s0, IsFeatured), Filter(s0, NotFeatured);
    assert forall i | 0 <= i < |f| :: f[i].featured;
    assert forall i | 0 <= i < |o| :: !o[i].featured;
    InsertIntoGroups(f, o, x);
  }

  /** The sort puts exactly the featured services first, in their original
      order, then the others in theirs. */
  lemma {:induction false} SortIsFeaturedFirst(s: seq<Service>)
    ensures SortServices(s) == FeaturedFirst(s)
    decreases |s|
  {
    if s != [] {
      SortIsFeaturedFirst(s[..|s| - 1]);
      SortStep(s);
    }
  }

  /** The sort loses and adds nothing. */
  lemma {:induction false} SortPermutes(s: seq<Service>)
    ensures multiset(SortServices(s)) == multiset(s)
    decreases |s|
  {
    if s != [] {
      var s0, x := s[..|s| - 1], s[|s| - 1];
      SortPermutes(s0);
      InsertPermutes(SortServices(s0), x);
      SplitLast(s);
    }
  }

  /** What the featured-first order promises: it is a permutation of the
      services; no featured service comes after one that is not; and each
      group keeps its original order. */
  lemma FeaturedFirstOrder(s: seq<Service>)
    ensures multiset(SortServices(s)) == multiset(s)
    ensures forall i, j | 0 <= i < j < |SortServices(s)| ::
      SortServices(s)[j].featured ==> SortServices(s)[i].featured
    ensures Filter(SortServices(s), IsFeatured) == Filter(s, IsFeatured)
    ensures Filter(SortServices(s), NotFeatured) == Filter(s, NotFeatured)
  {
    SortIsFeaturedFirst(s);
    SortPermutes(s);
    var f, o := Filter(s, IsFeatured), Filter(s, NotFeatured);
    FilterAppend(f, o, IsFeatured);
    FilterAppend(f, o, NotFeatured);
    FilterAll(f, IsFeatured);
    FilterAll(o, NotFeatured);
    FilterNone(f, NotFeatured);
    FilterNone(o, IsFeatured);
  }

  /** A filter that rejects every element gives nothing. */
  lemma {:induction false} FilterNone(s: seq<Service>, p: Service -> bool)
    requires forall i | 0 <= i < |s| :: !p(s[i])
    ensures Filter(s, p) == []
    decreases |s|
  {
    if s != [] {
      FilterNone(s[..|s| - 1], p);
    }
  }

  /** Sorting a list that is already featured-first changes nothing. */
  lemma SortIdempotent(s: seq<Service>)
    ensures SortServices(SortServices(s)) == SortServices(s)
  {
    FeaturedFirstOrder(s);
    SortIsFeaturedFirst(SortServices(s));
    SortIsFeaturedFirst(s);
  }
}
