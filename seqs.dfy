/** Sequence operations the source performs with `Array.prototype.filter`,
    `concat`/spread and its key-based de-duplication loops
    (`const seen = new Set(); ... if (!seen.has(key)) { seen.add(key); out.push(x) }`). */
module Seqs {
  import opened Js

  /** `s.filter(p)`. */
  function Filter<T(==)>(s: seq<T>, p: T -> bool): (r: seq<T>)
    ensures |r| <= |s|
    ensures forall i | 0 <= i < |r| :: r[i] in s && p(r[i])
    ensures forall i | 0 <= i < |s| && p(s[i]) :: s[i] in r
    ensures IsSubseq(r, s)
    decreases |s|
  {
    if s == [] then []
    else
      var init := Filter(s[..|s| - 1], p);
      var last := s[|s| - 1];
      assert s == s[..|s| - 1] + [last];
      if p(last) then
        var r := init + [last];
        assert r[..|r| - 1] == init;
        r
      else
        IsSubseqDropLast(init, s);
        init
  }

  lemma {:induction false} FilterAppend<T>(a: seq<T>, b: seq<T>, p: T -> bool)
    ensures Filter(a + b, p) == Filter(a, p) + Filter(b, p)
    decreases |b|
  {
    if b != [] {
      var b0 := b[..|b| - 1];
      assert (a + b)[..|a + b| - 1] == a + b0;
      assert (a + b)[|a + b| - 1] == b[|b| - 1];
      FilterAppend(a, b0, p);
    } else {
      assert a + b == a;
    }
  }

  /** A non-empty list is its front followed by its last element. */
  lemma SplitLast<T>(s: seq<T>)
    requires s != []
    ensures s[..|s| - 1] + [s[|s| - 1]] == s
    ensures multiset(s) == multiset(s[..|s| - 1]) + multiset{s[|s| - 1]}
  {
    assert s[..|s| - 1] + [s[|s| - 1]] == s;
  }

  /** The last element and the rest of a concatenation whose second part
      is not empty. */
  lemma AppendInitLast<T>(a: seq<T>, b: seq<T>)
    requires b != []
    ensures (a + b)[..|a + b| - 1] == a + b[..|b| - 1]
    ensures (a + b)[|a + b| - 1] == b[|b| - 1]
    ensures (a + b[..|b| - 1]) + [b[|b| - 1]] == a + b
  {
    assert (a + b[..|b| - 1]) + [b[|b| - 1]] == a + (b[..|b| - 1] + [b[|b| - 1]]);
    assert b[..|b| - 1] + [b[|b| - 1]] == b;
  }

  /** A filter that keeps everything is the identity. */
  lemma {:induction false} FilterAll<T>(s: seq<T>, p: T -> bool)
    requires forall i | 0 <= i < |s| :: p(s[i])
    ensures Filter(s, p) == s
    decreases |s|
  {
    if s != [] {
      FilterAll(s[..|s| - 1], p);
      assert s == s[..|s| - 1] + [s[|s| - 1]];
    }
  }

  /** Filtering twice by the same test is filtering once. */
  lemma FilterTwice<T>(s: seq<T>, p: T -> bool)
    ensures Filter(Filter(s, p), p) == Filter(s, p)
  {
    FilterAll(Filter(s, p), p);
  }

  /** No element occurs twice. */
  predicate Distinct<T(==)>(s: seq<T>) {
    forall i, j | 0 <= i < j < |s| :: s[i] != s[j]
  }

  /** A filter never introduces a repeated element. */
  lemma {:induction false} FilterDistinct<T>(s: seq<T>, p: T -> bool)
    requires Distinct(s)
    ensures Distinct(Filter(s, p))
    decreases |s|
  {
    if s != [] {
      var init := s[..|s| - 1];
      var last := s[|s| - 1];
      assert Distinct(init);
      FilterDistinct(init, p);
      assert last !in init;
      assert last !in Filter(init, p);
    }
  }

  /** `s.filter(x => key(x) !== k)`: every element with key `k` removed. */
  function Without<T(==), K(==)>(s: seq<T>, key: T -> K, k: K): (r: seq<T>)
    ensures IsSubseq(r, s)
    ensures forall x | x in r :: x in s && key(x) != k
    ensures forall x | x in s && key(x) != k :: x in r
  {
    Filter(s, x => key(x) != k)
  }

  /** Removing a key twice is removing it once. */
  lemma WithoutTwice<T, K>(s: seq<T>, key: T -> K, k: K)
    ensures Without(Without(s, key, k), key, k) == Without(s, key, k)
  {
    FilterTwice(s, x => key(x) != k);
  }

  /** Removing the key of an element just put in front of a list that
      does not use that key gives the list back. */
  lemma WithoutPrepended<T, K>(x: T, s: seq<T>, key: T -> K)
    requires forall y | y in s :: key(y) != key(x)
    ensures Without([x] + s, key, key(x)) == s
  {
    var p := y => key(y) != key(x);
    FilterAppend([x], s, p);
    assert Filter([x], p) == [];
    FilterAll(s, p);
  }

  /** Removing a key nobody has changes nothing. */
  lemma WithoutAbsent<T, K>(s: seq<T>, key: T -> K, k: K)
    requires forall y | y in s :: key(y) != k
    ensures Without(s, key, k) == s
  {
    FilterAll(s, x => key(x) != k);
  }

  // ----- collecting -----

  /** What an `each` loop pushes: `f` of every element in order, the
      elements for which `f` gives nothing skipped. */
  function Collect<T, U>(s: seq<T>, f: T -> Option<U>): (r: seq<U>)
    ensures |r| <= |s|
    decreases |s|
  {
    if s == [] then []
    else
      var init := Collect(s[..|s| - 1], f);
      match f(s[|s| - 1])
      case None => init
      case Some(y) => init + [y]
  }

  /** The loop: one push per element that gives something. */
  method CollectEach<T, U>(s: seq<T>, f: T -> Option<U>) returns (r: seq<U>)
    ensures r == Collect(s, f)
  {
    r := [];
    for k := 0 to |s|
      invariant r == Collect(s[..k], f)
    {
      assert s[..k + 1][..k] == s[..k];
      var y := f(s[k]);
      if y.Some? {
        r := r + [y.value];
      }
    }
    assert s[..|s|] == s;
  }

  /** Every collected value is what `f` gave for some element, and every
      value `f` gives is collected. */
  lemma {:induction false} CollectMembers<T, U>(s: seq<T>, f: T -> Option<U>)
    ensures forall y | y in Collect(s, f) :: exists i | 0 <= i < |s| :: f(s[i]) == Some(y)
    ensures forall i | 0 <= i < |s| && f(s[i]).Some? :: f(s[i]).value in Collect(s, f)
    decreases |s|
  {
    if s != [] {
      var init := s[..|s| - 1];
      CollectMembers(init, f);
      forall y | y in Collect(s, f)
        ensures exists i | 0 <= i < |s| :: f(s[i]) == Some(y)
      {
        if y in Collect(init, f) {
          var i :| 0 <= i < |init| && f(init[i]) == Some(y);
          assert s[i] == init[i];
        } else {
          assert f(s[|s| - 1]) == Some(y);
        }
      }
      forall i | 0 <= i < |s| && f(s[i]).Some?
        ensures f(s[i]).value in Collect(s, f)
      {
        if i < |s| - 1 {
          assert s[i] == init[i];
        }
      }
    }
  }

  /** Nothing is collected exactly when `f` gives nothing for every element. */
  lemma {:induction false} CollectEmpty<T, U>(s: seq<T>, f: T -> Option<U>)
    ensures Collect(s, f) == [] <==> forall i | 0 <= i < |s| :: f(s[i]).None?
  {
    CollectMembers(s, f);
    if Collect(s, f) != [] {
      assert Collect(s, f)[0] in Collect(s, f);
    }
  }

  /** What one element does in an `each` loop whose body may throw: the
      throw ends the loop (and the caller's `try`), or it pushes an item,
      or it pushes nothing. */
  datatype Step<U> = Fail | Skip | Push(item: U)

  /** The items an `each` loop with a throwing body pushes, or `None` when
      the body throws for some element. */
  function Gather<T, U>(s: seq<T>, f: T -> Step<U>): (r: Option<seq<U>>)
    ensures r.Some? ==> |r.value| <= |s|
    decreases |s|
  {
    if s == [] then Some([])
    else
      match Gather(s[..|s| - 1], f)
      case None => None
      case Some(init) =>
        match f(s[|s| - 1])
        case Fail => None
        case Skip => Some(init)
        case Push(y) => Some(init + [y])
  }

  /** The loop, leaving at the first element whose body throws. */
  method GatherEach<T, U>(s: seq<T>, f: T -> Step<U>) returns (r: Option<seq<U>>)
    ensures r == Gather(s, f)
  {
    var items: seq<U> := [];
    for k := 0 to |s|
      invariant Gather(s[..k], f) == Some(items)
    {
      assert s[..k + 1][..k] == s[..k];
      var step := f(s[k]);
      if step.Fail? {
        GatherFailSticks(s, f, k + 1);
        assert s[..|s|] == s;
        return None;
      }
      if step.Push? {
        items := items + [step.item];
      }
    }
    assert s[..|s|] == s;
    r := Some(items);
  }

  /** Once a prefix has thrown, so has every longer prefix. */
  lemma {:induction false} GatherFailSticks<T, U>(s: seq<T>, f: T -> Step<U>, k: nat)
    requires k <= |s| && Gather(s[..k], f).None?
    ensures Gather(s, f).None?
    decreases |s| - k
  {
    if k < |s| {
      assert s[..k + 1][..k] == s[..k];
      GatherFailSticks(s, f, k + 1);
    } else {
      assert s[..k] == s;
    }
  }

  /** The loop throws exactly when the body throws for some element. */
  lemma {:induction false} GatherFails<T, U>(s: seq<T>, f: T -> Step<U>)
    ensures Gather(s, f).None? <==> exists i | 0 <= i < |s| :: f(s[i]).Fail?
    decreases |s|
  {
    if s != [] {
      var init := s[..|s| - 1];
      GatherFails(init, f);
      if exists i | 0 <= i < |init| :: f(init[i]).Fail? {
        var i :| 0 <= i < |init| && f(init[i]).Fail?;
        assert s[i] == init[i];
      }
      if exists i | 0 <= i < |s| :: f(s[i]).Fail? {
        var i :| 0 <= i < |s| && f(s[i]).Fail?;
        if i < |init| {
          assert init[i] == s[i];
        }
      }
    }
  }

  /** Every gathered item is pushed by some element, and every pushed item is gathered. */
  lemma {:induction false} GatherMembers<T, U>(s: seq<T>, f: T -> Step<U>)
    requires Gather(s, f).Some?
    ensures forall y | y in Gather(s, f).value :: exists i | 0 <= i < |s| :: f(s[i]) == Push(y)
    ensures forall i | 0 <= i < |s| && f(s[i]).Push? :: f(s[i]).item in Gather(s, f).value
    decreases |s|
  {
    if s != [] {
      var init := s[..|s| - 1];
      GatherMembers(init, f);
      var g := Gather(s, f).value;
      forall y | y in g
        ensures exists i | 0 <= i < |s| :: f(s[i]) == Push(y)
      {
        if y in Gather(init, f).value {
          var i :| 0 <= i < |init| && f(init[i]) == Push(y);
          assert s[i] == init[i];
        } else {
          assert f(s[|s| - 1]) == Push(y);
        }
      }
      forall i | 0 <= i < |s| && f(s[i]).Push?
        ensures f(s[i]).item in g
      {
        if i < |s| - 1 {
          assert s[i] == init[i];
        }
      }
    }
  }

  // ----- subsequences -----

  /** `a` is `b` with some elements removed, order kept. */
  predicate IsSubseq<T(==)>(a: seq<T>, b: seq<T>)
    decreases |b|
  {
    if a == [] then true
    else if b == [] then false
    else (a[|a| - 1] == b[|b| - 1] && IsSubseq(a[..|a| - 1], b[..|b| - 1]))
         || IsSubseq(a, b[..|b| - 1])
  }

  /** If `a` is a subsequence of `b` minus its last element, it is one of `b`. */
  lemma IsSubseqDropLast<T>(a: seq<T>, b: seq<T>)
    requires b != [] && IsSubseq(a, b[..|b| - 1])
    ensures IsSubseq(a, b)
  {
  }

  lemma {:induction false} IsSubseqRefl<T>(s: seq<T>)
    ensures IsSubseq(s, s)
    decreases |s|
  {
    if s != [] {
      IsSubseqRefl(s[..|s| - 1]);
    }
  }

  /** Every element of a subsequence is an element of the sequence. */
  lemma {:induction false} IsSubseqMembers<T>(a: seq<T>, b: seq<T>)
    requires IsSubseq(a, b)
    ensures forall x | x in a :: x in b
    decreases |b|
  {
    if a != [] {
      var b0 := b[..|b| - 1];
      assert b == b0 + [b[|b| - 1]];
      if a[|a| - 1] == b[|b| - 1] && IsSubseq(a[..|a| - 1], b0) {
        IsSubseqMembers(a[..|a| - 1], b0);
        assert a == a[..|a| - 1] + [a[|a| - 1]];
      } else {
        IsSubseqMembers(a, b0);
      }
    }
  }

  // ----- flattening -----

  /** `[].concat(...ss)`: the elements of every sequence, in order. */
  function Flatten<T>(ss: seq<seq<T>>): (r: seq<T>)
    decreases |ss|
  {
    if ss == [] then [] else Flatten(ss[..|ss| - 1]) + ss[|ss| - 1]
  }

  lemma {:induction false} FlattenAppend<T>(a: seq<seq<T>>, b: seq<seq<T>>)
    ensures Flatten(a + b) == Flatten(a) + Flatten(b)
    decreases |b|
  {
    if b == [] {
      assert a + b == a;
    } else {
      var b0 := b[..|b| - 1];
      assert (a + b)[..|a + b| - 1] == a + b0;
      FlattenAppend(a, b0);
    }
  }

  /** Every element of every part is an element of the flattening. */
  lemma {:induction false} FlattenMembers<T>(ss: seq<seq<T>>, i: int, x: T)
    requires 0 <= i < |ss| && x in ss[i]
    ensures x in Flatten(ss)
    decreases |ss|
  {
    if i < |ss| - 1 {
      FlattenMembers(ss[..|ss| - 1], i, x);
    }
  }

  // ----- de-duplication by key -----

  /** The keys of the elements of `s`. */
  function KeysOf<T, K(==)>(s: seq<T>, key: T -> K): (ks: set<K>)
    ensures forall i | 0 <= i < |s| :: key(s[i]) in ks
    ensures forall k | k in ks :: exists i :: 0 <= i < |s| && key(s[i]) == k
    decreases |s|
  {
    if s == [] then {}
    else KeysOf(s[..|s| - 1], key) + {key(s[|s| - 1])}
  }

  /** `s` with every element removed whose key an earlier element already has. */
  function Deduped<T, K(==)>(s: seq<T>, key: T -> K): seq<T>
    decreases |s|
  {
    if s == [] then []
    else
      var init := s[..|s| - 1];
      var last := s[|s| - 1];
      if key(last) in KeysOf(init, key) then Deduped(init, key)
      else Deduped(init, key) + [last]
  }

  /** No two elements share a key. */
  predicate KeysDistinct<T, K(==)>(s: seq<T>, key: T -> K) {
    forall i, j | 0 <= i < j < |s| :: key(s[i]) != key(s[j])
  }

  /** The de-duplication loop the scrapers run: a `Set` of keys seen so far
      and an output array that receives each element whose key is new. */
  method Dedup<T, K(==)>(items: seq<T>, key: T -> K) returns (r: seq<T>)
    ensures r == Deduped(items, key)
  {
    var seen: set<K> := {};
    r := [];
    for i := 0 to |items|
      invariant r == Deduped(items[..i], key)
      invariant seen == KeysOf(items[..i], key)
    {
      assert items[..i + 1][..i] == items[..i];
      var k := key(items[i]);
      if k !in seen {
        seen := seen + {k};
        r := r + [items[i]];
      }
    }
    assert items[..|items|] == items;
  }

  /** De-duplication keeps exactly the set of keys. */
  lemma {:induction false} DedupedKeys<T, K>(s: seq<T>, key: T -> K)
    ensures KeysOf(Deduped(s, key), key) == KeysOf(s, key)
    decreases |s|
  {
    if s != [] {
      var init := s[..|s| - 1];
      DedupedKeys(init, key);
      var d := Deduped(init, key);
      if key(s[|s| - 1]) !in KeysOf(init, key) {
        assert (d + [s[|s| - 1]])[..|d|] == d;
      }
    }
  }

  /** After de-duplication no key occurs twice. */
  lemma {:induction false} DedupedDistinct<T, K>(s: seq<T>, key: T -> K)
    ensures KeysDistinct(Deduped(s, key), key)
    decreases |s|
  {
    if s != [] {
      var init := s[..|s| - 1];
      var last := s[|s| - 1];
      DedupedDistinct(init, key);
      DedupedKeys(init, key);
      var d := Deduped(init, key);
      if key(last) !in KeysOf(init, key) {
        var r := d + [last];
        forall i, j | 0 <= i < j < |r|
          ensures key(r[i]) != key(r[j])
        {
          if j == |d| {
            assert key(r[i]) in KeysOf(d, key);
          }
        }
      }
    }
  }

  /** De-duplication keeps the order: the result is a subsequence. */
  lemma {:induction false} DedupedSubseq<T, K>(s: seq<T>, key: T -> K)
    ensures IsSubseq(Deduped(s, key), s)
    decreases |s|
  {
    if s != [] {
      var init := s[..|s| - 1];
      DedupedSubseq(init, key);
      var d := Deduped(init, key);
      if key(s[|s| - 1]) !in KeysOf(init, key) {
        assert (d + [s[|s| - 1]])[..|d|] == d;
      } else if d != [] {
        IsSubseqDropLast(d, s);
      }
    }
  }

  /** Every element kept by de-duplication comes from the input. */
  lemma DedupedMembers<T, K>(s: seq<T>, key: T -> K)
    ensures forall x | x in Deduped(s, key) :: x in s
  {
    DedupedSubseq(s, key);
    IsSubseqMembers(Deduped(s, key), s);
  }

  /** Nothing happens to a sequence whose keys are already distinct. */
  lemma {:induction false} DedupedOfDistinct<T, K>(s: seq<T>, key: T -> K)
    requires KeysDistinct(s, key)
    ensures Deduped(s, key) == s
    decreases |s|
  {
    if s != [] {
      var init := s[..|s| - 1];
      var last := s[|s| - 1];
      assert forall i | 0 <= i < |init| :: init[i] == s[i];
      assert KeysDistinct(init, key);
      DedupedOfDistinct(init, key);
      assert forall i | 0 <= i < |init| :: key(init[i]) != key(last);
      assert key(last) !in KeysOf(init, key);
      assert s == init + [last];
    }
  }

  /** De-duplicating twice is the same as once. */
  lemma DedupedIdempotent<T, K>(s: seq<T>, key: T -> K)
    ensures Deduped(Deduped(s, key), key) == Deduped(s, key)
  {
    DedupedDistinct(s, key);
    DedupedOfDistinct(Deduped(s, key), key);
  }

  /** One more element keeps what was kept, and is kept itself when its
      key is new. */
  lemma DedupedGrows<T, K>(s: seq<T>, key: T -> K)
    requires s != []
    ensures forall y | y in Deduped(s[..|s| - 1], key) :: y in Deduped(s, key)
    ensures key(s[|s| - 1]) !in KeysOf(s[..|s| - 1], key) ==> s[|s| - 1] in Deduped(s, key)
  {
  }

  /** The first element carrying each key is the one that is kept. */
  lemma {:induction false} DedupedKeepsFirst<T, K>(s: seq<T>, key: T -> K, i: int)
    requires 0 <= i < |s| && key(s[i]) !in KeysOf(s[..i], key)
    ensures s[i] in Deduped(s, key)
    decreases |s|
  {
    var init := s[..|s| - 1];
    DedupedGrows(s, key);
    if i == |s| - 1 {
      assert s[..i] == init;
    } else {
      assert init[..i] == s[..i];
      DedupedKeepsFirst(init, key, i);
    }
  }

  /** De-duplicating `a + b` starts with de-duplicating `a`: what is
      already there stays in front, in its order. */
  lemma {:induction false} DedupedAppendPrefix<T, K>(a: seq<T>, b: seq<T>, key: T -> K)
    ensures |Deduped(a, key)| <= |Deduped(a + b, key)|
    ensures Deduped(a + b, key)[..|Deduped(a, key)|] == Deduped(a, key)
    decreases |b|
  {
    if b == [] {
      assert a + b == a;
    } else {
      var b0 := b[..|b| - 1];
      assert (a + b)[..|a + b| - 1] == a + b0;
      DedupedAppendPrefix(a, b0, key);
    }
  }

  // ----- capped lists -----

  /** `s.slice(0, n)`: the first `n` elements, or all of them. */
  function Capped<T>(s: seq<T>, n: nat): (r: seq<T>)
    ensures |r| == if |s| <= n then |s| else n
    ensures r == s[..|r|]
  {
    if |s| <= n then s else s[..n]
  }

  /** Capping after a prepend keeps the new element and one fewer of the old. */
  lemma PrependCapped<T>(x: T, s: seq<T>, n: nat)
    requires n >= 1
    ensures Capped([x] + s, n) == [x] + Capped(s, n - 1)
  {
    var r := Capped([x] + s, n);
    assert r[0] == x;
    assert r[1..] == s[..|r| - 1];
  }
}
