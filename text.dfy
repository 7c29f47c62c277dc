/** Character and string operations shared by the whole model: JavaScript's
    whitespace class, `replace(/\s+/g, " ")`, `trim()`, `String.prototype.includes`,
    ASCII `toLowerCase`, and the decimal rendering of integers used when the
    source builds URLs and identifiers with template strings. */
module Text {

  /** JavaScript's `\s` class, which is also the set `trim()` removes. */
  predicate IsSpace(c: char) {
    c == ' ' || c == '\t' || c == '\n' || c == '\U{B}' || c == '\U{C}' || c == '\r'
    || c == '\U{A0}' || c == '\U{1680}' || ('\U{2000}' <= c <= '\U{200A}')
    || c == '\U{2028}' || c == '\U{2029}' || c == '\U{202F}' || c == '\U{205F}'
    || c == '\U{3000}' || c == '\U{FEFF}'
  }

  /** JavaScript's `\d` (ASCII digits only). */
  predicate IsDigit(c: char) { '0' <= c <= '9' }

  predicate AllDigits(s: string) { forall i | 0 <= i < |s| :: IsDigit(s[i]) }

  /** No leading or trailing whitespace. */
  predicate Trimmed(s: string) {
    s == [] || (!IsSpace(s[0]) && !IsSpace(s[|s| - 1]))
  }

  /** Every whitespace character is a plain space and no two are adjacent. */
  predicate SingleSpaced(s: string) {
    (forall i | 0 <= i < |s| :: IsSpace(s[i]) ==> s[i] == ' ')
    && (forall i | 0 <= i < |s| - 1 :: !DoubleSpaceAt(s, i))
  }

  /** Whitespace at `i` and at `i + 1`. */
  predicate DoubleSpaceAt(s: string, i: nat)
    requires i + 1 < |s|
  {
    IsSpace(s[i]) && IsSpace(s[i + 1])
  }

  // ----- trim -----

  /** `trimStart()`: the suffix left after dropping leading whitespace. */
  /** The first position at or after `k` that does not hold whitespace. */
  function SkipSpaces(s: string, k: nat): (e: nat)
    requires k <= |s|
    ensures k <= e <= |s|
    ensures forall i | k <= i < e :: IsSpace(s[i])
    ensures e < |s| ==> !IsSpace(s[e])
    decreases |s| - k
  {
    if k < |s| && IsSpace(s[k]) then SkipSpaces(s, k + 1) else k
  }

  function TrimStart(s: string): (r: string)
    ensures |r| <= |s| && r == s[|s| - |r|..]
    ensures r != [] ==> !IsSpace(r[0])
    ensures forall i | 0 <= i < |s| - |r| :: IsSpace(s[i])
  {
    s[SkipSpaces(s, 0)..]
  }

  /** `trimEnd()`: the prefix left after dropping trailing whitespace. */
  /** The last position at or before `k` that follows a non-whitespace
      character (or 0): the end of `s[..k]` with its trailing whitespace dropped. */
  function SkipSpacesBack(s: string, k: nat): (e: nat)
    requires k <= |s|
    ensures e <= k
    ensures forall i | e <= i < k :: IsSpace(s[i])
    ensures e > 0 ==> !IsSpace(s[e - 1])
  {
    if k > 0 && IsSpace(s[k - 1]) then SkipSpacesBack(s, k - 1) else k
  }

  function TrimEnd(s: string): (r: string)
    ensures |r| <= |s| && r == s[..|r|]
    ensures r != [] ==> !IsSpace(r[|r| - 1])
    ensures forall i | |r| <= i < |s| :: IsSpace(s[i])
  {
    s[..SkipSpacesBack(s, |s|)]
  }

  /** `trim()`. */
  function Trim(s: string): (r: string)
    ensures Trimmed(r)
    ensures |r| <= |s|
    ensures Trimmed(s) ==> r == s
  {
    TrimEnd(TrimStart(s))
  }

  lemma SingleSpacedSlice(s: string, a: nat, b: nat)
    requires a <= b <= |s| && SingleSpaced(s)
    ensures SingleSpaced(s[a..b])
  {
    var t := s[a..b];
    forall i | 0 <= i < |t| - 1
      ensures !DoubleSpaceAt(t, i)
    {
      assert t[i] == s[a + i] && t[i + 1] == s[a + i + 1];
      assert !DoubleSpaceAt(s, a + i);
    }
  }

  lemma TrimKeepsSingleSpaced(s: string)
    requires SingleSpaced(s)
    ensures SingleSpaced(Trim(s))
  {
    var ab := TrimIsSliceFn(s);
    SingleSpacedSlice(s, ab.0, ab.1);
  }

  /** A trimmed string is unchanged by a second `trim()`. */
  lemma TrimIdempotent(s: string)
    ensures Trim(Trim(s)) == Trim(s)
  {
  }

  // ----- collapse runs of whitespace -----

  /** `replace(/\s+/g, " ")`: every maximal run of whitespace becomes one space. */
  function CollapseSpaces(s: string): (r: string)
    ensures |r| <= |s|
    ensures s == [] <==> r == []
    ensures s != [] && !IsSpace(s[0]) ==> r[0] == s[0]
    ensures s != [] && IsSpace(s[0]) ==> r[0] == ' '
    decreases |s|
  {
    if s == [] then []
    else if IsSpace(s[0]) then " " + CollapseSpaces(TrimStart(s[1..]))
    else [s[0]] + CollapseSpaces(s[1..])
  }

  /** Every character of the result is a space or a non-space character of the input. */
  lemma {:induction false} CollapseChars(s: string)
    ensures forall i | 0 <= i < |CollapseSpaces(s)| ::
      CollapseSpaces(s)[i] == ' ' || (CollapseSpaces(s)[i] in s && !IsSpace(CollapseSpaces(s)[i]))
    decreases |s|
  {
    if s != [] {
      var t := s[1..];
      if IsSpace(s[0]) {
        var u := TrimStart(t);
        CollapseChars(u);
        assert forall c | c in u :: c in s;
      } else {
        CollapseChars(t);
        assert forall c | c in t :: c in s;
      }
    }
  }

  lemma {:induction false} CollapseSingleSpaced(s: string)
    ensures SingleSpaced(CollapseSpaces(s))
    decreases |s|
  {
    if s == [] {
    } else if IsSpace(s[0]) {
      var u := TrimStart(s[1..]);
      CollapseSingleSpaced(u);
      var c := CollapseSpaces(u);
      var r := " " + c;
      assert CollapseSpaces(s) == r;
      assert c != [] ==> !IsSpace(c[0]);
      forall i | 0 <= i < |r| - 1
        ensures !DoubleSpaceAt(r, i)
      {
        if i > 0 {
          assert !DoubleSpaceAt(c, i - 1);
        }
      }
    } else {
      CollapseSingleSpaced(s[1..]);
      var c := CollapseSpaces(s[1..]);
      var r := [s[0]] + c;
      assert CollapseSpaces(s) == r;
      forall i | 0 <= i < |r| - 1
        ensures !DoubleSpaceAt(r, i)
      {
        if i > 0 {
          assert !DoubleSpaceAt(c, i - 1);
        }
      }
    }
  }

  /** A string that is already single-spaced is left as it is. */
  lemma {:induction false} CollapseOfSingleSpaced(s: string)
    requires SingleSpaced(s)
    ensures CollapseSpaces(s) == s
    decreases |s|
  {
    if s == [] {
    } else {
      var t := s[1..];
      SingleSpacedSlice(s, 1, |s|);
      assert s[1..|s|] == t;
      CollapseOfSingleSpaced(t);
      assert s == [s[0]] + t;
      if IsSpace(s[0]) {
        assert s[0] == ' ';
        assert t != [] ==> !DoubleSpaceAt(s, 0) && t[0] == s[1] && !IsSpace(t[0]);
        assert TrimStart(t) == t;
        assert CollapseSpaces(s) == " " + CollapseSpaces(t);
      } else {
        assert CollapseSpaces(s) == [s[0]] + CollapseSpaces(t);
      }
    }
  }

  /** The last non-space character survives at the end. */
  lemma {:induction false} CollapseKeepsLast(s: string)
    requires s != [] && !IsSpace(s[|s| - 1])
    ensures CollapseSpaces(s) != [] && CollapseSpaces(s)[|CollapseSpaces(s)| - 1] == s[|s| - 1]
    decreases |s|
  {
    if IsSpace(s[0]) {
      var u := TrimStart(s[1..]);
      var t := s[1..];
      assert t[|t| - 1] == s[|s| - 1];
      assert u != [];
      assert u[|u| - 1] == t[|t| - 1];
      CollapseKeepsLast(u);
    } else if |s| > 1 {
      CollapseKeepsLast(s[1..]);
    }
  }

  // ----- normalizeSpace -----

  /** `replace(/\s+/g, " ").trim()`. */
  function NormalizeSpace(s: string): (r: string)
    ensures Trimmed(r) && SingleSpaced(r)
    ensures |r| <= |s|
    ensures forall i | 0 <= i < |r| :: r[i] == ' ' || (r[i] in s && !IsSpace(r[i]))
  {
    CollapseSingleSpaced(s);
    CollapseChars(s);
    TrimKeepsSingleSpaced(CollapseSpaces(s));
    var c := CollapseSpaces(s);
    var ab := TrimIsSliceFn(c);
    assert forall i | 0 <= i < |Trim(c)| :: Trim(c)[i] == c[ab.0 + i];
    Trim(c)
  }

  /** The trimmed string is a contiguous slice `s[a..b]` of the input. */
  function TrimIsSliceFn(s: string): (ab: (nat, nat))
    ensures ab.0 <= ab.1 <= |s| && Trim(s) == s[ab.0..ab.1]
  {
    var a := |s| - |TrimStart(s)|;
    assert TrimStart(s) == s[a..];
    assert TrimEnd(TrimStart(s)) == s[a..][..|TrimEnd(TrimStart(s))|];
    (a, a + |TrimEnd(TrimStart(s))|)
  }

  /** Normalising twice is the same as normalising once. */
  lemma NormalizeSpaceIdempotent(s: string)
    ensures NormalizeSpace(NormalizeSpace(s)) == NormalizeSpace(s)
  {
    var r := NormalizeSpace(s);
    CollapseOfSingleSpaced(r);
  }

  /** A string that contains no whitespace at all is its own normal form. */
  lemma NormalizeSpaceNoSpace(s: string)
    requires forall i | 0 <= i < |s| :: !IsSpace(s[i])
    ensures NormalizeSpace(s) == s
  {
    CollapseOfSingleSpaced(s);
  }

  // ----- substring search -----

  predicate StartsWith(s: string, p: string) {
    |p| <= |s| && s[..|p|] == p
  }

  predicate EndsWith(s: string, p: string) {
    |p| <= |s| && s[|s| - |p|..] == p
  }

  /** `s.includes(sub)`. */
  predicate Contains(s: string, sub: string)
    decreases |s|
  {
    StartsWith(s, sub) || (s != [] && Contains(s[1..], sub))
  }

  /** `sub` occurs in `s` starting at offset `k`. */
  predicate OccursAt(s: string, sub: string, k: int) {
    0 <= k && k + |sub| <= |s| && s[k..k + |sub|] == sub
  }

  /** `includes` agrees with "occurs at some offset". */
  lemma {:induction false} ContainsAt(s: string, sub: string)
    ensures Contains(s, sub) <==> exists k :: OccursAt(s, sub, k)
    decreases |s|
  {
    if StartsWith(s, sub) {
      assert OccursAt(s, sub, 0);
    } else if s != [] {
      ContainsAt(s[1..], sub);
      if Contains(s[1..], sub) {
        var k :| OccursAt(s[1..], sub, k);
        assert s[1..][k..k + |sub|] == s[k + 1..k + 1 + |sub|];
        assert OccursAt(s, sub, k + 1);
      }
      if exists k :: OccursAt(s, sub, k) {
        var k :| OccursAt(s, sub, k);
        assert k != 0;
        assert s[1..][k - 1..k - 1 + |sub|] == s[k..k + |sub|];
        assert OccursAt(s[1..], sub, k - 1);
      }
    } else {
      assert forall k :: !OccursAt(s, sub, k);
    }
  }

  lemma ContainsEmpty(s: string)
    ensures Contains(s, "")
  {
  }

  /** A string that contains `x + y` contains `x` and contains `y`. */
  lemma ContainsPartsOf(s: string, x: string, y: string)
    requires Contains(s, x + y)
    ensures Contains(s, x) && Contains(s, y)
  {
    ContainsAt(s, x + y);
    var k :| OccursAt(s, x + y, k);
    assert s[k..k + |x|] == (x + y)[..|x|] == x;
    assert s[k + |x|..k + |x| + |y|] == (x + y)[|x|..] == y;
    assert OccursAt(s, x, k) && OccursAt(s, y, k + |x|);
    ContainsAt(s, x);
    ContainsAt(s, y);
  }

  // ----- case -----

  /** `toLowerCase()` on one character, for the ASCII letters. */
  function LowerChar(c: char): (d: char)
    ensures 'A' <= c <= 'Z' ==> d as int == c as int + 32
    ensures !('A' <= c <= 'Z') ==> d == c
  {
    if 'A' <= c <= 'Z' then (c as int + 32) as char else c
  }

  /** `toLowerCase()`, for the ASCII letters. */
  function ToLower(s: string): (r: string)
    ensures |r| == |s|
    ensures forall i | 0 <= i < |s| :: r[i] == LowerChar(s[i])
  {
    seq(|s|, i requires 0 <= i < |s| => LowerChar(s[i]))
  }

  lemma ToLowerIdempotent(s: string)
    ensures ToLower(ToLower(s)) == ToLower(s)
  {
  }

  // ----- decimal rendering -----

  function DigitChar(d: nat): (c: char)
    requires d < 10
    ensures IsDigit(c) && c as int - '0' as int == d
  {
    ('0' as int + d) as char
  }

  /** `String(n)` for a non-negative integer. */
  function NatToString(n: nat): (r: string)
    ensures |r| >= 1 && AllDigits(r)
    ensures |r| > 1 ==> r[0] != '0'
    decreases n
  {
    if n < 10 then [DigitChar(n)] else NatToString(n / 10) + [DigitChar(n % 10)]
  }

  /** `String(i)` for any integer. */
  function IntToString(i: int): (r: string)
    ensures |r| >= 1
    ensures i < 0 <==> r[0] == '-'
  {
    if i < 0 then "-" + NatToString(-i) else NatToString(i)
  }

  /** The value of a string of decimal digits. */
  function DigitsValue(s: string): nat
    requires AllDigits(s)
    decreases |s|
  {
    if s == [] then 0
    else DigitsValue(s[..|s| - 1]) * 10 + (s[|s| - 1] as int - '0' as int)
  }

  /** Reading back the rendering of `n` gives `n`. */
  lemma {:induction false} NatToStringRoundTrip(n: nat)
    ensures DigitsValue(NatToString(n)) == n
    decreases n
  {
    if n >= 10 {
      NatToStringRoundTrip(n / 10);
      var r := NatToString(n);
      assert r[..|r| - 1] == NatToString(n / 10);
    }
  }

  lemma NatToStringInjective(m: nat, n: nat)
    ensures NatToString(m) == NatToString(n) ==> m == n
  {
    NatToStringRoundTrip(m);
    NatToStringRoundTrip(n);
  }

  lemma IntToStringInjective(i: int, j: int)
    ensures IntToString(i) == IntToString(j) ==> i == j
  {
    if IntToString(i) == IntToString(j) {
      if i < 0 {
        assert IntToString(i)[1..] == NatToString(-i);
        assert IntToString(j)[1..] == NatToString(-j);
        NatToStringInjective(-i, -j);
      } else {
        NatToStringInjective(i, j);
      }
    }
  }

  // ----- ordering -----

  /** JavaScript's default string comparison `a < b` (code point by code point). */
  predicate LexLess(a: string, b: string)
    decreases |a|
  {
    if a == [] then b != []
    else b != [] && (a[0] < b[0] || (a[0] == b[0] && LexLess(a[1..], b[1..])))
  }

  lemma {:induction false} LexLessIrreflexive(a: string)
    ensures !LexLess(a, a)
    decreases |a|
  {
    if a != [] {
      LexLessIrreflexive(a[1..]);
    }
  }

  lemma {:induction false} LexLessTransitive(a: string, b: string, c: string)
    requires LexLess(a, b) && LexLess(b, c)
    ensures LexLess(a, c)
    decreases |a|
  {
    if a != [] && b != [] && c != [] && a[0] == b[0] && b[0] == c[0] {
      LexLessTransitive(a[1..], b[1..], c[1..]);
    }
  }
}
