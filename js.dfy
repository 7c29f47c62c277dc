/** The JavaScript value semantics the source depends on: `Number(...)`,
    `parseInt(..., 10)`, `parseFloat`, truthiness, the truncating `%`
    operator and `Math.round`. Numbers are exact rationals; IEEE rounding
    is not modelled. */
module Js {
  import opened Text

  datatype Option<T> = None | Some(value: T)

  /** A JavaScript number: NaN or a finite value. */
  datatype Num = NaN | Val(v: real)

  /** `Boolean(n)`: NaN and zero are falsy. */
  predicate NumTruthy(n: Num) { n.Val? && n.v != 0.0 }

  function Pow10(n: nat): (p: nat)
    ensures p >= 1
  {
    if n == 0 then 1 else 10 * Pow10(n - 1)
  }

  /** Index of the first `c` in `s`, or `|s|` when there is none. */
  function IndexOf(s: string, c: char): (k: nat)
    ensures k <= |s|
    ensures k < |s| ==> s[k] == c
    ensures forall i | 0 <= i < k :: s[i] != c
    decreases |s|
  {
    if s == [] then 0 else if s[0] == c then 0 else 1 + IndexOf(s[1..], c)
  }

  lemma {:induction false} IndexOfAppend(p: string, q: string, c: char)
    requires forall i | 0 <= i < |p| :: p[i] != c
    ensures IndexOf(p + q, c) == |p| + IndexOf(q, c)
    decreases |p|
  {
    if p != [] {
      assert (p + q)[1..] == p[1..] + q;
      IndexOfAppend(p[1..], q, c);
    } else {
      assert p + q == q;
    }
  }

  /** Length of the longest prefix of `s` made of ASCII digits. */
  function DigitRun(s: string): (n: nat)
    ensures n <= |s| && AllDigits(s[..n])
    ensures n < |s| ==> !IsDigit(s[n])
    decreases |s|
  {
    if s != [] && IsDigit(s[0]) then
      var n := 1 + DigitRun(s[1..]);
      assert s[..n] == [s[0]] + s[1..][..n - 1];
      n
    else 0
  }

  /** The value of `ip.fp` written in decimal. */
  function DecimalValue(ip: string, fp: string): real
    requires AllDigits(ip) && AllDigits(fp)
  {
    DigitsValue(ip) as real + DigitsValue(fp) as real / Pow10(|fp|) as real
  }

  /** An unsigned decimal literal `digits`, `digits.`, `.digits` or `digits.digits`. */
  function UnsignedDecimal(u: string): (r: Option<real>)
    ensures r.Some? ==> r.value >= 0.0
  {
    var k := IndexOf(u, '.');
    var ip := u[..k];
    var fp := if k < |u| then u[k + 1..] else "";
    if AllDigits(ip) && AllDigits(fp) && |ip| + |fp| > 0 then Some(DecimalValue(ip, fp))
    else None
  }

  /** `Number(s)` for strings: surrounding whitespace is ignored, the empty
      string is 0, an optional sign precedes a decimal literal; anything else
      is NaN. */
  function StringToNumber(s: string): (n: Num)
    ensures Trim(s) == "" ==> n == Val(0.0)
  {
    var t := Trim(s);
    if t == "" then Val(0.0)
    else
      var neg := t[0] == '-';
      var body := if t[0] == '-' || t[0] == '+' then t[1..] else t;
      match UnsignedDecimal(body)
      case None => NaN
      case Some(v) => Val(if neg then -v else v)
  }

  lemma TrimOfDigits(s: string)
    requires s != [] && AllDigits(s)
    ensures Trim(s) == s
  {
    assert IsDigit(s[0]) && IsDigit(s[|s| - 1]);
  }

  lemma UnsignedOfDigits(s: string)
    requires s != [] && AllDigits(s)
    ensures UnsignedDecimal(s) == Some(DigitsValue(s) as real)
  {
    var k := IndexOf(s, '.');
    assert k == |s|;
    assert s[..k] == s;
    assert DigitsValue("") == 0 && Pow10(0) == 1;
    assert DecimalValue(s, "") == DigitsValue(s) as real + 0.0 / 1.0;
  }

  /** `Number(s)` gives back `n` for the rendering of a natural number `n`. */
  lemma {:induction false} StringToNumberOfNat(n: nat)
    ensures StringToNumber(NatToString(n)) == Val(n as real)
  {
    var s := NatToString(n);
    TrimOfDigits(s);
    assert IsDigit(s[0]);
    UnsignedOfDigits(s);
    NatToStringRoundTrip(n);
  }

  /** `parseInt(s, 10)`: leading whitespace skipped, an optional sign, then
      the longest run of digits; NaN (`None`) when that run is empty. */
  function ParseIntJs(s: string): (r: Option<int>)
  {
    var t := TrimStart(s);
    var signed := t != [] && (t[0] == '-' || t[0] == '+');
    var body := if signed then t[1..] else t;
    var n := DigitRun(body);
    if n == 0 then None
    else
      var v: int := DigitsValue(body[..n]);
      Some(if signed && t[0] == '-' then -v else v)
  }

  /** `parseInt` of a rendered natural number gives it back. */
  lemma {:induction false} ParseIntOfNat(n: nat)
    ensures ParseIntJs(NatToString(n)) == Some(n)
  {
    var s := NatToString(n);
    assert IsDigit(s[0]);
    assert TrimStart(s) == s;
    var k := DigitRun(s);
    assert k == |s|;
    assert s[..k] == s;
    NatToStringRoundTrip(n);
  }

  /** `parseFloat(s)`: leading whitespace skipped, an optional sign, then the
      longest prefix of the form `digits[.digits]` with at least one digit;
      NaN otherwise. Exponents and `Infinity` are not modelled. */
  function ParseFloatJs(s: string): (n: Num)
  {
    var t := TrimStart(s);
    var neg := t != [] && t[0] == '-';
    var body := if t != [] && (t[0] == '-' || t[0] == '+') then t[1..] else t;
    var k := DigitRun(body);
    var ip := body[..k];
    var rest := body[k..];
    var f := if rest != [] && rest[0] == '.' then DigitRun(rest[1..]) else 0;
    var fp := if rest != [] && rest[0] == '.' then rest[1..][..f] else "";
    if k + |fp| == 0 then NaN
    else
      var v := DecimalValue(ip, fp);
      Val(if neg then -v else v)
  }

  /** `parseFloat` agrees with `Number` on a rendered natural number. */
  lemma {:induction false} ParseFloatOfNat(n: nat)
    ensures ParseFloatJs(NatToString(n)) == Val(n as real)
  {
    var s := NatToString(n);
    assert IsDigit(s[0]);
    assert TrimStart(s) == s;
    var k := DigitRun(s);
    assert k == |s|;
    assert s[..k] == s;
    assert DigitsValue("") == 0;
    NatToStringRoundTrip(n);
  }

  /** JavaScript `a % b` for a positive divisor: the remainder takes the sign
      of the dividend. */
  function JsRem(a: int, b: int): (r: int)
    requires b > 0
    ensures a >= 0 ==> 0 <= r < b
    ensures a < 0 ==> -b < r <= 0
    ensures a == JsQuot(a, b) * b + r
  {
    if a >= 0 then a % b
    else
      assert -a == ((-a) / b) * b + (-a) % b;
      -((-a) % b)
  }

  /** `Math.trunc(a / b)`: the quotient rounded toward zero. */
  function JsQuot(a: int, b: int): int
    requires b > 0
  {
    if a >= 0 then a / b else -((-a) / b)
  }

  /** `Math.round(x)`: halves round toward positive infinity. */
  function Round(x: real): (n: int)
    ensures n as real - 0.5 <= x < n as real + 0.5
  {
    (x + 0.5).Floor
  }
}
