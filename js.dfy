/**
 * The part of JavaScript's value semantics that the bot's decision logic
 * depends on: which values are falsy, what `a || b` yields, how a value is
 * spelled inside a template literal, how `parseFloat`, `Number(...)` and
 * `isNaN` read a string, and which characters `\s` and `trim()` treat as
 * white space.
 *
 * Numbers are exact decimals (units / 10^scale). That is how MySQL DECIMAL
 * columns and the coordinates sent by the chat client are written; the
 * rounding of IEEE doubles is not part of this model.
 */
module Js {

  datatype Option<T> = None | Some(value: T)

  /** The outcome of a call that may throw: its value, or the thrown error's message. */
  datatype Reply<T> = Ok(value: T) | Fault(message: string)

  /** The exact decimal number units / 10^scale. */
  datatype Decimal = Decimal(units: int, scale: nat)

  /** A JavaScript value as it comes out of a database row or a chat message. */
  datatype Value = Undefined | Null | Bool(b: bool) | Num(n: Decimal) | NaN | Str(s: string)

  function Pow10(k: nat): (p: nat)
    ensures p >= 1
  {
    if k == 0 then 1 else 10 * Pow10(k - 1)
  }

  function RealOf(d: Decimal): real
  {
    d.units as real / Pow10(d.scale) as real
  }

  // ---------------------------------------------------------------------
  // Truthiness and `||`
  // ---------------------------------------------------------------------

  /** JavaScript's ToBoolean: undefined, null, false, 0, -0, NaN and "" are falsy. */
  predicate Truthy(v: Value)
  {
    match v
    case Undefined => false
    case Null => false
    case Bool(b) => b
    case Num(d) => d.units != 0
    case NaN => false
    case Str(s) => s != ""
  }

  /** A number is truthy exactly when its value is not zero, whatever its scale. */
  lemma TruthyNumIsNonZero(d: Decimal)
    ensures Truthy(Num(d)) <==> RealOf(d) != 0.0
  {
    var p := Pow10(d.scale) as real;
    assert p >= 1.0;
    if d.units != 0 {
      assert RealOf(d) * p == d.units as real;
    }
  }

  /** `v || fallback`. */
  function Or(v: Value, fallback: Value): Value
  {
    if Truthy(v) then v else fallback
  }

  /** `n || fallback` for a nullable integer column. */
  function IntOr(n: Option<int>, fallback: int): (r: int)
    ensures n.Some? && n.value != 0 ==> r == n.value
    ensures n.None? || n.value == 0 ==> r == fallback
  {
    if n.Some? && n.value != 0 then n.value else fallback
  }

  // ---------------------------------------------------------------------
  // Digits and the decimal spelling of numbers
  // ---------------------------------------------------------------------

  predicate IsDigit(c: char)
  {
    '0' <= c <= '9'
  }

  predicate AllDigits(s: string)
  {
    forall i :: 0 <= i < |s| ==> IsDigit(s[i])
  }

  function DigitChar(k: nat): (c: char)
    requires k < 10
    ensures IsDigit(c)
  {
    (48 + k) as char
  }

  function DigitValue(c: char): (k: nat)
    requires IsDigit(c)
    ensures k < 10
  {
    c as int - 48
  }

  /** The value of a string of decimal digits, read left to right. */
  function DigitsValue(s: string): nat
    requires AllDigits(s)
  {
    if s == [] then 0 else DigitsValue(s[..|s| - 1]) * 10 + DigitValue(s[|s| - 1])
  }

  /** The shortest decimal spelling of a natural number. */
  function NatText(n: nat): (s: string)
    ensures |s| >= 1 && AllDigits(s)
    ensures s[0] == '0' ==> n == 0
  {
    if n < 10 then [DigitChar(n)] else NatText(n / 10) + [DigitChar(n % 10)]
  }

  /** Reading back the spelling of n gives n. */
  lemma {:induction false} NatTextRoundTrip(n: nat)
    ensures DigitsValue(NatText(n)) == n
  {
    if n >= 10 {
      var s := NatText(n);
      assert s[..|s| - 1] == NatText(n / 10);
      NatTextRoundTrip(n / 10);
    }
  }

  /** A number below 10^k is spelled with at most k digits. */
  lemma {:induction false} NatTextLength(n: nat, k: nat)
    requires k >= 1 && n < Pow10(k)
    ensures |NatText(n)| <= k
  {
    if n >= 10 {
      NatTextLength(n / 10, k - 1);
    }
  }

  /** Two runs of digits together are a run of digits. */
  lemma AllDigitsAppend(a: string, b: string)
    requires AllDigits(a) && AllDigits(b)
    ensures AllDigits(a + b)
  {
  }

  /** The digits of a + b are worth the digits of a shifted left by |b|, plus b. */
  lemma {:induction false} DigitsValueAppend(a: string, b: string)
    requires AllDigits(a) && AllDigits(b)
    ensures AllDigits(a + b)
    ensures DigitsValue(a + b) == DigitsValue(a) * Pow10(|b|) + DigitsValue(b)
  {
    assert AllDigits(a + b);
    if b == [] {
      assert a + b == a;
    } else {
      var c := a + b;
      var b' := b[..|b| - 1];
      var last := DigitValue(b[|b| - 1]);
      assert c[..|c| - 1] == a + b';
      assert c[|c| - 1] == b[|b| - 1];
      DigitsValueAppend(a, b');
      var x, y, p := DigitsValue(a), DigitsValue(b'), Pow10(|b'|);
      assert DigitsValue(c) == DigitsValue(a + b') * 10 + last;
      assert DigitsValue(b) == y * 10 + last;
      assert Pow10(|b|) == p * 10;
      ShiftDigit(x, y, p, last);
    }
  }

  lemma ShiftDigit(x: int, y: int, p: int, last: int)
    ensures (x * p + y) * 10 + last == x * (p * 10) + (y * 10 + last)
  {
  }

  function Zeros(k: nat): (s: string)
    ensures |s| == k && AllDigits(s)
  {
    if k == 0 then [] else Zeros(k - 1) + ['0']
  }

  lemma {:induction false} ZerosValue(k: nat)
    ensures DigitsValue(Zeros(k)) == 0
  {
    if k > 0 {
      ZerosValue(k - 1);
    }
  }

  /** s padded on the left with zeros to width k. */
  function PadLeft(s: string, k: nat): (r: string)
    ensures |r| == if |s| < k then k else |s|
  {
    if |s| < k then Zeros(k - |s|) + s else s
  }

  /** The decimal spelling of an integer, with a minus sign when negative. */
  function IntText(i: int): string
  {
    if i < 0 then "-" + NatText(-i) else NatText(i)
  }

  function Abs(i: int): nat
  {
    if i < 0 then -i else i
  }

  /** The same number with its trailing fractional zeros removed. */
  function Normalize(d: Decimal): (r: Decimal)
    ensures RealOf(r) == RealOf(d)
    ensures r.scale <= d.scale
    ensures r.scale > 0 ==> r.units % 10 != 0
    decreases d.scale
  {
    if d.scale > 0 && d.units % 10 == 0 then
      var next := Decimal(d.units / 10, d.scale - 1);
      assert RealOf(next) == RealOf(d) by {
        var p := Pow10(d.scale - 1) as real;
        assert d.units as real == 10.0 * (d.units / 10) as real;
        assert Pow10(d.scale) as real == 10.0 * p;
      }
      Normalize(next)
    else
      d
  }

  lemma DivModBounds(a: nat, p: nat)
    requires p >= 1
    ensures 0 <= a / p && 0 <= a % p < p && a == a / p * p + a % p
  {
  }

  /**
   * How JavaScript spells a number (Number::toString): no trailing zeros in
   * the fraction, no point for a whole number, "0" for zero.
   */
  function NumberText(d: Decimal): string
  {
    var m := Normalize(d);
    if m.scale == 0 then IntText(m.units) else PointText(m.units, m.scale)
  }

  /** units / 10^k spelled with exactly k digits after the point. */
  function PointText(units: int, k: nat): string
    requires k >= 1
  {
    var a := Abs(units);
    var p := Pow10(k);
    DivModBounds(a, p);
    (if units < 0 then "-" else "") + NatText(a / p) + "." + PadLeft(NatText(a % p), k)
  }

  // ---------------------------------------------------------------------
  // White space (`\s` in a regular expression and `String.prototype.trim`)
  // ---------------------------------------------------------------------

  /** The WhiteSpace and LineTerminator code points of ECMAScript. */
  predicate IsSpace(c: char)
  {
    c == '\t' || c == '\n' || c == '\U{000B}' || c == '\U{000C}' || c == '\r' || c == ' '
    || c == '\U{00A0}' || c == '\U{1680}' || ('\U{2000}' <= c <= '\U{200A}')
    || c == '\U{2028}' || c == '\U{2029}' || c == '\U{202F}' || c == '\U{205F}'
    || c == '\U{3000}' || c == '\U{FEFF}'
  }

  function TrimStart(s: string): (r: string)
    ensures |r| <= |s| && r == s[|s| - |r|..]
    ensures r != [] ==> !IsSpace(r[0])
    ensures forall i :: 0 <= i < |s| - |r| ==> IsSpace(s[i])
  {
    if s != [] && IsSpace(s[0]) then TrimStart(s[1..]) else s
  }

  function TrimEnd(s: string): (r: string)
    ensures |r| <= |s| && r == s[..|r|]
    ensures r != [] ==> !IsSpace(r[|r| - 1])
    ensures forall i :: |r| <= i < |s| ==> IsSpace(s[i])
  {
    if s != [] && IsSpace(s[|s| - 1]) then TrimEnd(s[..|s| - 1]) else s
  }

  /** `s.trim()`. */
  function Trim(s: string): string
  {
    TrimEnd(TrimStart(s))
  }

  // ---------------------------------------------------------------------
  // Reading numbers from strings
  // ---------------------------------------------------------------------

  /** The length of the run of decimal digits at the start of s. */
  function DigitRun(s: string): (n: nat)
    ensures n <= |s| && AllDigits(s[..n])
    ensures n < |s| ==> !IsDigit(s[n])
  {
    if s != [] && IsDigit(s[0]) then
      var n := 1 + DigitRun(s[1..]);
      assert s[..n] == [s[0]] + s[1..][..n - 1];
      n
    else
      0
  }

  /** 1 when s starts with a sign character, else 0. */
  function SignWidth(s: string): (k: nat)
    ensures k <= |s|
  {
    if s != [] && (s[0] == '+' || s[0] == '-') then 1 else 0
  }

  /**
   * The longest prefix of t that is an unsigned decimal literal, with digits
   * before the point, after it, or both (`12`, `.5`, `7.`, `1.25`): its length
   * (0 when t starts with none), the value of its digits and the number of
   * digits after the point.
   */
  function ScanUnsigned(t: string): (r: (nat, nat, nat))
    ensures r.0 <= |t|
  {
    var a := DigitRun(t);
    if a < |t| && t[a] == '.' then
      var f := t[a + 1..];
      var b := DigitRun(f);
      if a + b == 0 then (0, 0, 0)
      else
        AllDigitsAppend(t[..a], f[..b]);
        (a + 1 + b, DigitsValue(t[..a] + f[..b]), b)
    else if a == 0 then (0, 0, 0)
    else (a, DigitsValue(t[..a]), 0)
  }

  /**
   * The longest prefix of s that is a decimal literal with an optional sign:
   * its length (0 when s starts with none) and its value.
   */
  function ScanDecimal(s: string): (r: (nat, Decimal))
    ensures r.0 <= |s|
  {
    var k := SignWidth(s);
    var (n, magnitude, scale) := ScanUnsigned(s[k..]);
    if n == 0 then (0, Decimal(0, 0))
    else (k + n, Decimal(if k == 1 && s[0] == '-' then -(magnitude as int) else magnitude as int, scale))
  }

  /** `parseFloat(v)`: the decimal literal at the start of String(v) after leading white space, else NaN. */
  function ParseFloat(v: Value): (r: Value)
    ensures r.Num? || r.NaN?
  {
    var t := TrimStart(Text(v));
    var (n, d) := ScanDecimal(t);
    if n == 0 then NaN else Num(d)
  }

  /** `Number(s)` for a string: blank is 0, a whole decimal literal is its value, anything else NaN. */
  function StringToNumber(s: string): (r: Value)
    ensures r.Num? || r.NaN?
  {
    var t := Trim(s);
    if t == [] then Num(Decimal(0, 0))
    else
      var (n, d) := ScanDecimal(t);
      if n == |t| then Num(d) else NaN
  }

  /** JavaScript's ToNumber. */
  function ToNumber(v: Value): (r: Value)
    ensures r.Num? || r.NaN?
  {
    match v
    case Undefined => NaN
    case Null => Num(Decimal(0, 0))
    case Bool(b) => Num(Decimal(if b then 1 else 0, 0))
    case Num(_) => v
    case NaN => NaN
    case Str(s) => StringToNumber(s)
  }

  /** The global `isNaN(v)`, which converts its argument first. */
  predicate IsNaN(v: Value)
  {
    ToNumber(v).NaN?
  }

  /** `v < x` for a number literal x: false whenever v does not convert to a number. */
  predicate LessThan(v: Value, x: real)
  {
    var n := ToNumber(v);
    n.Num? && RealOf(n.n) < x
  }

  /** `v > x` for a number literal x. */
  predicate GreaterThan(v: Value, x: real)
  {
    var n := ToNumber(v);
    n.Num? && RealOf(n.n) > x
  }

  // ---------------------------------------------------------------------
  // Template literals
  // ---------------------------------------------------------------------

  /** What `${v}` inserts into a template literal (ToString). */
  function Text(v: Value): string
  {
    match v
    case Undefined => "undefined"
    case Null => "null"
    case Bool(b) => if b then "true" else "false"
    case Num(d) => NumberText(d)
    case NaN => "NaN"
    case Str(s) => s
  }

  // ---------------------------------------------------------------------
  // Round trips between spelling and reading numbers
  // ---------------------------------------------------------------------

  /** Scanning a run of digits that is followed by a non-digit or the end stops after the run. */
  lemma DigitRunOf(a: string, rest: string)
    requires AllDigits(a)
    requires rest != [] ==> !IsDigit(rest[0])
    ensures DigitRun(a + rest) == |a|
    decreases |a|
  {
    if a != [] {
      assert (a + rest)[1..] == a[1..] + rest;
      DigitRunOf(a[1..], rest);
    } else {
      assert a + rest == rest;
    }
  }

  /** A run of digits scans as itself. */
  lemma ScanWhole(w: string)
    requires |w| >= 1 && AllDigits(w)
    ensures ScanUnsigned(w) == (|w|, DigitsValue(w), 0)
  {
    DigitRunOf(w, []);
    assert w + [] == w;
    assert w[..|w|] == w;
  }

  /** The pieces ScanUnsigned looks at in digits, a point and more digits. */
  lemma FractionShape(w: string, f: string)
    requires |w| >= 1 && AllDigits(w) && AllDigits(f)
    ensures var t := w + "." + f;
            DigitRun(t) == |w| && t[|w|] == '.' && t[|w| + 1..] == f && t[..|w|] == w
  {
    var t := w + "." + f;
    assert t == w + ("." + f);
    DigitRunOf(w, "." + f);
  }

  lemma ScanUnsignedFraction(t: string, w: string, f: string)
    requires |w| >= 1 && AllDigits(w) && AllDigits(f)
    requires DigitRun(t) == |w| && |w| < |t| && t[|w|] == '.' && t[|w| + 1..] == f && t[..|w|] == w
    requires DigitRun(f) == |f| && f[..|f|] == f
    ensures AllDigits(w + f)
    ensures ScanUnsigned(t) == (|w| + 1 + |f|, DigitsValue(w + f), |f|)
  {
    AllDigitsAppend(w, f);
  }

  /** Digits, a point and more digits scan as the whole of it. */
  lemma ScanFraction(w: string, f: string)
    requires |w| >= 1 && AllDigits(w) && AllDigits(f)
    ensures AllDigits(w + f)
    ensures ScanUnsigned(w + "." + f) == (|w| + 1 + |f|, DigitsValue(w + f), |f|)
  {
    FractionShape(w, f);
    DigitRunOf(f, []);
    assert f + [] == f;
    assert f[..|f|] == f;
    ScanUnsignedFraction(w + "." + f, w, f);
  }

  /** ScanDecimal from the sign width and the unsigned scan after it. */
  lemma ScanDecimalOf(s: string, k: nat, n: nat, magnitude: nat, scale: nat)
    requires SignWidth(s) == k && ScanUnsigned(s[k..]) == (n, magnitude, scale) && n > 0
    ensures ScanDecimal(s) == (k + n, Decimal(if k == 1 && s[0] == '-' then -(magnitude as int) else magnitude as int, scale))
  {
  }

  /** A string that starts with no white space and scans as a whole has that value under `parseFloat`. */
  lemma ParseWholeLiteral(s: string, d: Decimal)
    requires s != [] && !IsSpace(s[0])
    requires ScanDecimal(s) == (|s|, d)
    ensures ParseFloat(Str(s)) == Num(d)
  {
    assert TrimStart(s) == s;
  }

  /** An optional minus sign in front of an unsigned literal that scans as a whole. */
  lemma SignedLiteral(units: int, s: string, t: string, k: nat)
    requires t != [] && IsDigit(t[0]) && ScanUnsigned(t) == (|t|, Abs(units), k)
    requires s == (if units < 0 then "-" else "") + t
    ensures ScanDecimal(s) == (|s|, Decimal(units, k))
  {
    if units < 0 {
      assert s[0] == '-' && s[1..] == t;
      ScanDecimalOf(s, 1, |t|, Abs(units), k);
    } else {
      assert s == t && s[0..] == t;
      assert s[0] == t[0] && IsDigit(s[0]);
      assert s[0] != '+' && s[0] != '-';
      assert SignWidth(s) == 0;
      ScanDecimalOf(s, 0, |t|, Abs(units), k);
    }
  }

  /** IntText spells an integer as a whole literal that scans to it. */
  lemma IntTextScans(i: int)
    ensures ScanDecimal(IntText(i)) == (|IntText(i)|, Decimal(i, 0))
  {
    var digits := NatText(Abs(i));
    ScanWhole(digits);
    NatTextRoundTrip(Abs(i));
    assert IsDigit(digits[0]);
    SignedLiteral(i, IntText(i), digits, 0);
  }

  /** `parseFloat` reads back every integer spelled by IntText. */
  lemma IntTextParses(i: int)
    ensures ParseFloat(Str(IntText(i))) == Num(Decimal(i, 0))
  {
    IntTextScans(i);
    ParseWholeLiteral(IntText(i), Decimal(i, 0));
  }

  /** Zero padding does not change what digits are worth. */
  lemma PaddedValue(r: nat, k: nat)
    requires k >= 1 && r < Pow10(k)
    ensures var frac := PadLeft(NatText(r), k);
            |frac| == k && AllDigits(frac) && DigitsValue(frac) == r
  {
    var low := NatText(r);
    NatTextLength(r, k);
    NatTextRoundTrip(r);
    if |low| < k {
      var z := Zeros(k - |low|);
      DigitsValueAppend(z, low);
      ZerosValue(k - |low|);
      assert DigitsValue(z + low) == 0 * Pow10(|low|) + r;
      assert PadLeft(low, k) == z + low;
    } else {
      assert PadLeft(low, k) == low;
    }
  }

  /** The digits around the point in PointText are worth the units. */
  lemma PointDigits(q: nat, r: nat, k: nat)
    requires k >= 1 && r < Pow10(k)
    ensures var frac := PadLeft(NatText(r), k);
            AllDigits(frac) && |frac| == k && AllDigits(NatText(q) + frac)
            && DigitsValue(NatText(q) + frac) == q * Pow10(k) + r
  {
    var frac := PadLeft(NatText(r), k);
    PaddedValue(r, k);
    DigitsValueAppend(NatText(q), frac);
    NatTextRoundTrip(q);
  }

  lemma PointTextShape(units: int, k: nat, q: nat, r: nat)
    requires k >= 1 && q == Abs(units) / Pow10(k) && r == Abs(units) % Pow10(k)
    ensures PointText(units, k)
         == (if units < 0 then "-" else "") + (NatText(q) + "." + PadLeft(NatText(r), k))
  {
  }

  /** Digits, a point and k digits worth v scan as a whole to v with scale k. */
  lemma FractionLiteral(w: string, f: string, v: nat, k: nat)
    requires |w| >= 1 && AllDigits(w) && AllDigits(f) && |f| == k
    requires AllDigits(w + f) && DigitsValue(w + f) == v
    ensures var t := w + "." + f;
            t != [] && IsDigit(t[0]) && ScanUnsigned(t) == (|t|, v, k)
  {
    var t := w + "." + f;
    assert IsDigit(w[0]) && t[0] == w[0];
    ScanFraction(w, f);
    assert |t| == |w| + 1 + |f|;
  }

  /** The unsigned part of PointText scans as a whole to q * 10^k + r with scale k. */
  lemma PointUnsignedScans(q: nat, r: nat, k: nat)
    requires k >= 1 && r < Pow10(k)
    ensures var t := NatText(q) + "." + PadLeft(NatText(r), k);
            t != [] && IsDigit(t[0]) && ScanUnsigned(t) == (|t|, q * Pow10(k) + r, k)
  {
    var w, f := NatText(q), PadLeft(NatText(r), k);
    PointDigits(q, r, k);
    assert |w| >= 1 && AllDigits(w) && AllDigits(f) && |f| == k;
    FractionLiteral(w, f, q * Pow10(k) + r, k);
  }

  /** PointText spells a whole literal that scans back to the same units and scale. */
  lemma PointTextScans(units: int, k: nat)
    requires k >= 1
    ensures ScanDecimal(PointText(units, k)) == (|PointText(units, k)|, Decimal(units, k))
  {
    var a := Abs(units);
    var p := Pow10(k);
    DivModBounds(a, p);
    var q, r := a / p, a % p;
    PointUnsignedScans(q, r, k);
    PointTextShape(units, k, q, r);
    SignedLiteral(units, PointText(units, k), NatText(q) + "." + PadLeft(NatText(r), k), k);
  }

  /**
   * `parseFloat(String(x))` is x: reading back the spelling of a number gives
   * the same number, with its trailing fractional zeros gone.
   */
  lemma NumberTextParses(d: Decimal)
    ensures ParseFloat(Num(d)) == Num(Normalize(d))
    ensures RealOf(Normalize(d)) == RealOf(d)
  {
    var m := Normalize(d);
    if m.scale == 0 {
      IntTextScans(m.units);
      ParseWholeLiteral(IntText(m.units), m);
    } else {
      PointTextScans(m.units, m.scale);
      var s := PointText(m.units, m.scale);
      assert s[0] == '-' || IsDigit(s[0]);
      ParseWholeLiteral(s, m);
    }
  }
}
