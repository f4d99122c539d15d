/** Python's number conversions as the controller uses them: `str(int)`, `int(str)`,
    `float(str)` (through `is_float`), and `round()` with ties to even. Floats are
    modelled as exact reals. */
module PyNum {
  import opened Text

  /** `str(n)` for a natural number. */
  function NatToString(n: nat): (s: string)
    ensures |s| >= 1 && AllDigits(s)
  {
    if n < 10 then [('0' as int + n) as char] else NatToString(n / 10) + [('0' as int + n % 10) as char]
  }

  /** `str(n)` for any integer. */
  function IntToString(n: int): (s: string)
  {
    if n < 0 then "-" + NatToString(-n) else NatToString(n)
  }

  /** `int(s)`: surrounding whitespace, an optional sign, then decimal digits; `None` where
      Python raises `ValueError`. */
  function ParseInt(s: string): (r: Option<int>)
  {
    ParseSigned(Strip(s))
  }

  /** `int(s)` once the surrounding whitespace is gone. */
  function ParseSigned(t: string): Option<int>
  {
    if |t| > 0 && (t[0] == '-' || t[0] == '+') then
      if IsNumeric(t[1..]) then Some(if t[0] == '-' then 0 - DigitsValue(t[1..]) as int else DigitsValue(t[1..]) as int) else None
    else if IsNumeric(t) then Some(DigitsValue(t))
    else None
  }

  lemma {:induction false} NatToStringValue(n: nat)
    ensures DigitsValue(NatToString(n)) == n
  {
    if n >= 10 {
      NatToStringValue(n / 10);
      var s := NatToString(n);
      assert s[..|s| - 1] == NatToString(n / 10);
    }
  }

  /** The text of a number holds neither spaces nor dots, and only digits after the sign. */
  lemma IntToStringChars(n: int)
    ensures ' ' !in IntToString(n) && '.' !in IntToString(n) && ',' !in IntToString(n)
    ensures |IntToString(n)| >= 1 && !IsSpace(IntToString(n)[0]) && !IsSpace(IntToString(n)[|IntToString(n)| - 1])
  {
    var d := if n < 0 then -n else n;
    assert forall i :: 0 <= i < |NatToString(d)| ==> IsDigit(NatToString(d)[i]);
  }

  /** `int(d) == v` for decimal digits `d` of value `v`. */
  lemma ParseDigits(d: string, v: nat)
    requires IsNumeric(d) && DigitsValue(d) == v
    ensures ParseInt(d) == Some(v)
  {
    StripUnchanged(d);
  }

  /** `int("-" + d) == -v` for decimal digits `d` of value `v`. */
  lemma ParseNegDigits(d: string, v: nat)
    requires IsNumeric(d) && DigitsValue(d) == v
    ensures ParseInt("-" + d) == Some(-(v as int))
  {
    var t := "-" + d;
    SignedText(d, t);
    StripUnchanged(t);
    ParseSignedNeg(t, d, v);
  }

  lemma SignedText(d: string, t: string)
    requires IsNumeric(d) && t == "-" + d
    ensures |t| >= 1 && t[0] == '-' && t[1..] == d && !IsSpace(t[0]) && !IsSpace(t[|t| - 1])
  {
    assert t[|t| - 1] == d[|d| - 1] && IsDigit(d[|d| - 1]);
  }

  lemma ParseSignedNeg(t: string, d: string, v: nat)
    requires |t| >= 1 && t[0] == '-' && t[1..] == d && IsNumeric(d) && DigitsValue(d) == v
    ensures ParseSigned(t) == Some(-(v as int))
  {
  }

  /** `int(str(n)) == n`. */
  lemma ParseIntToString(n: int)
    ensures ParseInt(IntToString(n)) == Some(n)
  {
    if n < 0 {
      NatToStringValue(-n);
      ParseNegDigits(NatToString(-n), -n);
    } else {
      NatToStringValue(n);
      ParseDigits(NatToString(n), n);
    }
  }

  lemma StripUnchanged(s: string)
    requires |s| >= 1 && !IsSpace(s[0]) && !IsSpace(s[|s| - 1])
    ensures Strip(s) == s
  {
  }

  /** The values `float(s)` can take. */
  datatype PyFloat = Finite(value: real) | Infinite(negative: bool) | NaN

  function LowerChar(c: char): char {
    if 'A' <= c <= 'Z' then (c as int - 'A' as int + 'a' as int) as char else c
  }

  function Lower(s: string): (r: string)
    ensures |r| == |s|
  {
    if |s| == 0 then "" else [LowerChar(s[0])] + Lower(s[1..])
  }

  function Pow10(k: nat): (p: nat)
    ensures p >= 1
  {
    if k == 0 then 1 else 10 * Pow10(k - 1)
  }

  /** The position of the first exponent marker `e` or `E`, if any. */
  function ExponentAt(s: string): (r: Option<nat>)
    ensures r.Some? ==> r.value < |s| && (s[r.value] == 'e' || s[r.value] == 'E')
  {
    if |s| == 0 then None
    else if s[0] == 'e' || s[0] == 'E' then Some(0)
    else match ExponentAt(s[1..]) case None => None case Some(i) => Some(i + 1)
  }

  /** A decimal mantissa `digits [. digits]` with at least one digit. */
  function MantissaValue(m: string): Option<real>
  {
    if Count(m, '.') > 1 then None
    else
      var (ip, fp) := if '.' in m then SplitOnce(m, '.') else (m, "");
      if AllDigits(ip) && AllDigits(fp) && |ip| + |fp| >= 1 then Some(PointValue(ip, fp)) else None
  }

  /** The value of the digits `ip`, a point, and the digits `fp`. */
  function PointValue(ip: string, fp: string): real
    requires AllDigits(ip) && AllDigits(fp)
  {
    (DigitsValue(ip) * Pow10(|fp|) + DigitsValue(fp)) as real / Pow10(|fp|) as real
  }

  /** The value of an unsigned finite float literal: mantissa, then optionally `e`/`E`, a sign and digits. */
  function DecimalValue(body: string): Option<real>
  {
    match ExponentAt(body)
    case None => MantissaValue(body)
    case Some(i) =>
      var e := body[i + 1..];
      var (eneg, edigits) := if |e| > 0 && (e[0] == '-' || e[0] == '+') then (e[0] == '-', e[1..]) else (false, e);
      if !IsNumeric(edigits) then None
      else match MantissaValue(body[..i])
        case None => None
        case Some(v) =>
          var p := Pow10(DigitsValue(edigits)) as real;
          Some(if eneg then v / p else v * p)
  }

  /** `float(s)`: `None` where Python raises `ValueError`. */
  function ParseFloat(s: string): (r: Option<PyFloat>)
  {
    var t := Strip(s);
    var neg := |t| > 0 && t[0] == '-';
    var body := if |t| > 0 && (t[0] == '-' || t[0] == '+') then t[1..] else t;
    var low := Lower(body);
    if low == "inf" || low == "infinity" then Some(Infinite(neg))
    else if low == "nan" then Some(NaN)
    else match DecimalValue(body)
      case None => None
      case Some(v) => Some(Finite(if neg then -v else v))
  }

  /** `is_float(s)` (pgart_misc_func.py): `float(s)` does not raise. */
  predicate IsFloat(s: string) { ParseFloat(s).Some? }

  /** Python's `round(x)`: the nearest integer, ties to the even one. */
  function RoundHalfEven(x: real): (r: int)
    ensures x - 1.0 / 2.0 <= r as real <= x + 1.0 / 2.0
    ensures (r as real == x - 1.0 / 2.0 || r as real == x + 1.0 / 2.0) ==> r % 2 == 0
  {
    var f := x.Floor;
    var d := x - f as real;
    if d < 1.0 / 2.0 then f
    else if d > 1.0 / 2.0 then f + 1
    else if f % 2 == 0 then f else f + 1
  }

  /** Python's `round(x, 2)`. */
  function Round2(x: real): (r: real)
    ensures x - 1.0 / 200.0 <= r <= x + 1.0 / 200.0
  {
    RoundHalfEven(x * 100.0) as real / 100.0
  }

  lemma ShiftDigit(a: int, p: int, b: int, c: int)
    ensures (a * p + b) * 10 + c == a * (10 * p) + (b * 10 + c)
  {
  }

  /** The value of two digit strings written one after the other. */
  lemma {:induction false} DigitsAppend(x: string, y: string)
    requires AllDigits(x) && AllDigits(y)
    ensures AllDigits(x + y) && DigitsValue(x + y) == DigitsValue(x) * Pow10(|y|) + DigitsValue(y)
  {
    if |y| == 0 {
      assert x + y == x;
    } else {
      var y' := y[..|y| - 1];
      var c := (y[|y| - 1] as int) - ('0' as int);
      DigitsAppend(x, y');
      assert (x + y)[..|x + y| - 1] == x + y';
      assert (x + y)[|x + y| - 1] == y[|y| - 1];
      assert DigitsValue(x + y) == DigitsValue(x + y') * 10 + c;
      ShiftDigit(DigitsValue(x), Pow10(|y'|), DigitsValue(y'), c);
    }
  }

  /** `round(x, 2)` is a whole number of hundredths. */
  lemma Round2Hundredths(x: real)
    ensures (Round2(x) * 100.0).Floor as real == Round2(x) * 100.0
  {
  }

  /** The decimals of `str(x)` for `x` with `frac` hundredths after the point: two digits, or
      one where the second would be a trailing zero. */
  function FractionDigits(frac: nat): (f: string)
    requires frac < 100
    ensures AllDigits(f) && 1 <= |f| <= 2
    ensures DigitsValue(f) * Pow10(2 - |f|) == frac
  {
    var tens := [('0' as int + frac / 10) as char];
    if frac % 10 == 0 then tens
    else
      var units := [('0' as int + frac % 10) as char];
      DigitsAppend(tens, units);
      tens + units
  }

  /** `str(x)` for a float `x` that is a whole number of hundredths, as `round(_, 2)` returns:
      the integer part, a point and the shortest decimals (`0.35`, `1.5`, `2.0`, `-0.05`).
      Python switches to an exponent from `10^16` on; such prices are not modelled. */
  function HundredthsText(x: real): (s: string)
    ensures forall i :: 0 <= i < |s| ==> IsDigit(s[i]) || s[i] == '.' || s[i] == '-'
  {
    var k := (x * 100.0).Floor;
    if k < 0 then "-" + UnsignedHundredths(-k) else UnsignedHundredths(k)
  }

  /** The text of `m` hundredths without a sign: whole part, point, decimals. */
  function UnsignedHundredths(m: nat): (s: string)
    ensures forall i :: 0 <= i < |s| ==> IsDigit(s[i]) || s[i] == '.'
  {
    NatToString(m / 100) + "." + FractionDigits(m % 100)
  }

  /** No `e` or `E` in `s`: the float literal has no exponent. */
  lemma {:induction false} NoExponent(s: string)
    requires forall i :: 0 <= i < |s| ==> s[i] != 'e' && s[i] != 'E'
    ensures ExponentAt(s) == None
  {
    if |s| > 0 {
      NoExponent(s[1..]);
    }
  }

  /** `float(d + "." + f)` for digit strings `d` (not empty) and `f`. */
  lemma DecimalRead(d: string, f: string)
    requires |d| >= 1 && AllDigits(d) && AllDigits(f)
    ensures DecimalValue(d + "." + f) == Some(PointValue(d, f))
  {
    var m := d + "." + f;
    forall i | 0 <= i < |m| ensures m[i] != 'e' && m[i] != 'E' {
      if i < |d| { assert m[i] == d[i]; } else if i > |d| { assert m[i] == f[i - |d| - 1]; }
    }
    NoExponent(m);
    MantissaRead(d, f);
  }

  /** The mantissa `d + "." + f` has one point, with `d` before it and `f` after. */
  lemma MantissaRead(d: string, f: string)
    requires |d| >= 1 && AllDigits(d) && AllDigits(f)
    ensures MantissaValue(d + "." + f) == Some(PointValue(d, f))
  {
    var m := d + "." + f;
    assert '.' !in d && '.' !in f by {
      assert forall i :: 0 <= i < |d| ==> IsDigit(d[i]);
      assert forall i :: 0 <= i < |f| ==> IsDigit(f[i]);
    }
    assert Count(m, '.') == 1 by {
      CountAppend(d + ".", f, '.');
      CountAppend(d, ".", '.');
      CountNone(d, '.');
      CountNone(f, '.');
    }
    assert '.' in m && SplitOnce(m, '.') == (d, f) by {
      SplitOnceAt(d, f, '.');
    }
  }

  /** A text without `c` counts none. */
  lemma {:induction false} CountNone(s: string, c: char)
    requires c !in s
    ensures Count(s, c) == 0
  {
    if |s| > 0 {
      CountNone(s[1..], c);
    }
  }

  /** `float(str(x)) == x` for a price that is a whole number of hundredths and not negative:
      the text reads back as the price. */
  lemma HundredthsRoundTrip(x: real)
    requires 0.0 <= x && (x * 100.0).Floor as real == x * 100.0
    ensures ParseFloat(HundredthsText(x)) == Some(Finite(x))
  {
    var k: nat := (x * 100.0).Floor;
    UnsignedText(x, k);
    UnsignedRead(k);
    assert k as real / 100.0 == x;
    ReadSame(HundredthsText(x), UnsignedHundredths(k), k as real / 100.0, x);
  }

  /** A price that is not negative is written without a sign. */
  lemma UnsignedText(x: real, k: nat)
    requires 0.0 <= x && k as real == x * 100.0
    ensures HundredthsText(x) == UnsignedHundredths(k)
  {
  }

  /** Equal texts read as the same float. */
  lemma ReadSame(a: string, b: string, v: real, w: real)
    requires a == b && ParseFloat(b) == Some(Finite(v)) && v == w
    ensures ParseFloat(a) == Some(Finite(w))
  {
  }

  /** The unsigned text of `m` hundredths reads back as `m / 100`. */
  lemma UnsignedRead(m: nat)
    ensures ParseFloat(UnsignedHundredths(m)) == Some(Finite(m as real / 100.0))
  {
    HundredthsBody(m);
    ReadUnsigned(UnsignedHundredths(m), m as real / 100.0);
  }

  /** The text of `m` hundredths without a sign starts and ends with a digit and reads back as
      `m / 100`. */
  lemma HundredthsBody(m: nat)
    ensures var body := UnsignedHundredths(m);
            |body| >= 3 && IsDigit(body[0]) && IsDigit(body[|body| - 1])
            && DecimalValue(body) == Some(m as real / 100.0)
  {
    var d, f := NatToString(m / 100), FractionDigits(m % 100);
    var body := d + "." + f;
    assert body[0] == d[0] && body[|body| - 1] == f[|f| - 1];
    DecimalRead(d, f);
    HundredthsValue(m, f);
  }

  /** `float` of a literal that starts and ends with a digit is its decimal value. */
  lemma ReadUnsigned(body: string, v: real)
    requires |body| > 0 && IsDigit(body[0]) && IsDigit(body[|body| - 1]) && DecimalValue(body) == Some(v)
    ensures ParseFloat(body) == Some(Finite(v))
  {
    StripUnchanged(body);
    assert Lower(body)[0] == body[0];
    assert "inf"[0] == 'i' && "infinity"[0] == 'i' && "nan"[0] == 'n';
  }

  /** The value of `q.f` where `f` holds the last two digits of `m`, less a trailing zero. */
  lemma HundredthsValue(m: nat, f: string)
    requires AllDigits(f) && 1 <= |f| <= 2 && DigitsValue(f) * Pow10(2 - |f|) == m % 100
    ensures PointValue(NatToString(m / 100), f) == m as real / 100.0
  {
    var q, d, fv, p := m / 100, NatToString(m / 100), DigitsValue(f), Pow10(|f|);
    assert PointValue(d, f) == (DigitsValue(d) * p + fv) as real / p as real;
    NatToStringValue(q);
    if |f| == 1 {
      assert p == 10 && Pow10(2 - |f|) == 10;
      PointHundredths(m, q, fv, p, 10);
    } else {
      assert p == 100 && Pow10(2 - |f|) == 1;
      PointHundredths(m, q, fv, p, 1);
    }
  }

  /** `q + fv / p` is `m / 100` when `fv` scaled by `z` is the last two digits of `m`. */
  lemma PointHundredths(m: nat, q: nat, fv: nat, p: nat, z: nat)
    requires q == m / 100 && fv * z == m % 100 && p * z == 100
    ensures (q * p + fv) as real / p as real == m as real / 100.0
  {
    assert (q * p + fv) * z == m;
  }

  /** A whole number rounds to itself. */
  lemma RoundWhole(n: int)
    ensures RoundHalfEven(n as real) == n
  {
  }
}
