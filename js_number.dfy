/** The parts of JavaScript's number semantics the front-end helpers rely
    on: `parseInt`, `parseFloat` and `Number(string)` on decimal text, NaN and
    the infinities, `Math.round`, and division by zero.  Values are exact
    reals; exponent notation, hexadecimal and the text "Infinity" are not
    read. */
module JsNumber {
  import opened Text
  import opened Numeric
  import opened Wrappers

  /** A JavaScript number. */
  datatype Number = Finite(value: real) | NaN | Infinity(negative: bool)

  function Pow10(n: nat): (p: nat)
    ensures p >= 1
  {
    if n == 0 then 1 else 10 * Pow10(n - 1)
  }

  /** The longest run of decimal digits at the start of `s`. */
  function LeadingDigits(s: string): (d: string)
    ensures |d| <= |s| && d == s[..|d|] && AllDigits(d)
    ensures |d| < |s| ==> !IsDigit(s[|d|])
  {
    if s != [] && IsDigit(s[0]) then [s[0]] + LeadingDigits(s[1..]) else []
  }

  /** A string made only of digits is its own leading digit run. */
  lemma {:induction false} LeadingDigitsAll(d: string, rest: string)
    requires AllDigits(d) && (rest == [] || !IsDigit(rest[0]))
    ensures LeadingDigits(d + rest) == d
  {
    if d == [] {
      assert d + rest == rest;
    } else {
      assert (d + rest)[1..] == d[1..] + rest;
      LeadingDigitsAll(d[1..], rest);
    }
  }

  /** The value of the digits after a decimal point. */
  function FractionValue(d: string): (f: real)
    requires AllDigits(d)
    ensures 0.0 <= f < 1.0
  {
    DigitsBelow(d);
    QuotientBelowOne(DigitsValue(d), Pow10(|d|));
    DigitsValue(d) as real / Pow10(|d|) as real
  }

  lemma QuotientBelowOne(a: nat, b: nat)
    requires a < b
    ensures 0.0 <= a as real / b as real < 1.0
  {
    var q := a as real / b as real;
    assert q * b as real == a as real;
    assert (1.0 - q) * b as real == (b - a) as real;
  }

  lemma {:induction false} DigitsBelow(d: string)
    requires AllDigits(d)
    ensures DigitsValue(d) < Pow10(|d|)
  {
    if d != [] {
      DigitsBelow(d[..|d| - 1]);
      assert IsDigit(d[|d| - 1]);
    }
  }

  /** An unsigned decimal numeral found at the start of a string: how many
      characters it takes and its value. */
  datatype Scan = Scan(length: nat, magnitude: real)

  /** Digits, optionally followed by '.' and more digits, with at least one
      digit in all. */
  function ScanDecimal(t: string): (r: Option<Scan>)
    ensures r.Some? ==> 0 < r.value.length <= |t| && 0.0 <= r.value.magnitude
  {
    var ip := LeadingDigits(t);
    ScanParts(ip, t[|ip|..])
  }

  /** The numeral made of the integer digits `ip` and what follows them. */
  function ScanParts(ip: string, rest: string): (r: Option<Scan>)
    requires AllDigits(ip)
    ensures r.Some? ==> 0 < r.value.length <= |ip| + |rest| && 0.0 <= r.value.magnitude
    ensures r.None? <==> ip == [] && FractionDigits(rest) == []
  {
    var fp := FractionDigits(rest);
    if ip == [] && fp == [] then None
    else Some(Scan(|ip| + PointLength(rest) + |fp|, DigitsValue(ip) as real + FractionValue(fp)))
  }

  /** Whether the text after the integer digits starts with a decimal point. */
  predicate HasPoint(rest: string) { rest != [] && rest[0] == '.' }

  function PointLength(rest: string): nat { if HasPoint(rest) then 1 else 0 }

  /** The digits after the decimal point, if there is one. */
  function FractionDigits(rest: string): (fp: string)
    ensures AllDigits(fp) && PointLength(rest) + |fp| <= |rest|
  {
    if HasPoint(rest) then LeadingDigits(rest[1..]) else []
  }

  /** Whether the numeral starts with a minus sign. */
  predicate Negative(t: string) { t != [] && t[0] == '-' }

  /** The text after a leading '-' or '+', if any. */
  function Unsigned(t: string): (r: string)
    ensures |r| <= |t|
  {
    if t != [] && (t[0] == '-' || t[0] == '+') then t[1..] else t
  }

  function Signed(negative: bool, m: real): real { if negative then -m else m }

  /** A signed integer from its digits; NaN (here `None`) without digits. */
  function DigitsInt(negative: bool, d: string): Option<int>
    requires AllDigits(d)
  {
    if d == [] then None else Some(if negative then -(DigitsValue(d) as int) else DigitsValue(d))
  }

  /** `parseInt(s)` (base 10): leading white space, a sign, then the
      longest run of digits; NaN (here `None`) when there is none. */
  function ParseInt(s: string): Option<int> {
    var t := TrimStart(s);
    DigitsInt(Negative(t), LeadingDigits(Unsigned(t)))
  }

  /** A signed number from a scanned numeral; NaN without one. */
  function SignedScan(negative: bool, sc: Option<Scan>): (n: Number)
    ensures n.Finite? || n.NaN?
  {
    match sc
    case None => NaN
    case Some(x) => Finite(Signed(negative, x.magnitude))
  }

  /** `parseFloat(s)`: leading white space, a sign, then the longest
      decimal numeral; NaN when there is none. */
  function ParseFloat(s: string): (n: Number)
    ensures n.Finite? || n.NaN?
  {
    var t := TrimStart(s);
    SignedScan(Negative(t), ScanDecimal(Unsigned(t)))
  }

  /** The numeral `r` must be read whole, or the value is NaN. */
  function WholeNumeral(negative: bool, r: string): (n: Number)
    ensures n.Finite? || n.NaN?
  {
    match ScanDecimal(r)
    case None => NaN
    case Some(sc) => if sc.length == |r| then Finite(Signed(negative, sc.magnitude)) else NaN
  }

  /** `Number(s)`: white space around the text is ignored, blank text is 0,
      and anything but a whole signed numeral is NaN. */
  function ToNumber(s: string): (n: Number)
    ensures n.Finite? || n.NaN?
  {
    var t := Trim(s);
    if t == [] then Finite(0.0) else WholeNumeral(Negative(t), Unsigned(t))
  }

  /** A digit string read by `ScanDecimal` is taken whole, at its value. */
  lemma ScanDigits(d: string, rest: string)
    requires AllDigits(d) && d != [] && (rest == [] || (!IsDigit(rest[0]) && rest[0] != '.'))
    ensures ScanDecimal(d + rest) == Some(Scan(|d|, DigitsValue(d) as real))
  {
    LeadingDigitsAll(d, rest);
    assert (d + rest)[|d|..] == rest;
    ScanWithoutPoint(d, rest);
  }

  lemma ScanWithoutPoint(ip: string, rest: string)
    requires AllDigits(ip) && ip != [] && !HasPoint(rest)
    ensures ScanParts(ip, rest) == Some(Scan(|ip|, DigitsValue(ip) as real))
  {
    var none := FractionDigits(rest);
    assert none == [];
    assert DigitsValue(none) == 0 && Pow10(|none|) == 1;
    var v := DigitsValue(ip) as real;
    assert v + FractionValue(none) == v;
  }

  /** The digits of `|i|`. */
  function Magnitude(i: int): (d: string)
    ensures d != [] && AllDigits(d) && DigitsValue(d) == if i < 0 then -i else i
  {
    NatToStringValue(if i < 0 then -i else i);
    NatToString(if i < 0 then -i else i)
  }

  /** A rendered integer followed by other text: no white space in front,
      the sign is '-' exactly for a negative number, and the digits of the
      magnitude come next. */
  lemma RenderedParts(i: int, rest: string)
    ensures var t := IntToString(i) + rest;
      TrimStart(t) == t && (Negative(t) <==> i < 0) && Unsigned(t) == Magnitude(i) + rest
  {
    var m := Magnitude(i);
    assert IsDigit(m[0]);
    if i < 0 {
      assert IntToString(i) == "-" + m;
      MinusParts(m, rest);
    } else {
      assert IntToString(i) == m;
      DigitParts(m, rest);
    }
  }

  lemma MinusParts(m: string, rest: string)
    requires m != [] && IsDigit(m[0])
    ensures var t := "-" + m + rest; TrimStart(t) == t && Negative(t) && Unsigned(t) == m + rest
  {
    var t := "-" + m + rest;
    assert t[0] == '-' && t[1..] == m + rest;
  }

  lemma DigitParts(m: string, rest: string)
    requires m != [] && IsDigit(m[0])
    ensures var t := m + rest; TrimStart(t) == t && !Negative(t) && Unsigned(t) == t
  {
    var t := m + rest;
    var c := t[0];
    assert c == m[0];
    assert c != '-' && c != '+' && !IsJsSpace(c);
  }

  /** `parseInt` reads back a rendered integer, whatever non-digit text
      follows it ("12 months" gives 12). */
  lemma ParseIntRendered(i: int, rest: string)
    requires rest == [] || !IsDigit(rest[0])
    ensures ParseInt(IntToString(i) + rest) == Some(i)
  {
    RenderedParts(i, rest);
    LeadingDigitsAll(Magnitude(i), rest);
  }

  /** `parseFloat` reads back a rendered integer followed by text that does
      not continue the numeral. */
  lemma ParseFloatRendered(i: int, rest: string)
    requires rest == [] || (!IsDigit(rest[0]) && rest[0] != '.')
    ensures ParseFloat(IntToString(i) + rest) == Finite(i as real)
  {
    RenderedParts(i, rest);
    ScanDigits(Magnitude(i), rest);
  }

  /** `Number` reads back a rendered integer. */
  lemma ToNumberRendered(i: int)
    ensures ToNumber(IntToString(i)) == Finite(i as real)
  {
    var s := IntToString(i);
    RenderedParts(i, []);
    assert s + [] == s && Magnitude(i) + [] == Magnitude(i);
    assert TrimEnd(s) == s by { assert IsDigit(Magnitude(i)[|Magnitude(i)| - 1]); }
    ScanDigits(Magnitude(i), []);
  }

  /** Text with a non-numeric character after a numeral is not a number,
      although `parseFloat` reads its start. */
  lemma ToNumberTrailingText(i: int, rest: string)
    requires rest != [] && !IsDigit(rest[0]) && rest[0] != '.' && !IsJsSpace(rest[|rest| - 1])
    ensures ToNumber(IntToString(i) + rest) == NaN
    ensures ParseFloat(IntToString(i) + rest) == Finite(i as real)
  {
    var s := IntToString(i) + rest;
    ParseFloatRendered(i, rest);
    RenderedParts(i, rest);
    assert TrimEnd(s) == s;
    ScanDigits(Magnitude(i), rest);
  }

  /** `a / b`. */
  function Div(a: real, b: real): (n: Number)
    ensures b != 0.0 ==> n == Finite(a / b)
    ensures b == 0.0 ==> (a == 0.0 <==> n.NaN?)
  {
    if b != 0.0 then Finite(a / b)
    else if a == 0.0 then NaN
    else Infinity(a < 0.0)
  }

  /** `n / b` for a number `n` that may be NaN or infinite. */
  function DivNumber(n: Number, b: real): (r: Number)
    ensures n.NaN? ==> r.NaN?
    ensures n.Finite? ==> r == Div(n.value, b)
  {
    match n
    case NaN => NaN
    case Finite(a) => Div(a, b)
    case Infinity(neg) => Infinity(if b < 0.0 then !neg else neg)
  }

  /** `Math.round(n)`. */
  function Round(n: Number): (r: Number)
    ensures n.Finite? ==> r == Finite(JsRound(n.value) as real)
    ensures !n.Finite? ==> r == n
  {
    match n
    case Finite(x) => Finite(JsRound(x) as real)
    case _ => n
  }

  /** Whether `n` is falsy: NaN or zero. */
  predicate Falsy(n: Number) { n == NaN || n == Finite(0.0) }

  /** `x || d` for a number `x`. */
  function Or(n: Number, d: Number): (r: Number)
    ensures Falsy(n) ==> r == d
    ensures !Falsy(n) ==> r == n
  {
    if Falsy(n) then d else n
  }
}
