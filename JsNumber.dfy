/** The number conversions the dashboard performs on text: `Number(s)` on
    decimal literals, `parseInt(digits, 10)`, and the first match of the
    pattern `[0-9]+(\.[0-9]+)?`. Values are exact rationals (`real`); the
    rounding of IEEE doubles is not modelled. `None` stands for `NaN`. */
module JsNumber {
  import opened Wrappers
  import opened JsText

  function DigitVal(c: char): nat {
    if IsDigit(c) then c as int - '0' as int else 0
  }

  function Pow10(n: nat): (r: nat)
    ensures r >= 1
  {
    if n == 0 then 1 else 10 * Pow10(n - 1)
  }

  predicate AllDigits(s: string) {
    forall i :: 0 <= i < |s| ==> IsDigit(s[i])
  }

  /** The value of a string of decimal digits, most significant first. */
  function DigitsValue(ds: string): (v: nat)
    ensures v < Pow10(|ds|)
  {
    if ds == [] then 0 else DigitsValue(ds[..|ds| - 1]) * 10 + DigitVal(ds[|ds| - 1])
  }

  /** The length of the run of digits `s` starts with. */
  function LeadingDigits(s: string): (n: nat)
    ensures n <= |s|
    ensures AllDigits(s[..n])
    ensures n < |s| ==> !IsDigit(s[n])
  {
    if s != [] && IsDigit(s[0]) then
      var k := LeadingDigits(s[1..]);
      assert s[..k + 1] == [s[0]] + s[1..][..k];
      k + 1
    else 0
  }

  /** The position of the first digit of `s`, or `|s|` when it has none. */
  function FirstDigit(s: string): (k: nat)
    ensures k <= |s|
    ensures forall i :: 0 <= i < k ==> !IsDigit(s[i])
    ensures k < |s| ==> IsDigit(s[k])
  {
    if s == [] || IsDigit(s[0]) then 0 else 1 + FirstDigit(s[1..])
  }

  /** A decimal numeral found in a text: its position, its integer digits and
      its fraction digits (empty when it has no fractional part). */
  datatype Numeral = Numeral(start: nat, whole: string, frac: string)

  function NumeralValue(whole: string, frac: string): (v: real)
    ensures v >= 0.0
  {
    var d, p := DigitsValue(frac) as real, Pow10(|frac|) as real;
    assert d / p >= 0.0 by {
      assert p > 0.0 && d >= 0.0;
    }
    DigitsValue(whole) as real + d / p
  }

  /** The maximal run of digits of `t` that starts at `p`. */
  function DigitRunAt(t: string, p: nat): (w: string)
    requires p <= |t|
    ensures p + |w| <= |t| && t[p..p + |w|] == w && AllDigits(w)
    ensures p + |w| < |t| ==> !IsDigit(t[p + |w|])
  {
    var n := LeadingDigits(t[p..]);
    assert t[p..p + n] == t[p..][..n];
    t[p..p + n]
  }

  /** The fraction digits `(\.[0-9]+)?` takes right after position `e`:
      a dot followed by at least one digit, then as many digits as follow. */
  function FractionAt(t: string, e: nat): (f: string)
    requires e <= |t|
    ensures AllDigits(f)
    ensures f != [] <==> e + 1 < |t| && t[e] == '.' && IsDigit(t[e + 1])
    ensures f != [] ==> e + 1 + |f| <= |t| && t[e + 1..e + 1 + |f|] == f
    ensures f != [] && e + 1 + |f| < |t| ==> !IsDigit(t[e + 1 + |f|])
  {
    if e + 1 < |t| && t[e] == '.' && IsDigit(t[e + 1]) then DigitRunAt(t, e + 1) else ""
  }

  /** `m` is the leftmost, greedy match of `[0-9]+(\.[0-9]+)?` in `t`:
      nothing before it is a digit, the integer run is maximal, and a
      fraction is taken exactly when a dot followed by a digit comes next,
      and then maximally. */
  predicate IsLeftmostMatch(t: string, m: Numeral) {
    && m.start < |t|
    && (forall i :: 0 <= i < m.start ==> !IsDigit(t[i]))
    && m.whole == DigitRunAt(t, m.start)
    && |m.whole| > 0
    && m.start + |m.whole| <= |t|
    && m.frac == FractionAt(t, m.start + |m.whole|)
  }

  /** `t.match(/([0-9]+(\.[0-9]+)?)/)`: no match exactly when `t` has no
      digit, and otherwise the leftmost, greedy one. */
  function FirstNumeral(t: string): (r: Option<Numeral>)
    ensures r.None? <==> forall i :: 0 <= i < |t| ==> !IsDigit(t[i])
    ensures r.Some? ==> IsLeftmostMatch(t, r.value)
  {
    var p := FirstDigit(t);
    NoDigitIff(t);
    if p == |t| then None
    else
      LeftmostAt(t, p);
      Some(Numeral(p, DigitRunAt(t, p), FractionAt(t, p + |DigitRunAt(t, p)|)))
  }

  /** `t` has no digit exactly when its first digit would lie past its end. */
  lemma NoDigitIff(t: string)
    ensures FirstDigit(t) == |t| <==> forall i :: 0 <= i < |t| ==> !IsDigit(t[i])
  {
    if FirstDigit(t) < |t| {
      assert IsDigit(t[FirstDigit(t)]);
    }
  }

  /** The run of digits at the first digit, with the fraction after it, is
      the leftmost match. */
  lemma LeftmostAt(t: string, p: nat)
    requires p < |t| && IsDigit(t[p]) && forall i :: 0 <= i < p ==> !IsDigit(t[i])
    ensures IsLeftmostMatch(t, Numeral(p, DigitRunAt(t, p), FractionAt(t, p + |DigitRunAt(t, p)|)))
  {
    DigitRunNonEmpty(t, p);
  }

  /** A run of digits that starts at a digit holds that digit. */
  lemma DigitRunNonEmpty(t: string, p: nat)
    requires p < |t| && IsDigit(t[p])
    ensures |DigitRunAt(t, p)| > 0
  {
    assert t[p..][0] == t[p];
  }

  /** The decimal literal `b` without its sign: `digits`, `digits.`,
      `digits.digits` or `.digits`. */
  function UnsignedDecimal(b: string): (r: Option<real>)
    ensures AllDigits(b) && b != [] ==> r == Some(DigitsValue(b) as real)
  {
    var i := LeadingDigits(b);
    if i == |b| then
      assert b[..i] == b;
      if i > 0 then Some(DigitsValue(b) as real) else None
    else if b[i] != '.' then None
    else
      var rest := b[i + 1..];
      var j := LeadingDigits(rest);
      if j == |rest| && (i > 0 || j > 0) then Some(NumeralValue(b[..i], rest)) else None
  }

  /** `Number(s)` restricted to decimal literals: surrounding white space is
      ignored, the empty string is 0, an optional `+` or `-` sign may lead.
      Everything else (exponents, hexadecimal, `Infinity`) reads as `NaN`.
      So blank text is 0, digits read as their value, and a minus sign before
      digits negates it. */
  function StringToNumber(s: string): (r: Option<real>)
    ensures AllSpace(s) ==> r == Some(0.0)
    ensures s != [] && AllDigits(s) ==> r == Some(DigitsValue(s) as real)
    ensures |s| > 1 && s[0] == '-' && AllDigits(s[1..]) ==> r == Some(-(DigitsValue(s[1..]) as real))
  {
    BlankIffAllSpace(s);
    DigitsUntrimmed(s);
    var t := Trim(s);
    if t == [] then Some(0.0)
    else
      var body := if t[0] == '-' || t[0] == '+' then t[1..] else t;
      match UnsignedDecimal(body)
      case None => None
      case Some(v) => Some(if t[0] == '-' then -v else v)
  }

  /** Digits, with or without a leading minus sign, have nothing to trim. */
  lemma DigitsUntrimmed(s: string)
    ensures s != [] && AllDigits(s) ==> Trim(s) == s
    ensures |s| > 1 && s[0] == '-' && AllDigits(s[1..]) ==> Trim(s) == s
  {
    if s != [] && (AllDigits(s) || (|s| > 1 && s[0] == '-' && AllDigits(s[1..]))) {
      assert IsDigit(s[|s| - 1]) by {
        if !AllDigits(s) {
          assert s[1..][|s| - 2] == s[|s| - 1];
        }
      }
      TrimmedAlready(s);
    }
  }

  /** `Number(x) || 0`: `NaN` (and zero) become 0. */
  function OrZero(n: Option<real>): real {
    match n
    case Some(v) => v
    case None => 0.0
  }

  /** `s.replace(/\D/g, '')`: the digits of `s`, in order. */
  function KeepDigits(s: string): (r: string)
    ensures AllDigits(r)
    ensures |r| <= |s|
  {
    if s == [] then []
    else (if IsDigit(s[0]) then [s[0]] else []) + KeepDigits(s[1..])
  }

  /** A string that is already all digits is kept whole. */
  lemma {:induction false} KeepDigitsOfDigits(s: string)
    requires AllDigits(s)
    ensures KeepDigits(s) == s
  {
    if s != [] {
      KeepDigitsOfDigits(s[1..]);
    }
  }

  /** `parseInt(s.replace(/\D/g, '') || '0', 10)`: the value of the digits of `s`. */
  function DigitsOnlyValue(s: string): nat {
    DigitsValue(KeepDigits(s))
  }

  /** `s.replace(/[^0-9.-]+/g, '')`: digits, dots and minus signs, in order. */
  function KeepNumberChars(s: string): (r: string)
    ensures forall i :: 0 <= i < |r| ==> IsDigit(r[i]) || r[i] == '.' || r[i] == '-'
    ensures |r| <= |s|
  {
    if s == [] then []
    else (if IsDigit(s[0]) || s[0] == '.' || s[0] == '-' then [s[0]] else [])
         + KeepNumberChars(s[1..])
  }
}
