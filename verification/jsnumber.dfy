/** JavaScript's `parseFloat` over exact decimals: the longest prefix of the
    input that reads as a decimal literal (optional sign, digits, optional
    fraction, optional exponent) or as `Infinity`. Values are exact reals. */
module JsNumbers {
  import opened Wrappers
  import opened Text

  datatype JsNumber = Finite(value: real) | Infinite(negative: bool)

  /** Value of a run of decimal digits, read left to right. */
  function DigitsValue(ds: string): (v: nat)
    requires forall i :: 0 <= i < |ds| ==> IsDigit(ds[i])
  {
    if |ds| == 0 then 0
    else
      assert IsDigit(ds[|ds| - 1]);
      DigitsValue(ds[..|ds| - 1]) * 10 + (ds[|ds| - 1] as int - '0' as int)
  }

  /** Length of the run of digits that starts `s`. */
  function CountDigits(s: string): (k: nat)
    ensures k <= |s|
    ensures forall i :: 0 <= i < k ==> IsDigit(s[i])
    ensures k < |s| ==> !IsDigit(s[k])
  {
    if |s| > 0 && IsDigit(s[0]) then 1 + CountDigits(s[1..]) else 0
  }

  /** The exponent part `e`/`E`, optional sign, at least one digit; 0 when
      absent or malformed, since `parseFloat` then stops before the `e`. */
  function Exponent(s: string): int {
    if |s| >= 2 && (s[0] == 'e' || s[0] == 'E') then
      var neg := s[1] == '-';
      var body := if s[1] == '-' || s[1] == '+' then s[2..] else s[1..];
      var k := CountDigits(body);
      if k == 0 then 0
      else if neg then -(DigitsValue(body[..k]) as int)
      else DigitsValue(body[..k]) as int
    else 0
  }

  /** Value of the digits after a decimal point: `0.d1d2...`. */
  function FractionValue(ds: string): (v: real)
    requires forall i :: 0 <= i < |ds| ==> IsDigit(ds[i])
    ensures 0.0 <= v <= 1.0
  {
    if |ds| == 0 then 0.0
    else
      assert IsDigit(ds[0]);
      ((ds[0] as int - '0' as int) as real + FractionValue(ds[1..])) / 10.0
  }

  /** `m` times ten to the power `e`. */
  function Scale(m: real, e: int): real
    decreases if e < 0 then -e else e
  {
    if e == 0 then m
    else if e > 0 then Scale(m, e - 1) * 10.0
    else Scale(m, e + 1) / 10.0
  }

  /** `parseFloat(s)` for an already trimmed `s`; None stands for NaN. */
  function ParseFloat(s: string): Option<JsNumber> {
    var neg := |s| > 0 && s[0] == '-';
    var rest := if |s| > 0 && (s[0] == '-' || s[0] == '+') then s[1..] else s;
    if StartsWith(rest, "Infinity") then Some(Infinite(neg))
    else
      match Magnitude(rest)
      case None => None
      case Some(m) => Some(Finite(if neg then -m else m))
  }

  /** The digits before the decimal point. */
  function IntDigits(t: string): (w: string)
    ensures forall i :: 0 <= i < |w| ==> IsDigit(w[i])
  {
    t[..CountDigits(t)]
  }

  /** What follows the digits before the decimal point. */
  function AfterInt(t: string): string {
    t[CountDigits(t)..]
  }

  /** The digits after a leading `.` of `u`, if any. */
  function FracDigits(u: string): (f: string)
    ensures forall i :: 0 <= i < |f| ==> IsDigit(f[i])
  {
    if |u| > 0 && u[0] == '.' then u[1..1 + CountDigits(u[1..])] else ""
  }

  /** What follows the fraction digits (the `.` alone when no digit follows). */
  function AfterFrac(u: string): string {
    if |u| > 0 && u[0] == '.' then u[1 + CountDigits(u[1..])..] else u
  }

  /** The unsigned decimal literal at the start of `t`: digits, an optional
      `.` and fraction digits (at least one digit overall), then an optional
      exponent. */
  function Magnitude(t: string): Option<real> {
    var w := IntDigits(t);
    var f := FracDigits(AfterInt(t));
    if |w| == 0 && |f| == 0 then None
    else Some(Scale(DigitsValue(w) as real + FractionValue(f), Exponent(AfterFrac(AfterInt(t)))))
  }

  /** `parseFloat` reads a number exactly when, after an optional sign, the
      text starts with `Infinity`, with a digit, or with `.` and a digit. */
  lemma ParseFloatDefinedIff(s: string)
    ensures var rest := if |s| > 0 && (s[0] == '-' || s[0] == '+') then s[1..] else s;
            ParseFloat(s).Some?
            <==> StartsWith(rest, "Infinity")
                 || (|rest| > 0 && IsDigit(rest[0]))
                 || (|rest| > 1 && rest[0] == '.' && IsDigit(rest[1]))
  {
    var rest := if |s| > 0 && (s[0] == '-' || s[0] == '+') then s[1..] else s;
    var k := CountDigits(rest);
    if |rest| > 0 && IsDigit(rest[0]) {
      assert k > 0 && |IntDigits(rest)| > 0;
    } else {
      assert k == 0 && AfterInt(rest) == rest;
    }
  }

  /** No text at all, or a text without any digit and not naming
      `Infinity`, is NaN. */
  lemma ParseFloatEmpty()
    ensures ParseFloat("") == None
  {
    ParseFloatDefinedIff("");
  }

  lemma {:induction false} DigitsValueOfNatToString(n: nat)
    ensures DigitsValue(NatToString(n)) == n
  {
    var s := NatToString(n);
    if n >= 10 {
      DigitsValueOfNatToString(n / 10);
      assert s[..|s| - 1] == NatToString(n / 10);
    }
  }

  lemma {:induction false} CountDigitsAll(s: string)
    requires forall i :: 0 <= i < |s| ==> IsDigit(s[i])
    ensures CountDigits(s) == |s|
  {
    if |s| > 0 {
      CountDigitsAll(s[1..]);
    }
  }

  /** Reading back the decimal rendering of a natural number gives that
      number: `parseFloat(String(n)) == n`. */
  lemma ParseFloatNatToString(n: nat)
    ensures ParseFloat(NatToString(n)) == Some(Finite(n as real))
  {
    var s := NatToString(n);
    CountDigitsAll(s);
    DigitsValueOfNatToString(n);
    assert s[..|s|] == s;
    assert !StartsWith(s, "Infinity") by {
      assert IsDigit(s[0]);
    }
  }

  /** A text starting with a digit reads as its unsigned literal. */
  lemma ParseFloatDigitStart(s: string, v: real)
    requires |s| > 0 && IsDigit(s[0])
    requires Magnitude(s) == Some(v)
    ensures ParseFloat(s) == Some(Finite(v))
  {
    assert !StartsWith(s, "Infinity") by {
      assert s[0] != 'I';
    }
  }

  /** The value of the literal `<a>.<b>`. */
  function DecimalValue(a: string, b: string): real
    requires forall i :: 0 <= i < |a| ==> IsDigit(a[i])
    requires forall i :: 0 <= i < |b| ==> IsDigit(b[i])
  {
    DigitsValue(a) as real + FractionValue(b)
  }

  /** A literal `<digits>.<digits>` parses to the whole part plus the
      fraction. */
  lemma ParseFloatDecimal(a: string, b: string)
    requires |a| > 0 && |b| > 0
    requires forall i :: 0 <= i < |a| ==> IsDigit(a[i])
    requires forall i :: 0 <= i < |b| ==> IsDigit(b[i])
    ensures ParseFloat(a + "." + b) == Some(Finite(DecimalValue(a, b)))
  {
    var s := a + "." + b;
    assert s[0] == a[0];
    MagnitudeDecimal(a, b, s);
    ParseFloatDigitStart(s, DecimalValue(a, b));
  }

  lemma MagnitudeDecimal(a: string, b: string, s: string)
    requires |a| > 0 && |b| > 0
    requires forall i :: 0 <= i < |a| ==> IsDigit(a[i])
    requires forall i :: 0 <= i < |b| ==> IsDigit(b[i])
    requires s == a + "." + b
    ensures Magnitude(s) == Some(DecimalValue(a, b))
  {
    IntPartOfDecimal(a, "." + b);
    assert s == a + ("." + b);
    FracPartOfDecimal(b);
    MagnitudeNoExponent(a, b, s, "." + b);
  }

  lemma IntPartOfDecimal(a: string, t: string)
    requires forall i :: 0 <= i < |a| ==> IsDigit(a[i])
    requires |t| > 0 && !IsDigit(t[0])
    ensures IntDigits(a + t) == a && AfterInt(a + t) == t
  {
    CountDigitsPrefix(a, t);
    assert (a + t)[..|a|] == a;
    assert (a + t)[|a|..] == t;
  }

  lemma FracPartOfDecimal(b: string)
    requires forall i :: 0 <= i < |b| ==> IsDigit(b[i])
    ensures FracDigits("." + b) == b && AfterFrac("." + b) == ""
  {
    var t := "." + b;
    assert t[1..] == b;
    CountDigitsAll(b);
    assert t[1..1 + |b|] == b;
  }

  /** A literal whose parts are known and which has no exponent. */
  lemma MagnitudeNoExponent(a: string, b: string, s: string, t: string)
    requires |a| > 0
    requires IntDigits(s) == a && AfterInt(s) == t && FracDigits(t) == b && AfterFrac(t) == ""
    ensures Magnitude(s) == Some(DecimalValue(a, b))
  {
    var e := Exponent(AfterFrac(t));
    assert e == 0 by {
      assert AfterFrac(t) == "";
    }
    assert Magnitude(s) == Some(Scale(DigitsValue(a) as real + FractionValue(b), e));
  }

  /** Digits followed by a non-digit: the run stops at the non-digit. */
  lemma {:induction false} CountDigitsPrefix(a: string, t: string)
    requires forall i :: 0 <= i < |a| ==> IsDigit(a[i])
    requires |t| > 0 && !IsDigit(t[0])
    ensures CountDigits(a + t) == |a|
  {
    if |a| > 0 {
      assert (a + t)[1..] == a[1..] + t;
      CountDigitsPrefix(a[1..], t);
    } else {
      assert a + t == t;
    }
  }
}
