/** The value cleaners applied to every spreadsheet cell: `limparValor`
    turns a cell into a trimmed string or null, `paraNumero` into a number
    or null (source: src/lib/excelProcessor.ts). */
module Cleaning {
  import opened Wrappers
  import opened Text
  import opened JsNumbers

  /** A raw cell of the decoded sheet: `Missing` is JavaScript's `undefined`
      or `null` (an absent or blank cell); `Value(text)` is any other cell,
      carrying `String(value)`. */
  datatype Cell = Missing | Value(text: string)

  /** `s.toLowerCase() === 'nan'`. */
  predicate IsNanToken(s: string) {
    ToLower(s) == "nan"
  }

  /** The only spellings of the NaN marker are the eight casings of "nan". */
  lemma NanTokenSpellings(s: string)
    ensures IsNanToken(s) <==> |s| == 3 && (s[0] == 'n' || s[0] == 'N')
                                         && (s[1] == 'a' || s[1] == 'A')
                                         && (s[2] == 'n' || s[2] == 'N')
  {
    if IsNanToken(s) {
      assert ToLower(s)[0] == 'n' && ToLower(s)[1] == 'a' && ToLower(s)[2] == 'n';
    }
  }

  /** `limparValor`: null for an absent cell, for white space only and for
      any casing of "nan"; otherwise the trimmed text. */
  function LimparValor(c: Cell): (r: Option<string>)
    ensures c.Missing? ==> r.None?
    ensures c.Value? && Trim(c.text) == "" ==> r.None?
    ensures c.Value? && IsNanToken(Trim(c.text)) ==> r.None?
    ensures c.Value? && Trim(c.text) != "" && !IsNanToken(Trim(c.text)) ==> r == Some(Trim(c.text))
    ensures r.Some? ==> |r.value| > 0 && !IsSpace(r.value[0]) && !IsSpace(r.value[|r.value| - 1])
  {
    match c
    case Missing => None
    case Value(text) =>
      var str := Trim(text);
      if str == "" || IsNanToken(str) then None else Some(str)
  }

  /** Cleaning an already cleaned value changes nothing. */
  lemma LimparValorStable(c: Cell)
    requires LimparValor(c).Some?
    ensures LimparValor(Value(LimparValor(c).value)) == LimparValor(c)
  {
    TrimIdempotent(c.text);
  }

  /** A cell of white space only is null. */
  lemma LimparValorBlank(s: string)
    requires forall i :: 0 <= i < |s| ==> IsSpace(s[i])
    ensures LimparValor(Value(s)) == None
  {
    TrimEmptyIff(s);
  }

  /** A cell whose text is already clean is kept as it is. */
  lemma LimparValorClean(s: string)
    requires |s| > 0 && !IsSpace(s[0]) && !IsSpace(s[|s| - 1])
    requires !IsNanToken(s)
    ensures LimparValor(Value(s)) == Some(s)
  {
    TrimNoEnds(s);
  }

  lemma LimparValorNanExample()
    ensures LimparValor(Value("NaN")) == None
  {
    var s := "NaN";
    assert IsNanToken(s) by {
      NanTokenSpellings(s);
    }
    TrimNoEnds(s);
  }

  lemma LimparValorTrimExample()
    ensures LimparValor(Value(" Foo ")) == Some("Foo")
  {
    var foo := "Foo";
    assert " Foo " == [' '] + foo + [' '];
    NotNanByHead(foo);
    LimparValorPadded(foo);
  }

  /** A clean value padded with a space on each side cleans back to
      itself. */
  lemma LimparValorPadded(s: string)
    requires |s| > 0 && !IsSpace(s[0]) && !IsSpace(s[|s| - 1])
    requires !IsNanToken(s)
    ensures LimparValor(Value([' '] + s + [' '])) == Some(s)
  {
    TrimPadded(s);
  }

  /** `trim` removes one space on each side of text with non-space ends. */
  lemma TrimPadded(s: string)
    requires |s| > 0 && !IsSpace(s[0]) && !IsSpace(s[|s| - 1])
    ensures Trim([' '] + s + [' ']) == s
  {
    var x := s + [' '];
    var p := [' '] + s + [' '];
    assert p[0] == ' ' && p[1..] == x;
    assert TrimStart(p) == TrimStart(x);
    assert x[0] == s[0];
    assert TrimStart(x) == x;
    assert x[..|x| - 1] == s;
    assert TrimEnd(x) == TrimEnd(s);
  }

  /** A text not starting with 'n' or 'N' is not the NaN marker. */
  lemma NotNanByHead(s: string)
    requires |s| > 0 && s[0] != 'n' && s[0] != 'N'
    ensures !IsNanToken(s)
  {
    NanTokenSpellings(s);
  }

  /** `str.replace(',', '.')` with a string pattern: only the first comma. */
  function ReplaceFirstComma(s: string): (r: string)
    ensures |r| == |s|
    ensures forall i :: 0 <= i < |s| ==> r[i] == s[i] || (s[i] == ',' && r[i] == '.')
    ensures (forall i :: 0 <= i < |s| ==> s[i] != ',') ==> r == s
  {
    if |s| == 0 then ""
    else if s[0] == ',' then "." + s[1..]
    else [s[0]] + ReplaceFirstComma(s[1..])
  }

  /** The comma replaced is the first one, and no other character changes. */
  lemma {:induction false} ReplaceFirstCommaSplit(a: string, b: string)
    requires forall i :: 0 <= i < |a| ==> a[i] != ','
    ensures ReplaceFirstComma(a + "," + b) == a + "." + b
  {
    var s := a + "," + b;
    if |a| == 0 {
      assert s[0] == ',' && s[1..] == b;
    } else {
      var t := a[1..] + "," + b;
      assert s[0] == a[0] && s[1..] == t;
      ReplaceFirstCommaSplit(a[1..], b);
      assert ReplaceFirstComma(s) == [a[0]] + ReplaceFirstComma(t);
      assert a + "." + b == [a[0]] + (a[1..] + "." + b);
    }
  }

  /** `paraNumero`: null for an absent cell, white space only, "nan" in any
      casing, or text `parseFloat` cannot read once its first comma is taken
      as the decimal point; otherwise the number read. */
  function ParaNumero(c: Cell): (r: Option<JsNumber>)
    ensures c.Missing? ==> r.None?
    ensures c.Value? && Trim(c.text) == "" ==> r.None?
    ensures c.Value? && IsNanToken(Trim(c.text)) ==> r.None?
    ensures c.Value? && Trim(c.text) != "" && !IsNanToken(Trim(c.text)) ==>
              r == ParseFloat(ReplaceFirstComma(Trim(c.text)))
  {
    match c
    case Missing => None
    case Value(text) =>
      var str := ReplaceFirstComma(Trim(text));
      NanTokenUnaffected(Trim(text));
      if str == "" || IsNanToken(str) then None
      else ParseFloat(str)
  }

  /** Replacing the first comma never creates or destroys the NaN marker. */
  lemma NanTokenUnaffected(s: string)
    ensures IsNanToken(ReplaceFirstComma(s)) <==> IsNanToken(s)
  {
    var r := ReplaceFirstComma(s);
    NanTokenSpellings(s);
    NanTokenSpellings(r);
    if IsNanToken(r) || IsNanToken(s) {
      assert r[0] == s[0] && r[1] == s[1] && r[2] == s[2];
      assert r == s;
    }
  }

  /** Comma as decimal separator: "<digits>,<digits>" reads as the decimal
      number with those digits, so "1,5" gives 1.5. */
  lemma ParaNumeroComma(a: string, b: string)
    requires |a| > 0 && |b| > 0
    requires forall i :: 0 <= i < |a| ==> IsDigit(a[i])
    requires forall i :: 0 <= i < |b| ==> IsDigit(b[i])
    ensures ParaNumero(Value(a + "," + b)) == Some(Finite(DecimalValue(a, b)))
  {
    CommaText(a, b, a + "," + b);
    ParseFloatDecimal(a, b);
  }

  /** "<digits>,<digits>" is already trimmed, is not the NaN marker, and
      has its comma turned into a point. */
  lemma CommaText(a: string, b: string, s: string)
    requires |a| > 0 && |b| > 0
    requires forall i :: 0 <= i < |a| ==> IsDigit(a[i])
    requires forall i :: 0 <= i < |b| ==> IsDigit(b[i])
    requires s == a + "," + b
    ensures Trim(s) == s && !IsNanToken(s)
    ensures ReplaceFirstComma(s) == a + "." + b
  {
    assert Trim(s) == s by {
      assert s[0] == a[0] && s[|s| - 1] == b[|b| - 1];
      TrimNoEnds(s);
    }
    assert !IsNanToken(s) by {
      assert s[0] == a[0];
      NanTokenSpellings(s);
    }
    ReplaceFirstCommaSplit(a, b);
  }

  /** A natural number written out in decimal reads back as itself. */
  lemma ParaNumeroNat(n: nat)
    ensures ParaNumero(Value(NatToString(n))) == Some(Finite(n as real))
  {
    var s := NatToString(n);
    DigitsClean(s);
    ParseFloatNatToString(n);
  }

  /** A string of digits is already trimmed, is not the NaN marker and has
      no comma to replace. */
  lemma DigitsClean(s: string)
    requires |s| > 0 && forall i :: 0 <= i < |s| ==> IsDigit(s[i])
    ensures Trim(s) == s && !IsNanToken(s) && ReplaceFirstComma(s) == s
  {
    assert IsDigit(s[0]) && IsDigit(s[|s| - 1]);
    TrimNoEnds(s);
    NanTokenSpellings(s);
  }

  lemma ParaNumeroDecimalExample()
    ensures ParaNumero(Value("1,5")) == Some(Finite(1.5))
  {
    assert "1" + "," + "5" == "1,5";
    DigitValues();
    ParaNumeroComma("1", "5");
  }

  lemma DigitValues()
    ensures DecimalValue("1", "5") == 1.5
  {
    assert "1"[..0] == "";
    assert "5"[1..] == "";
  }

  /** Every casing of "nan" is null, not a number. */
  lemma ParaNumeroNan(s: string)
    requires |s| == 3 && (s[0] == 'n' || s[0] == 'N') && (s[1] == 'a' || s[1] == 'A')
             && (s[2] == 'n' || s[2] == 'N')
    ensures ParaNumero(Value(s)) == None
  {
    NanTokenSpellings(s);
    TrimNoEnds(s);
  }

  /** Text starting with a lower-case letter other than `n` is null, as
      `parseFloat` finds no number at its start. */
  lemma ParaNumeroLetterStart(s: string)
    requires |s| > 0 && 'a' <= s[0] <= 'z' && s[0] != 'n' && !IsSpace(s[|s| - 1])
    ensures ParaNumero(Value(s)) == None
  {
    TrimNoEnds(s);
    NotNanByHead(s);
    var t := ReplaceFirstComma(s);
    assert t[0] == s[0];
    assert !StartsWith(t, "Infinity") by {
      assert t[0] != "Infinity"[0];
    }
    ParseFloatDefinedIff(t);
  }

  lemma ParaNumeroWordExample()
    ensures ParaNumero(Value("abc")) == None
  {
    ParaNumeroLetterStart("abc");
  }
}
