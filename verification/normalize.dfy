/** `normalizar`: the canonical form in which column headers and configured
    aliases are compared (source: src/lib/excelProcessor.ts). The text is
    lower-cased, accents are removed, every run of white space (including
    the zero-width space) becomes one space, every `.` is deleted and the
    ends are trimmed. */
module Normalization {
  import opened Text

  /** The code points the white-space regular expression of `normalizar`
      matches: JavaScript `\s` plus the zero-width space U+200B. */
  predicate IsBlank(c: char) {
    IsSpace(c) || c as int == 0x200B
  }

  /** Combining diacritical marks, U+0300 to U+036F. */
  predicate IsMark(c: char) {
    0x300 <= c as int <= 0x36F
  }

  /** The base letter canonical decomposition (NFD) leaves once its
      combining mark is removed, for the lower-case accented letters of
      Latin-1; every other character is its own base. */
  function BaseLetter(c: char): (r: char)
    ensures !IsUpper(c) ==> !IsUpper(r)
    ensures !IsBlank(r) || r == c
    ensures r != '.' || c == '.'
    ensures !IsMark(r) || r == c
    ensures c == 'ç' ==> r == 'c'
    ensures c == 'á' || c == 'à' || c == 'â' || c == 'ã' ==> r == 'a'
    ensures c == 'é' || c == 'ê' ==> r == 'e'
    ensures c == 'í' ==> r == 'i'
    ensures c == 'ó' || c == 'ô' || c == 'õ' ==> r == 'o'
    ensures c == 'ú' ==> r == 'u'
  {
    var n := c as int;
    if 0xE0 <= n <= 0xE5 then 'a'
    else if n == 0xE7 then 'c'
    else if 0xE8 <= n <= 0xEB then 'e'
    else if 0xEC <= n <= 0xEF then 'i'
    else if n == 0xF1 then 'n'
    else if 0xF2 <= n <= 0xF6 then 'o'
    else if 0xF9 <= n <= 0xFC then 'u'
    else if n == 0xFD || n == 0xFF then 'y'
    else c
  }

  predicate IsAccented(c: char) {
    BaseLetter(c) != c
  }

  /** The characters `normalizar` can leave in its result. */
  predicate IsNormalChar(c: char) {
    !IsUpper(c) && !IsAccented(c) && !IsMark(c) && c != '.' && (IsBlank(c) ==> c == ' ')
  }

  /** Canonical decomposition (NFD), then removal of the marks U+0300 to
      U+036F, then `ç` replaced by `c`, applied to lower-cased text:
      accented letters lose their accent and stray combining marks
      disappear. */
  function StripAccents(s: string): (r: string)
    ensures forall c :: c in r ==> !IsAccented(c) && !IsMark(c)
    ensures forall c :: c in r ==> (exists d :: d in s && BaseLetter(d) == c)
    ensures (forall i :: 0 <= i < |s| ==> !IsMark(s[i])) ==>
              |r| == |s| && forall i :: 0 <= i < |s| ==> r[i] == BaseLetter(s[i])
  {
    if |s| == 0 then ""
    else
      var rest := StripAccents(s[1..]);
      assert forall c :: c in rest ==> (exists d :: d in s && BaseLetter(d) == c) by {
        forall c | c in rest ensures exists d :: d in s && BaseLetter(d) == c {
          var d :| d in s[1..] && BaseLetter(d) == c;
          assert d in s;
        }
      }
      if IsMark(s[0]) then rest else [BaseLetter(s[0])] + rest
  }

  /** Length of the run of blanks that starts `s`. */
  function BlankRun(s: string): (k: nat)
    ensures k <= |s|
    ensures forall i :: 0 <= i < k ==> IsBlank(s[i])
    ensures k < |s| ==> !IsBlank(s[k])
  {
    if |s| > 0 && IsBlank(s[0]) then 1 + BlankRun(s[1..]) else 0
  }

  /** The characters of `s` that are not blanks, in order. */
  function NonBlanks(s: string): string {
    if |s| == 0 then "" else (if IsBlank(s[0]) then "" else [s[0]]) + NonBlanks(s[1..])
  }

  lemma ConsNonBlanks(c: char, t: string)
    ensures NonBlanks([c] + t) == (if IsBlank(c) then "" else [c]) + NonBlanks(t)
  {
    assert ([c] + t)[1..] == t;
  }

  lemma {:induction false} NonBlanksAppend(a: string, b: string)
    ensures NonBlanks(a + b) == NonBlanks(a) + NonBlanks(b)
  {
    if |a| == 0 {
      assert a + b == b;
    } else {
      assert (a + b)[0] == a[0] && (a + b)[1..] == a[1..] + b;
      NonBlanksAppend(a[1..], b);
    }
  }

  lemma {:induction false} NonBlanksAllBlank(s: string)
    requires forall i :: 0 <= i < |s| ==> IsBlank(s[i])
    ensures NonBlanks(s) == ""
  {
    if |s| > 0 {
      NonBlanksAllBlank(s[1..]);
    }
  }

  lemma {:induction false} NonBlanksNoBlank(s: string)
    requires forall i :: 0 <= i < |s| ==> !IsBlank(s[i])
    ensures NonBlanks(s) == s
  {
    if |s| > 0 {
      NonBlanksNoBlank(s[1..]);
      assert s == [s[0]] + s[1..];
    }
  }

  /** Skipping a leading run of blanks loses no non-blank character. */
  lemma {:induction false} NonBlanksSkipRun(s: string, k: nat)
    requires k <= |s| && forall i :: 0 <= i < k ==> IsBlank(s[i])
    ensures NonBlanks(s) == NonBlanks(s[k..])
  {
    if k > 0 {
      NonBlanksSkipRun(s[1..], k - 1);
      assert s[1..][k - 1..] == s[k..];
    }
  }

  /** The replacement of each run of `\s`, U+00A0, U+200B or U+FEFF by one
      space: every maximal run of blanks becomes a single space. */
  function Collapse(s: string): (r: string)
    ensures forall c :: c in r ==> c in s || c == ' '
    ensures forall c :: c in r && IsBlank(c) ==> c == ' '
    ensures forall i :: 0 <= i < |r| - 1 ==> !(r[i] == ' ' && r[i + 1] == ' ')
    ensures |s| > 0 <==> |r| > 0
    ensures |r| > 0 ==> (IsBlank(r[0]) <==> IsBlank(s[0]))
    ensures NonBlanks(r) == NonBlanks(s)
    decreases |s|
  {
    if |s| == 0 then ""
    else if IsBlank(s[0]) then
      var k := BlankRun(s);
      var rest := Collapse(s[k..]);
      NonBlanksSkipRun(s, k);
      ConsNonBlanks(' ', rest);
      assert forall c :: c in rest ==> c in s || c == ' ' by {
        forall c | c in rest && c != ' ' ensures c in s {
          assert c in s[k..];
        }
      }
      [' '] + rest
    else
      var rest := Collapse(s[1..]);
      assert forall c :: c in rest ==> c in s || c == ' ' by {
        forall c | c in rest && c != ' ' ensures c in s {
          assert c in s[1..];
        }
      }
      assert s[0] != ' ';
      ConsNonBlanks(s[0], rest);
      ConsNonBlanks(s[0], s[1..]);
      assert s == [s[0]] + s[1..];
      [s[0]] + rest
  }

  /** `.replace(/\./g, '')`: deletes every full stop. */
  function DropDots(s: string): (r: string)
    ensures forall c :: c in r ==> c in s && c != '.'
    ensures (forall i :: 0 <= i < |s| ==> s[i] != '.') ==> r == s
  {
    if |s| == 0 then ""
    else
      var rest := DropDots(s[1..]);
      assert forall c :: c in rest ==> c in s by {
        forall c | c in rest ensures c in s {
          assert c in s[1..];
        }
      }
      if s[0] == '.' then rest else [s[0]] + rest
  }

  /** Deleting the points of a concatenation deletes them from each part:
      the characters kept stay in their order. */
  lemma {:induction false} DropDotsAppend(a: string, b: string)
    ensures DropDots(a + b) == DropDots(a) + DropDots(b)
  {
    if |a| == 0 {
      assert a + b == b;
    } else {
      assert (a + b)[0] == a[0] && (a + b)[1..] == a[1..] + b;
      DropDotsAppend(a[1..], b);
    }
  }

  /** Accents are stripped character by character: stripping a
      concatenation strips each part, keeping their order. */
  lemma {:induction false} StripAccentsAppend(a: string, b: string)
    ensures StripAccents(a + b) == StripAccents(a) + StripAccents(b)
  {
    if |a| == 0 {
      assert a + b == b;
    } else {
      assert (a + b)[0] == a[0] && (a + b)[1..] == a[1..] + b;
      StripAccentsAppend(a[1..], b);
    }
  }

  /** A non-blank character followed by anything: the runs after it are
      collapsed on their own, so collapsing keeps the text before it. */
  lemma {:induction false} CollapseSplit(a: string, b: string)
    requires |a| > 0 && !IsBlank(a[|a| - 1])
    ensures Collapse(a + b) == Collapse(a) + Collapse(b)
    decreases |a|
  {
    var s := a + b;
    assert s[0] == a[0];
    if IsBlank(a[0]) {
      var k := BlankRun(a);
      RunStopsInside(a, b);
      assert k < |a|;
      assert s[k..] == a[k..] + b;
      CollapseSplit(a[k..], b);
    } else if |a| == 1 {
      assert s[1..] == b;
      assert a[1..] == "";
    } else {
      assert s[1..] == a[1..] + b;
      CollapseSplit(a[1..], b);
    }
  }

  /** The blank run at the start of `a + b` ends inside `a` when `a` ends
      in a non-blank. */
  lemma {:induction false} RunStopsInside(a: string, b: string)
    requires |a| > 0 && !IsBlank(a[|a| - 1])
    ensures BlankRun(a + b) == BlankRun(a) < |a|
  {
    if IsBlank(a[0]) {
      assert (a + b)[1..] == a[1..] + b;
      RunStopsInside(a[1..], b);
    }
  }

  /** A whole run of blanks becomes one space. */
  lemma CollapseRun(s: string)
    requires |s| > 0 && forall i :: 0 <= i < |s| ==> IsBlank(s[i])
    ensures Collapse(s) == " "
  {
    AllBlankRun(s);
    assert s[|s|..] == "";
  }

  lemma {:induction false} AllBlankRun(s: string)
    requires forall i :: 0 <= i < |s| ==> IsBlank(s[i])
    ensures BlankRun(s) == |s|
  {
    if |s| > 0 {
      AllBlankRun(s[1..]);
    }
  }

  /** What `normalizar` keeps of one input character, white space aside:
      nothing for a combining mark or a point, otherwise its lower-case
      base letter. Blanks only ever survive as the single spaces between
      words. */
  function Kept(c: char): string {
    if IsMark(c) || IsBlank(c) || c == '.' then "" else [BaseLetter(ToLowerChar(c))]
  }

  /** The letters `normalizar` keeps of `s`, in order. */
  function Letters(s: string): string {
    if |s| == 0 then "" else Kept(s[0]) + Letters(s[1..])
  }

  /** Lower-casing neither creates nor removes a mark, a blank or a point. */
  lemma LowerCharFacts(c: char)
    ensures IsMark(ToLowerChar(c)) <==> IsMark(c)
    ensures IsBlank(ToLowerChar(c)) <==> IsBlank(c)
    ensures !IsMark(c) ==> (IsBlank(BaseLetter(ToLowerChar(c))) <==> IsBlank(c))
    ensures !IsMark(c) ==> (BaseLetter(ToLowerChar(c)) == '.' <==> c == '.')
  {
  }

  lemma PipelineChar(c: char)
    ensures DropDots(NonBlanks(StripAccents(ToLower([c])))) == Kept(c)
  {
    var l := ToLowerChar(c);
    assert ToLower([c]) == [l];
    LowerCharFacts(c);
    assert [l][1..] == "";
    if !IsMark(l) {
      var b := BaseLetter(l);
      assert StripAccents([l]) == [b];
      assert [b][1..] == "";
      if !IsBlank(b) {
        assert NonBlanks([b]) == [b];
      }
    }
  }

  /** Apart from where the spaces go, lower-casing, stripping accents and
      deleting points keep exactly the letters of the input. */
  lemma {:induction false} PipelineLetters(s: string)
    ensures DropDots(NonBlanks(StripAccents(ToLower(s)))) == Letters(s)
  {
    if |s| > 0 {
      var c, t := s[0], s[1..];
      assert s == [c] + t;
      ToLowerAppend([c], t);
      StripAccentsAppend(ToLower([c]), ToLower(t));
      NonBlanksAppend(StripAccents(ToLower([c])), StripAccents(ToLower(t)));
      DropDotsAppend(NonBlanks(StripAccents(ToLower([c]))), NonBlanks(StripAccents(ToLower(t))));
      PipelineChar(c);
      PipelineLetters(t);
    }
  }

  lemma {:induction false} NonBlanksDropDots(s: string)
    ensures NonBlanks(DropDots(s)) == DropDots(NonBlanks(s))
  {
    if |s| > 0 {
      var c, t := s[0], s[1..];
      assert s == [c] + t;
      assert [c][1..] == "";
      DropDotsAppend([c], t);
      NonBlanksAppend(DropDots([c]), DropDots(t));
      NonBlanksAppend([c], t);
      DropDotsAppend(NonBlanks([c]), NonBlanks(t));
      NonBlanksDropDots(t);
    }
  }

  /** Trimming removes blanks only. */
  lemma TrimNonBlanks(x: string)
    ensures NonBlanks(Trim(x)) == NonBlanks(x)
  {
    var a := LeadLen(x);
    var r := Trim(x);
    var b := a + |r|;
    ThreeSlices(x, a, b);
    NonBlanksAppend(x[..a] + x[a..b], x[b..]);
    NonBlanksAppend(x[..a], x[a..b]);
    TrimDropsOnlySpace(x);
    NonBlanksAllBlank(x[..a]);
    NonBlanksAllBlank(x[b..]);
  }

  /** A sequence is its three slices around two cut points. */
  lemma ThreeSlices<T>(x: seq<T>, a: nat, b: nat)
    requires a <= b <= |x|
    ensures x == x[..a] + x[a..b] + x[b..]
  {
    assert x[..a] + x[a..b] == x[..b];
  }

  /** The facts `Normalize` states about its stages. */
  lemma NormalizeLetters(s: string, lowered: string, plain: string, single: string, nodots: string)
    requires lowered == ToLower(s) && plain == StripAccents(lowered)
    requires single == Collapse(plain) && nodots == DropDots(single)
    ensures NonBlanks(Trim(nodots)) == Letters(s)
    ensures (forall i :: 0 <= i < |s| ==> !IsBlank(s[i])) ==> Trim(nodots) == Letters(s)
  {
    TrimNonBlanks(nodots);
    NonBlanksDropDots(single);
    PipelineLetters(s);
    if forall i :: 0 <= i < |s| ==> !IsBlank(s[i]) {
      BlankFreeStages(s, lowered, plain, single, nodots);
      NonBlanksNoBlank(nodots);
    }
  }

  /** Text without blanks passes `Collapse` and `trim` unchanged. */
  lemma BlankFreeStages(s: string, lowered: string, plain: string, single: string, nodots: string)
    requires forall i :: 0 <= i < |s| ==> !IsBlank(s[i])
    requires lowered == ToLower(s) && plain == StripAccents(lowered)
    requires single == Collapse(plain) && nodots == DropDots(single)
    ensures Trim(nodots) == nodots
    ensures forall i :: 0 <= i < |nodots| ==> !IsBlank(nodots[i])
  {
    forall i | 0 <= i < |lowered| ensures !IsBlank(lowered[i]) {
      LowerCharFacts(s[i]);
    }
    forall i | 0 <= i < |plain| ensures !IsBlank(plain[i]) {
      assert plain[i] in plain;
      var d :| d in lowered && BaseLetter(d) == plain[i];
    }
    assert IsBlank(' ');
    CollapseIdentity(plain);
    assert forall i :: 0 <= i < |nodots| ==> nodots[i] in single;
    TrimNoEnds(nodots);
  }

  /** `normalizar(texto)`. The result holds only normal characters, has no
      white space at either end and no `.`; apart from the single spaces
      between words it spells the input's letters, in order, lower-cased
      and without their accents. */
  function Normalize(s: string): (r: string)
    ensures forall c :: c in r ==> IsNormalChar(c)
    ensures |r| > 0 ==> r[0] != ' ' && r[|r| - 1] != ' '
    ensures NonBlanks(r) == Letters(s)
    ensures (forall i :: 0 <= i < |s| ==> !IsBlank(s[i])) ==> r == Letters(s)
  {
    var lowered := ToLower(s);
    var plain := StripAccents(lowered);
    var single := Collapse(plain);
    var nodots := DropDots(single);
    NormalChars(lowered, plain, single, nodots);
    NormalizeLetters(s, lowered, plain, single, nodots);
    TrimChars(nodots);
    Trim(nodots)
  }

  /** The character facts the stages of `Normalize` hand on to each other. */
  lemma NormalChars(lowered: string, plain: string, single: string, nodots: string)
    requires forall i :: 0 <= i < |lowered| ==> !IsUpper(lowered[i])
    requires plain == StripAccents(lowered)
    requires single == Collapse(plain)
    requires nodots == DropDots(single)
    ensures forall c :: c in nodots ==> IsNormalChar(c)
  {
    PlainChars(lowered, plain);
    forall c | c in nodots ensures IsNormalChar(c) {
      assert c in single && c != '.';
      if c == ' ' {
        SpaceIsNormal();
      } else {
        assert c in plain && !IsBlank(c);
      }
    }
  }

  lemma SpaceIsNormal()
    ensures IsNormalChar(' ')
  {
    assert BaseLetter(' ') == ' ';
  }

  /** Stripping the accents of lower-case text leaves lower-case text
      without accents or marks. */
  lemma PlainChars(lowered: string, plain: string)
    requires forall i :: 0 <= i < |lowered| ==> !IsUpper(lowered[i])
    requires plain == StripAccents(lowered)
    ensures forall c :: c in plain ==> !IsUpper(c) && !IsAccented(c) && !IsMark(c)
  {
    forall c | c in plain ensures !IsUpper(c) {
      var d :| d in lowered && BaseLetter(d) == c;
      var i :| 0 <= i < |lowered| && lowered[i] == d;
    }
  }

  /** `normalizar` does not distinguish upper from lower case. */
  lemma NormalizeIgnoresCase(s: string)
    ensures Normalize(ToLower(s)) == Normalize(s)
  {
    ToLowerIdempotent(s);
  }

  /** A string already in the form `normalizar` produces, with single
      spaces between words, is left unchanged. */
  predicate IsNormalForm(s: string) {
    (forall c :: c in s ==> IsNormalChar(c))
    && (|s| > 0 ==> s[0] != ' ' && s[|s| - 1] != ' ')
    && (forall i :: 0 <= i < |s| - 1 ==> !(s[i] == ' ' && s[i + 1] == ' '))
  }

  lemma NormalizeFixpoint(s: string)
    requires IsNormalForm(s)
    ensures Normalize(s) == s
  {
    assert forall i :: 0 <= i < |s| ==> IsNormalChar(s[i]);
    assert ToLower(s) == s;
    StripAccentsIdentity(s);
    CollapseIdentity(s);
    assert DropDots(s) == s;
    TrimNoEnds(s);
  }

  lemma {:induction false} StripAccentsIdentity(s: string)
    requires forall i :: 0 <= i < |s| ==> !IsAccented(s[i]) && !IsMark(s[i])
    ensures StripAccents(s) == s
  {
    if |s| > 0 {
      StripAccentsIdentity(s[1..]);
      assert s == [s[0]] + s[1..];
    }
  }

  /** ASCII text has no accent to strip. */
  lemma StripAccentsAscii(s: string)
    requires forall i :: 0 <= i < |s| ==> s[i] as int < 0x80
    ensures StripAccents(s) == s
  {
    forall i | 0 <= i < |s| ensures !IsAccented(s[i]) && !IsMark(s[i]) {
      AsciiPlain(s[i]);
    }
    StripAccentsIdentity(s);
  }

  lemma AsciiPlain(c: char)
    requires c as int < 0x80
    ensures !IsAccented(c) && !IsMark(c)
  {
  }

  lemma {:induction false} CollapseIdentity(s: string)
    requires forall i :: 0 <= i < |s| ==> IsBlank(s[i]) ==> s[i] == ' '
    requires forall i :: 0 <= i < |s| - 1 ==> !(s[i] == ' ' && s[i + 1] == ' ')
    ensures Collapse(s) == s
    decreases |s|
  {
    if |s| > 0 {
      if IsBlank(s[0]) {
        assert BlankRun(s) == 1 by {
          if |s| > 1 {
            assert !IsBlank(s[1]);
            assert BlankRun(s[1..]) == 0;
          }
        }
      }
      CollapseIdentity(s[1..]);
      assert s == [s[0]] + s[1..];
    }
  }

  /** Whenever the result has single spaces only, normalising it again
      changes nothing. */
  lemma NormalizeIdempotentWhenSingleSpaced(s: string)
    requires forall i :: 0 <= i < |Normalize(s)| - 1 ==> !(Normalize(s)[i] == ' ' && Normalize(s)[i + 1] == ' ')
    ensures Normalize(Normalize(s)) == Normalize(s)
  {
    NormalizeFixpoint(Normalize(s));
  }

  /** Normalising twice is not always the same as once: deleting a `.`
      between two spaces leaves a double space that only a second pass
      collapses. */
  lemma NormalizeNotIdempotent()
    ensures Normalize("a . b") == "a  b"
    ensures Normalize("a  b") == "a b"
  {
    FirstPass();
    SecondPass();
  }

  lemma FirstPass()
    ensures Normalize("a . b") == "a  b"
  {
    LowerExample();
    StripExample();
    CollapseNoRun();
    DropDotsExample();
    TrimNoEnds("a  b");
  }

  lemma LowerExample()
    ensures ToLower("a . b") == "a . b"
  {
  }

  lemma StripExample()
    ensures StripAccents("a . b") == "a . b"
  {
    StripAccentsAscii("a . b");
  }

  lemma CollapseNoRun()
    ensures Collapse("a . b") == "a . b"
  {
    var s := "a . b";
    assert s[1] == ' ' && s[2] == '.' && s[3] == ' ';
    CollapseIdentity(s);
  }

  lemma DropDotsExample()
    ensures DropDots("a . b") == "a  b"
  {
    assert DropDots("b") == "b";
    assert DropDots(" b") == " b";
    assert DropDots(". b") == " b";
    assert DropDots(" . b") == "  b";
  }

  lemma SecondPass()
    ensures Normalize("a  b") == "a b"
  {
    var s := "a  b";
    SecondPassStages(s);
    NormalizeStages(s);
  }

  lemma SecondPassStages(s: string)
    requires s == "a  b"
    ensures Trim(DropDots(Collapse(StripAccents(ToLower(s))))) == "a b"
  {
    assert ToLower(s) == s;
    assert StripAccents(s) == s by {
      StripAccentsAscii(s);
    }
    assert Collapse(s) == "a b" by {
      CollapseExample();
    }
    assert DropDots("a b") == "a b";
    assert Trim("a b") == "a b" by {
      TrimNoEnds("a b");
    }
  }

  lemma CollapseExample()
    ensures Collapse("a  b") == "a b"
  {
    var t := "  b";
    assert BlankRun(t) == 2 by {
      assert t[1..] == " b" && " b"[1..] == "b";
      assert BlankRun("b") == 0;
    }
    assert t[2..] == "b";
    assert Collapse("b") == "b";
    assert "a  b"[1..] == t;
  }

  /** The stages of `Normalize`, in order. */
  lemma NormalizeStages(s: string)
    ensures Normalize(s) == Trim(DropDots(Collapse(StripAccents(ToLower(s)))))
  {
  }

  /** The dots of an abbreviation disappear: `P.V.P` reads as `pvp`. */
  lemma NormalizeAbbreviation()
    ensures Normalize("P.V.P") == "pvp"
  {
    var s := "P.V.P";
    NormalizeStages(s);
    assert ToLower(s) == "p.v.p" by {
      LowerAbbreviation(s);
    }
    AbbreviationStages();
  }

  lemma LowerAbbreviation(s: string)
    requires s == "P.V.P"
    ensures ToLower(s) == "p.v.p"
  {
    var r := ToLower(s);
    assert r[0] == ToLowerChar('P') == 'p';
    assert r[1] == '.' && r[3] == '.';
    assert r[2] == ToLowerChar('V') == 'v';
    assert r[4] == 'p';
  }

  lemma AbbreviationStages()
    ensures Trim(DropDots(Collapse(StripAccents("p.v.p")))) == "pvp"
  {
    StripAbbreviation();
    CollapseAbbreviation();
    DropDotsAbbreviation();
    TrimAbbreviation();
  }

  lemma StripAbbreviation()
    ensures StripAccents("p.v.p") == "p.v.p"
  {
    StripAccentsAscii("p.v.p");
  }

  lemma CollapseAbbreviation()
    ensures Collapse("p.v.p") == "p.v.p"
  {
    CollapseIdentity("p.v.p");
  }

  lemma TrimAbbreviation()
    ensures Trim("pvp") == "pvp"
  {
    TrimNoEnds("pvp");
  }

  lemma DropDotsAbbreviation()
    ensures DropDots("p.v.p") == "pvp"
  {
    assert DropDots("p") == "p";
    assert DropDots(".p") == "p";
    assert DropDots("v.p") == "vp";
    assert DropDots(".v.p") == "vp";
  }

  /** The accented headers of a Portuguese sheet: "Preço" reads as
      "preco" and "Referência" as "referencia". */
  lemma NormalizePreco()
    ensures Normalize("Preço") == "preco"
  {
    var s := "Preço";
    assert forall i :: 0 <= i < |s| ==> !IsBlank(s[i]);
    LettersPreco();
  }

  lemma LettersPreco()
    ensures Letters("Preço") == "preco"
  {
    var s, r := "Preço", "preco";
    forall i | 0 <= i < |s| ensures Kept(s[i]) == [r[i]] {
      KeptLetter(s[i], r[i]);
    }
    LettersByChar(s, r);
  }

  lemma NormalizeReferencia()
    ensures Normalize("Referência") == "referencia"
  {
    var s := "Referência";
    assert forall i :: 0 <= i < |s| ==> !IsBlank(s[i]);
    LettersReferencia();
  }

  lemma LettersReferencia()
    ensures Letters("Referência") == "referencia"
  {
    var s, r := "Referência", "referencia";
    forall i | 0 <= i < |s| ensures Kept(s[i]) == [r[i]] {
      KeptLetter(s[i], r[i]);
    }
    LettersByChar(s, r);
  }

  /** A letter of ASCII, or an upper-case or accented letter, is kept as
      its lower-case base. */
  lemma KeptLetter(c: char, b: char)
    requires ('a' <= c <= 'z' && b == c) || (c == 'P' && b == 'p') || (c == 'R' && b == 'r')
             || (c == 'ç' && b == 'c') || (c == 'ê' && b == 'e')
    ensures Kept(c) == [b]
  {
  }

  /** A text each of whose characters is kept as one letter spells those
      letters. */
  lemma {:induction false} LettersByChar(s: string, r: string)
    requires |s| == |r| && forall i :: 0 <= i < |s| ==> Kept(s[i]) == [r[i]]
    ensures Letters(s) == r
  {
    if |s| > 0 {
      LettersByChar(s[1..], r[1..]);
      assert r == [r[0]] + r[1..];
    }
  }

  /** Lower-case ASCII letters are kept as they are. */
  lemma {:induction false} LettersLowerAscii(s: string)
    requires forall i :: 0 <= i < |s| ==> 'a' <= s[i] <= 'z'
    ensures Letters(s) == s
  {
    if |s| > 0 {
      LettersLowerAscii(s[1..]);
      assert s == [s[0]] + s[1..];
    }
  }
}
