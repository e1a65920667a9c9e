/** The clean-up applied to text extracted from an uploaded résumé
    (backend/server.js, after the file is read): white space collapsed,
    blank lines collapsed, the ends trimmed, and a diagnostic in place of a
    text shorter than fifty characters. */
module TextCleanup {
  import opened Text
  import opened Regexes
  import opened Seqs
  import opened TextWords
  import opened WordSpacing

  const MinTextLength := 50

  /** Every white-space character is a plain space and no two spaces touch. */
  predicate SingleSpaced(s: string) {
    forall i :: 0 <= i < |s| ==> (IsSpace(s[i]) ==> s[i] == ' ') && (i + 1 < |s| && s[i] == ' ' ==> s[i + 1] != ' ')
  }

  /** The rest of a single-spaced text is single-spaced. */
  lemma SingleSpacedTail(s: string)
    requires s != [] && SingleSpaced(s)
    ensures SingleSpaced(s[1..])
  {
    assert forall i :: 0 <= i < |s| - 1 ==> s[1..][i] == s[i + 1];
  }

  /** A character that is not white space in front of a single-spaced text. */
  lemma SingleSpacedCons(c: char, rest: string)
    requires !IsSpace(c) && SingleSpaced(rest)
    ensures SingleSpaced([c] + rest)
  {
    var r := [c] + rest;
    assert forall i :: 1 <= i < |r| ==> r[i] == rest[i - 1];
  }

  /** One space in front of a single-spaced text that does not start with
      white space. */
  lemma SingleSpacedAfterSpace(rest: string)
    requires SingleSpaced(rest) && (rest != [] ==> !IsSpace(rest[0]))
    ensures SingleSpaced(" " + rest)
  {
    var r := " " + rest;
    assert forall i :: 1 <= i < |r| ==> r[i] == rest[i - 1];
  }

  /** Collapsing white space leaves a single-spaced text. */
  lemma {:induction false} CollapseSpacesSingleSpaced(s: string)
    ensures SingleSpaced(CollapseSpaces(s))
    decreases |s|
  {
    if s != [] {
      if IsSpace(s[0]) {
        var t := TrimStart(s);
        CollapseSpacesSingleSpaced(t);
        if t != [] {
          assert CollapseSpaces(t) == [t[0]] + CollapseSpaces(t[1..]);
        }
        SingleSpacedAfterSpace(CollapseSpaces(t));
      } else {
        CollapseSpacesSingleSpaced(s[1..]);
        SingleSpacedCons(s[0], CollapseSpaces(s[1..]));
      }
    }
  }

  /** A single-spaced text has nothing left to collapse. */
  lemma {:induction false} CollapseSpacesSingleSpacedFixed(s: string)
    requires SingleSpaced(s)
    ensures CollapseSpaces(s) == s
  {
    if s != [] {
      SingleSpacedTail(s);
      CollapseSpacesSingleSpacedFixed(s[1..]);
      if IsSpace(s[0]) {
        assert s[0] == ' ';
        assert TrimStart(s) == s[1..] by {
          if |s| > 1 {
            assert s[1] != ' ';
            assert !IsSpace(s[1]);
          }
        }
      }
    }
  }

  /** Collapsing white space twice is collapsing it once. */
  lemma CollapseSpacesIdempotent(s: string)
    ensures CollapseSpaces(CollapseSpaces(s)) == CollapseSpaces(s)
  {
    CollapseSpacesSingleSpaced(s);
    CollapseSpacesSingleSpacedFixed(CollapseSpaces(s));
  }

  /** A piece of a single-spaced text is single-spaced. */
  lemma SingleSpacedInfix(s: string, t: string, i: nat)
    requires SingleSpaced(s) && OccursAt(s, t, i)
    ensures SingleSpaced(t)
  {
    assert forall j :: 0 <= j < |t| ==> t[j] == s[i + j];
  }

  /** The characters that are not white space. */
  predicate IsNotSpace(c: char) {
    !IsSpace(c)
  }

  /** The cleaned text: single-spaced, without line feeds, trimmed, and with
      every character of the input that is not white space kept, in order. */
  function CleanExtractedText(raw: string): (text: string)
    ensures SingleSpaced(text) && '\n' !in text
    ensures text != [] ==> !IsSpace(text[0]) && !IsSpace(text[|text| - 1])
    ensures Filter(text, IsNotSpace) == Filter(raw, IsNotSpace)
  {
    var spaced := CollapseSpaces(raw);
    CollapseSpacesSingleSpaced(raw);
    SingleSpacedHasNoLineFeed(spaced);
    CollapseBlankLinesNoLineFeed(spaced);
    TrimSingleSpaced(spaced);
    CollapseSpacesKeepsText(raw);
    TrimKeepsText(spaced);
    Trim(CollapseBlankLines(spaced))
  }

  /** Dropping white space from the front keeps every other character. */
  lemma TrimStartKeepsText(s: string)
    ensures Filter(TrimStart(s), IsNotSpace) == Filter(s, IsNotSpace)
  {
    var t := TrimStart(s);
    var k := |s| - |t|;
    assert s == s[..k] + t;
    FilterAppend(s[..k], t, IsNotSpace);
    FilterRejectsAll(s[..k], IsNotSpace);
  }

  /** Dropping white space from the end keeps every other character. */
  lemma TrimEndKeepsText(s: string)
    ensures Filter(TrimEnd(s), IsNotSpace) == Filter(s, IsNotSpace)
  {
    var t := TrimEnd(s);
    assert s == t + s[|t|..];
    FilterAppend(t, s[|t|..], IsNotSpace);
    FilterRejectsAll(s[|t|..], IsNotSpace);
  }

  /** Trimming keeps every character that is not white space. */
  lemma TrimKeepsText(s: string)
    ensures Filter(Trim(s), IsNotSpace) == Filter(s, IsNotSpace)
  {
    assert Trim(s) == TrimEnd(TrimStart(s));
    TrimStartKeepsText(s);
    TrimEndKeepsText(TrimStart(s));
  }

  /** Collapsing white space keeps every other character, in order. */
  lemma {:induction false} CollapseSpacesKeepsText(s: string)
    ensures Filter(CollapseSpaces(s), IsNotSpace) == Filter(s, IsNotSpace)
    decreases |s|
  {
    if s != [] {
      if IsSpace(s[0]) {
        assert TrimStart(s) == TrimStart(s[1..]);
        CollapseSpacesKeepsText(TrimStart(s));
        TrimStartKeepsText(s);
        assert (" " + CollapseSpaces(TrimStart(s)))[1..] == CollapseSpaces(TrimStart(s));
      } else {
        CollapseSpacesKeepsText(s[1..]);
        assert ([s[0]] + CollapseSpaces(s[1..]))[1..] == CollapseSpaces(s[1..]);
      }
    }
  }

  /** Trimming a single-spaced text leaves it single-spaced. */
  lemma TrimSingleSpaced(s: string)
    requires SingleSpaced(s)
    ensures SingleSpaced(Trim(s)) && '\n' !in Trim(s)
  {
    var t := TrimStart(s);
    var r := TrimEnd(t);
    assert OccursAt(s, r, |s| - |t|) by { assert r == s[|s| - |t|..][..|r|]; }
    SingleSpacedInfix(s, r, |s| - |t|);
    SingleSpacedHasNoLineFeed(r);
  }

  /** White space in a single-spaced text is all plain spaces. */
  lemma SingleSpacedHasNoLineFeed(s: string)
    requires SingleSpaced(s)
    ensures '\n' !in s
  {
    forall k | 0 <= k < |s| ensures s[k] != '\n' {
      assert IsSpace(s[k]) ==> s[k] == ' ';
    }
  }

  /** The blank-line step never changes anything: no line feed survives the
      first step. */
  lemma BlankLineStepIsIdle(raw: string)
    ensures CleanExtractedText(raw) == Trim(CollapseSpaces(raw))
  {
    var spaced := CollapseSpaces(raw);
    CollapseSpacesSingleSpaced(raw);
    assert '\n' !in spaced;
    CollapseBlankLinesNoLineFeed(spaced);
  }

  /** The cleaned text is the words of the input, each pair separated by
      exactly one space: every run of white space between two words becomes
      a single space, and the runs at the ends disappear. */
  lemma CleanedTextIsSpacedWords(raw: string)
    ensures CleanExtractedText(raw) == Spaced(Words(raw))
  {
    BlankLineStepIsIdle(raw);
    TrimmedCollapse(raw);
  }

  /** The outcome of extracting a résumé's text: the text, or the
      diagnostic together with the length it reports. */
  datatype Extraction = Extracted(text: string) | TooShort(length: nat, message: string)

  /** The diagnostic sent back for a short text. */
  function TooShortMessage(length: nat): string
  {
    TooShortOpening + NatToString(length) + TooShortClosing
  }

  const TooShortOpening := "File processed but extracted text seems too short ("
  const TooShortClosing :=
    " characters). The file may be an image-based PDF or corrupted. Please try uploading a text-based PDF or provide manual text input."

  /** The cleaned text when it has at least fifty characters, otherwise the
      diagnostic that reports its length. */
  function ExtractText(raw: string): (r: Extraction)
    ensures r.Extracted? <==> |CleanExtractedText(raw)| >= MinTextLength
    ensures r.Extracted? ==> r.text == CleanExtractedText(raw)
    ensures r.TooShort? ==> r.length == |CleanExtractedText(raw)| < MinTextLength
    ensures r.TooShort? ==> r.message == TooShortMessage(r.length)
  {
    var text := CleanExtractedText(raw);
    if |text| < MinTextLength then TooShort(|text|, TooShortMessage(|text|)) else Extracted(text)
  }
}
