/** The white-space collapse `/\s+/g -> ' '` word by word: each run of white
    space becomes one space between the words around it, and trimming then
    leaves the words joined by single spaces. */
module WordSpacing {
  import opened Text
  import opened Regexes
  import opened TextWords
  import Seqs

  /** No character of the run `WordLength` measures is white space. */
  lemma {:induction false} WordLengthRun(s: string)
    ensures forall i :: 0 <= i < WordLength(s) ==> !IsSpace(s[i])
    decreases |s|
  {
    if s != [] && !IsSpace(s[0]) {
      WordLengthRun(s[1..]);
      assert forall i :: 1 <= i < WordLength(s) ==> s[i] == s[1..][i - 1];
    }
  }

  /** Every word of a text is a non-empty run without white space. */
  lemma {:induction false} WordsAreWords(s: string)
    ensures forall w :: w in Words(s) ==> IsWord(w)
    decreases |s|
  {
    var t := TrimStart(s);
    if t != [] {
      var n := WordLength(t);
      WordLengthRun(t);
      assert IsWord(t[..n]);
      WordsAreWords(t[n..]);
    }
  }

  /** Leading white space does not change the words. */
  lemma WordsAfterSpace(s: string)
    ensures Words(TrimStart(s)) == Words(s)
  {
    var t := TrimStart(s);
    assert TrimStart(t) == t;
  }

  /** The collapse keeps a run without white space as it is and goes on
      after it. */
  lemma {:induction false} CollapseKeepsRun(w: string, rest: string)
    requires forall i :: 0 <= i < |w| ==> !IsSpace(w[i])
    ensures CollapseSpaces(w + rest) == w + CollapseSpaces(rest)
    decreases |w|
  {
    if w == [] {
      assert w + rest == rest;
    } else {
      var s := w + rest;
      assert s[0] == w[0];
      assert s[1..] == w[1..] + rest;
      CollapseKeepsRun(w[1..], rest);
      assert [w[0]] + w[1..] == w;
    }
  }

  /** A word followed by nothing or by white space is measured whole. */
  lemma {:induction false} WordLengthOfWord(w: string, rest: string)
    requires forall i :: 0 <= i < |w| ==> !IsSpace(w[i])
    requires rest == [] || IsSpace(rest[0])
    ensures WordLength(w + rest) == |w|
    decreases |w|
  {
    if w == [] {
      assert w + rest == rest;
    } else {
      var s := w + rest;
      assert s[0] == w[0];
      assert s[1..] == w[1..] + rest;
      WordLengthOfWord(w[1..], rest);
    }
  }

  /** A text that starts with a whole word has that word first among its
      words, and the words of what follows it after. */
  lemma WordsOfWord(w: string, rest: string)
    requires IsWord(w)
    requires rest == [] || IsSpace(rest[0])
    ensures Words(w + rest) == [w] + Words(rest)
  {
    var t := w + rest;
    assert t[0] == w[0];
    assert TrimStart(t) == t;
    WordLengthOfWord(w, rest);
    assert t[..|w|] == w;
    assert t[|w|..] == rest;
  }

  /** A run of white space collapses to one space in front of the collapse
      of what follows it. */
  lemma SpaceStep(s: string)
    requires s != [] && IsSpace(s[0])
    ensures CollapseSpaces(s) == " " + CollapseSpaces(TrimStart(s))
  {
  }

  /** Joining one more word in front puts a single space after it. */
  lemma SpacedCons(w: string, words: seq<string>)
    requires words != []
    ensures Spaced([w] + words) == w + " " + Spaced(words)
  {
    var ws := [w] + words;
    assert ws[0] == w && ws[1..] == words;
  }

  /** Collapsing white space in a text that does not start with white space
      gives its words joined by single spaces, then one space when the text
      ends with white space. */
  lemma {:induction false} WordsCollapse(t: string)
    requires t == [] || !IsSpace(t[0])
    ensures CollapseSpaces(t) == Spaced(Words(t)) + (if t != [] && IsSpace(t[|t| - 1]) then " " else [])
    decreases |t|, 0
  {
    if t != [] {
      var n := WordLength(t);
      var w := t[..n];
      var rest := t[n..];
      WordLengthRun(t);
      assert IsWord(w);
      assert t == w + rest;
      CollapseKeepsRun(w, rest);
      WordsOfWord(w, rest);
      if rest == [] {
        assert CollapseSpaces(t) == w;
        assert Spaced(Words(t)) == w;
        assert t[|t| - 1] == w[n - 1];
      } else {
        WordsAfterRun(w, rest);
        assert t[|t| - 1] == rest[|rest| - 1];
      }
    }
  }

  /** The step of `WordsCollapse` where white space follows the first word. */
  lemma {:induction false} WordsAfterRun(w: string, rest: string)
    requires rest != [] && IsSpace(rest[0])
    ensures w + CollapseSpaces(rest) == Spaced([w] + Words(rest)) + (if IsSpace(rest[|rest| - 1]) then " " else [])
    decreases |rest|, 1
  {
    var u := TrimStart(rest);
    var tail: string := if IsSpace(rest[|rest| - 1]) then " " else [];
    SpaceStep(rest);
    WordsAfterSpace(rest);
    TrimStartLast(rest);
    WordsCollapse(u);
    if u == [] {
      calc {
        w + CollapseSpaces(rest);
        w + (" " + CollapseSpaces(u));
        { assert CollapseSpaces(u) == []; }
        Spaced([w]) + tail;
        { assert Words(rest) == Words(u) == []; assert [w] + Words(rest) == [w]; }
        Spaced([w] + Words(rest)) + tail;
      }
    } else {
      WordsOfNonSpace(u);
      SpacedCons(w, Words(u));
      calc {
        w + CollapseSpaces(rest);
        w + (" " + CollapseSpaces(u));
        w + (" " + (Spaced(Words(u)) + tail));
        { Seqs.RegroupNested(w, " ", Spaced(Words(u)), tail); }
        w + " " + Spaced(Words(u)) + tail;
        Spaced([w] + Words(u)) + tail;
        Spaced([w] + Words(rest)) + tail;
      }
    }
  }

  /** What trimming leaves of a text that starts with white space ends as
      the text does; when nothing is left, the text ends with white space. */
  lemma TrimStartLast(s: string)
    requires s != [] && IsSpace(s[0])
    ensures TrimStart(s) == [] ==> IsSpace(s[|s| - 1])
    ensures TrimStart(s) != [] ==> TrimStart(s)[|TrimStart(s)| - 1] == s[|s| - 1]
  {
  }

  /** A text that starts with something other than white space has a word. */
  lemma WordsOfNonSpace(t: string)
    requires t != [] && !IsSpace(t[0])
    ensures Words(t) != []
  {
    assert TrimStart(t) == t;
  }

  /** Collapsing white space and then trimming leaves the words of the
      text joined by single spaces. */
  lemma TrimmedCollapse(raw: string)
    ensures Trim(CollapseSpaces(raw)) == Spaced(Words(raw))
  {
    var t := TrimStart(raw);
    WordsAfterSpace(raw);
    WordsCollapse(t);
    WordsAreWords(t);
    SpacedEnds(Words(t));
    var body := Spaced(Words(t));
    var trail: string := if t != [] && IsSpace(t[|t| - 1]) then " " else [];
    if raw != [] && IsSpace(raw[0]) {
      SpaceStep(raw);
      TrimAroundSpaced(" ", body, trail);
    } else {
      assert t == raw;
      TrimAroundSpaced([], body, trail);
      assert [] + (body + trail) == body + trail;
    }
  }

  /** Words joined by spaces neither start nor end with white space, and
      join to something when there is a word. */
  lemma {:induction false} SpacedEnds(words: seq<string>)
    requires forall w :: w in words ==> IsWord(w)
    ensures words != [] ==> Spaced(words) != []
    ensures Spaced(words) != [] ==> !IsSpace(Spaced(words)[0]) && !IsSpace(Spaced(words)[|Spaced(words)| - 1])
  {
    if words != [] {
      var w := words[0];
      assert w in words && IsWord(w);
      if |words| == 1 {
        assert Spaced(words) == w;
      } else {
        var rest := Spaced(words[1..]);
        assert forall v :: v in words[1..] ==> v in words;
        SpacedEnds(words[1..]);
        assert Spaced(words) == w + " " + rest;
        assert Spaced(words)[0] == w[0];
        assert Spaced(words)[|Spaced(words)| - 1] == rest[|rest| - 1];
      }
    }
  }

  /** Trimming at most one space on either side of a text that neither
      starts nor ends with white space gives that text. */
  lemma TrimAroundSpaced(lead: string, body: string, trail: string)
    requires lead == [] || lead == " "
    requires trail == [] || trail == " "
    requires body != [] ==> !IsSpace(body[0]) && !IsSpace(body[|body| - 1])
    ensures Trim(lead + (body + trail)) == body
  {
    if body == [] {
      var s := lead + (body + trail);
      if lead == [] {
        assert s == trail;
      } else if trail == [] {
        assert s == " ";
      } else {
        assert s == "  ";
      }
      AllSpaceTrims(s);
    } else {
      Seqs.RegroupPair(lead, body, trail);
      TrimFramed(lead, body, trail);
      AllSpaceTrims(lead);
      AllSpaceTrims(trail);
    }
  }

  /** A text of at most two spaces trims to nothing from either end. */
  lemma AllSpaceTrims(s: string)
    requires s == [] || s == " " || s == "  "
    ensures TrimStart(s) == [] && TrimEnd(s) == [] && Trim(s) == []
  {
  }
}
