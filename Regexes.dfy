/** The global regular-expression replacements the backend applies, each
    written as the scan `String.prototype.replace` performs for a `/g`
    pattern: try the pattern at each position from the left, replace a match
    and go on after it, keep the character otherwise. */
module Regexes {
  import opened Wrappers
  import opened Text

  const Fence := "```"
  const JsonFence := "```json"

  /** `s.replace(new RegExp(marker + '\\s*', 'g'), '')`: every occurrence of
      the marker is removed together with the white space after it. */
  function RemoveMarkerAndSpaces(s: string, marker: string): string
    requires marker != []
    decreases |s|
  {
    if s == [] then []
    else if StartsWith(s, marker) then RemoveMarkerAndSpaces(TrimStart(s[|marker|..]), marker)
    else [s[0]] + RemoveMarkerAndSpaces(s[1..], marker)
  }

  /** `s.replace(new RegExp(marker, 'g'), '')`. */
  function RemoveMarker(s: string, marker: string): string
    requires marker != []
    decreases |s|
  {
    if s == [] then []
    else if StartsWith(s, marker) then RemoveMarker(s[|marker|..], marker)
    else [s[0]] + RemoveMarker(s[1..], marker)
  }

  /** No three backticks in a row anywhere in `s`. */
  predicate FenceFree(s: string) {
    forall i :: 0 <= i < |s| ==> !OccursAt(s, Fence, i)
  }

  /** A fence at `i` is three backticks at `i`, `i + 1` and `i + 2`. */
  lemma FenceAt(s: string, i: nat)
    ensures OccursAt(s, Fence, i) <==> i + 3 <= |s| && s[i] == '`' && s[i + 1] == '`' && s[i + 2] == '`'
  {
    if i + 3 <= |s| && s[i] == '`' && s[i + 1] == '`' && s[i + 2] == '`' {
      assert s[i..i + 3] == Fence;
    }
  }

  /** The text left after a character that does not start a fence begins with
      that character. */
  lemma RemoveMarkerAndSpacesKeepsHead(s: string)
    requires s != [] && !StartsWith(s, Fence)
    ensures RemoveMarkerAndSpaces(s, Fence) == [s[0]] + RemoveMarkerAndSpaces(s[1..], Fence)
  {
  }

  /** Text without backticks passes a fence removal unchanged, in front of
      whatever follows it. */
  lemma {:induction false} RemoveFencePlainPrefix(a: string, t: string, marker: string)
    requires marker != [] && marker[0] == '`' && '`' !in a
    ensures RemoveMarkerAndSpaces(a + t, marker) == a + RemoveMarkerAndSpaces(t, marker)
    decreases |a|
  {
    if a == [] {
      assert a + t == t;
    } else {
      assert (a + t)[0] == a[0];
      assert (a + t)[1..] == a[1..] + t;
      RemoveFencePlainPrefix(a[1..], t, marker);
    }
  }

  /** Once `/```\s*\/g` has run, no three backticks are left: a kept backtick
      never sits just before a removed fence, or the fence would have started
      one position earlier. */
  lemma {:induction false} RemoveFenceLeavesNoFence(s: string)
    ensures FenceFree(RemoveMarkerAndSpaces(s, Fence))
    decreases |s|
  {
    if s == [] {
    } else if StartsWith(s, Fence) {
      RemoveFenceLeavesNoFence(TrimStart(s[3..]));
    } else {
      var rest := RemoveMarkerAndSpaces(s[1..], Fence);
      var r := [s[0]] + rest;
      RemoveMarkerAndSpacesKeepsHead(s);
      RemoveFenceLeavesNoFence(s[1..]);
      FenceAt(s, 0);
      FenceAt(r, 0);
      if OccursAt(r, Fence, 0) {
        assert s[1..] != [];
        FenceAt(s[1..], 0);
        RemoveMarkerAndSpacesKeepsHead(s[1..]);
        assert s[1] == '`';
        var tail := RemoveMarkerAndSpaces(s[2..], Fence);
        assert rest == [s[1]] + tail;
        assert s[2..] != [];
        assert s[2] != '`';
        FenceAt(s[2..], 0);
        assert false;
      }
      forall i | 1 <= i < |r| ensures !OccursAt(r, Fence, i) {
        FenceAt(r, i);
        FenceAt(rest, i - 1);
      }
    }
  }

  /** `s.replace(/`{3,}/g, '')`: every run of three or more backticks is removed. */
  function RemoveBacktickRuns(s: string): string
    decreases |s|
  {
    if s == [] then []
    else if StartsWith(s, Fence) then RemoveBacktickRuns(DropBackticks(s[3..]))
    else [s[0]] + RemoveBacktickRuns(s[1..])
  }

  /** The backticks at the front of `s`, dropped. */
  function DropBackticks(s: string): (r: string)
    ensures |r| <= |s|
  {
    if s != [] && s[0] == '`' then DropBackticks(s[1..]) else s
  }

  /** A fence-free text has no run of three backticks to remove. */
  lemma {:induction false} RemoveBacktickRunsFenceFree(s: string)
    requires FenceFree(s)
    ensures RemoveBacktickRuns(s) == s
  {
    if s != [] {
      assert !OccursAt(s, Fence, 0);
      assert FenceFree(s[1..]) by {
        forall i | 0 <= i < |s[1..]| ensures !OccursAt(s[1..], Fence, i) {
          if OccursAt(s[1..], Fence, i) {
            assert OccursAt(s, Fence, i + 1);
          }
        }
      }
      RemoveBacktickRunsFenceFree(s[1..]);
    }
  }

  /** `s.replace(/^```.*$/gm, '')`: a line that starts with three backticks
      loses everything up to its line terminator. `atLineStart` says whether
      `^` matches at the front of `s`. */
  function RemoveFenceLines(s: string, atLineStart: bool): string
    decreases |s|
  {
    if s == [] then []
    else if atLineStart && StartsWith(s, Fence) then RemoveFenceLines(DropToLineEnd(s[3..]), false)
    else [s[0]] + RemoveFenceLines(s[1..], IsLineTerminator(s[0]))
  }

  /** `.*` at the front of `s`: everything up to the first line terminator. */
  function DropToLineEnd(s: string): (r: string)
    ensures |r| <= |s|
    ensures r != [] ==> IsLineTerminator(r[0])
  {
    if s != [] && !IsLineTerminator(s[0]) then DropToLineEnd(s[1..]) else s
  }

  /** A fence-free text has no fence line to remove. */
  lemma {:induction false} RemoveFenceLinesFenceFree(s: string, atLineStart: bool)
    requires FenceFree(s)
    ensures RemoveFenceLines(s, atLineStart) == s
  {
    if s != [] {
      assert !OccursAt(s, Fence, 0);
      assert FenceFree(s[1..]) by {
        forall i | 0 <= i < |s[1..]| ensures !OccursAt(s[1..], Fence, i) {
          if OccursAt(s[1..], Fence, i) {
            assert OccursAt(s, Fence, i + 1);
          }
        }
      }
      RemoveFenceLinesFenceFree(s[1..], IsLineTerminator(s[0]));
    }
  }

  /** The length of the white space at the front of `s`. */
  function LeadingSpace(s: string): (n: nat)
    ensures n <= |s|
    ensures forall k :: 0 <= k < n ==> IsSpace(s[k])
    ensures n < |s| ==> !IsSpace(s[n])
  {
    if s != [] && IsSpace(s[0]) then 1 + LeadingSpace(s[1..]) else 0
  }

  /** `s.replace(/\n\s*\n/g, '\n')`: a line feed, the white space after it
      and the last line feed in that white space become one line feed. */
  function CollapseBlankLines(s: string): (r: string)
    ensures |r| <= |s|
    decreases |s|
  {
    if s == [] then []
    else if s[0] == '\n' && '\n' in s[1..1 + LeadingSpace(s[1..])] then
      var k := LastIndexOf(s[1..1 + LeadingSpace(s[1..])], '\n').value;
      "\n" + CollapseBlankLines(s[k + 2..])
    else [s[0]] + CollapseBlankLines(s[1..])
  }

  /** Without a line feed there is nothing for `/\n\s*\n/g` to replace. */
  lemma {:induction false} CollapseBlankLinesNoLineFeed(s: string)
    requires '\n' !in s
    ensures CollapseBlankLines(s) == s
  {
    if s != [] {
      assert '\n' !in s[1..];
      CollapseBlankLinesNoLineFeed(s[1..]);
    }
  }

  /** `s.replace(/\s+/g, ' ')`: every run of white space becomes one space. */
  function CollapseSpaces(s: string): string
    decreases |s|
  {
    if s == [] then []
    else if IsSpace(s[0]) then " " + CollapseSpaces(TrimStart(s))
    else [s[0]] + CollapseSpaces(s[1..])
  }

  /** The text left after a character that does not start a fence begins
      with that character. */
  lemma RemoveMarkerKeepsHead(s: string)
    requires s != [] && !StartsWith(s, Fence)
    ensures RemoveMarker(s, Fence) == [s[0]] + RemoveMarker(s[1..], Fence)
  {
  }

  /** Once `/```/g` has run, no three backticks are left: a kept backtick
      never sits just before a removed fence, or the fence would have started
      one position earlier. */
  lemma {:induction false} RemoveMarkerLeavesNoFence(s: string)
    ensures FenceFree(RemoveMarker(s, Fence))
    decreases |s|
  {
    if s == [] {
    } else if StartsWith(s, Fence) {
      RemoveMarkerLeavesNoFence(s[3..]);
    } else {
      var rest := RemoveMarker(s[1..], Fence);
      var r := [s[0]] + rest;
      RemoveMarkerKeepsHead(s);
      RemoveMarkerLeavesNoFence(s[1..]);
      FenceAt(s, 0);
      FenceAt(r, 0);
      if OccursAt(r, Fence, 0) {
        assert s[1..] != [];
        FenceAt(s[1..], 0);
        RemoveMarkerKeepsHead(s[1..]);
        assert s[1] == '`';
        var tail := RemoveMarker(s[2..], Fence);
        assert rest == [s[1]] + tail;
        assert s[2..] != [];
        assert s[2] != '`';
        FenceAt(s[2..], 0);
        assert false;
      }
      forall i | 1 <= i < |r| ensures !OccursAt(r, Fence, i) {
        FenceAt(r, i);
        FenceAt(rest, i - 1);
      }
    }
  }

  /** Every character strictly between `i` and `j` is white space. */
  predicate SpacesBetween(s: string, i: nat, j: nat)
    requires j <= |s|
  {
    forall k :: i < k < j ==> IsSpace(s[k])
  }

  /** Nowhere does `/\n\s*\n/` match: no two line feeds have only white
      space between them. */
  predicate BlankLineFree(s: string) {
    forall i, j :: 0 <= i < j < |s| && s[i] == '\n' && s[j] == '\n' ==> !SpacesBetween(s, i, j)
  }

  /** The blank-line replacement leaves the first character in place. */
  lemma CollapseBlankLinesHead(s: string)
    requires s != []
    ensures CollapseBlankLines(s) != [] && CollapseBlankLines(s)[0] == s[0]
  {
  }

  /** Past the first `m` characters of a run of white space, the run is `m`
      shorter. */
  lemma {:induction false} LeadingSpaceSuffix(t: string, m: nat)
    requires m <= LeadingSpace(t)
    ensures LeadingSpace(t[m..]) == LeadingSpace(t) - m
  {
    if m > 0 {
      assert t[m..] == t[1..][m - 1..];
      LeadingSpaceSuffix(t[1..], m - 1);
    }
  }

  /** After the last line feed of a leading run of white space, the rest of
      the run holds no line feed. */
  lemma RunAfterLastLineFeed(t: string, k: nat)
    requires LastIndexOf(t[..LeadingSpace(t)], '\n') == Some(k)
    ensures '\n' !in t[k + 1..][..LeadingSpace(t[k + 1..])]
  {
    var w := t[..LeadingSpace(t)];
    LeadingSpaceSuffix(t, k + 1);
    assert t[k + 1..][..LeadingSpace(t[k + 1..])] == w[k + 1..];
  }

  /** A text whose leading white space holds no line feed keeps that property
      through the blank-line replacement. */
  lemma {:induction false} CollapseKeepsLeadingRun(u: string)
    requires '\n' !in u[..LeadingSpace(u)]
    ensures '\n' !in CollapseBlankLines(u)[..LeadingSpace(CollapseBlankLines(u))]
    decreases |u|
  {
    if u != [] {
      var c := CollapseBlankLines(u);
      CollapseBlankLinesHead(u);
      if IsSpace(u[0]) {
        assert u[0] == u[..LeadingSpace(u)][0];
        assert c == [u[0]] + CollapseBlankLines(u[1..]);
        assert u[1..][..LeadingSpace(u[1..])] == u[..LeadingSpace(u)][1..];
        CollapseKeepsLeadingRun(u[1..]);
        assert c[1..] == CollapseBlankLines(u[1..]);
        assert c[..LeadingSpace(c)] == [u[0]] + CollapseBlankLines(u[1..])[..LeadingSpace(CollapseBlankLines(u[1..]))];
      }
    }
  }

  /** A character in front of a blank-line-free text, which is no line feed
      or is followed by white space without a line feed, leaves it
      blank-line-free. */
  lemma ConsBlankLineFree(c: char, x: string)
    requires BlankLineFree(x)
    requires c == '\n' ==> '\n' !in x[..LeadingSpace(x)]
    ensures BlankLineFree([c] + x)
  {
    var r := [c] + x;
    forall i, j | 0 <= i < j < |r| && r[i] == '\n' && r[j] == '\n' ensures !SpacesBetween(r, i, j) {
      assert r[j] == x[j - 1];
      if i == 0 {
        var n := LeadingSpace(x);
        assert n < j - 1 && r[n + 1] == x[n] && !IsSpace(r[n + 1]);
      } else {
        assert r[i] == x[i - 1];
        assert !SpacesBetween(x, i - 1, j - 1);
        var k :| i - 1 < k < j - 1 && !IsSpace(x[k]);
        assert r[k + 1] == x[k];
      }
    }
  }

  /** After `/\n\s*\n/g` has replaced every match, nothing matches any
      more: the replacement takes the white space up to the last line feed of
      the run, so what follows it holds no line feed before the next other
      character. */
  lemma {:induction false} CollapseBlankLinesLeavesNone(s: string)
    ensures BlankLineFree(CollapseBlankLines(s))
    decreases |s|
  {
    if s != [] {
      var t := s[1..];
      var w := t[..LeadingSpace(t)];
      assert w == s[1..1 + LeadingSpace(s[1..])];
      if s[0] == '\n' && '\n' in w {
        var k := LastIndexOf(w, '\n').value;
        CollapseBlankLinesLeavesNone(s[k + 2..]);
        RunCollapsedBlankLineFree(s, k);
      } else {
        CollapseBlankLinesLeavesNone(t);
        KeptCharBlankLineFree(s);
      }
    }
  }

  /** A line feed followed by a run of white space with a line feed in it
      becomes one line feed in front of a collapsed rest that starts with no
      further line feed before its first other character. */
  lemma RunCollapsedBlankLineFree(s: string, k: nat)
    requires s != [] && s[0] == '\n'
    requires LastIndexOf(s[1..][..LeadingSpace(s[1..])], '\n') == Some(k)
    requires BlankLineFree(CollapseBlankLines(s[k + 2..]))
    ensures BlankLineFree(CollapseBlankLines(s))
  {
    var u := s[k + 2..];
    CollapseOfRun(s, k);
    RestOfRun(s, k);
    CollapseKeepsLeadingRun(u);
    ConsBlankLineFree('\n', CollapseBlankLines(u));
  }

  /** The replacement of a run that opens with a line feed and holds another
      one: a single line feed, then the collapsed text after the run's last
      line feed. */
  lemma CollapseOfRun(s: string, k: nat)
    requires s != [] && s[0] == '\n'
    requires LastIndexOf(s[1..][..LeadingSpace(s[1..])], '\n') == Some(k)
    ensures k + 2 <= |s| && CollapseBlankLines(s) == "\n" + CollapseBlankLines(s[k + 2..])
  {
    var w := s[1..1 + LeadingSpace(s[1..])];
    assert w == s[1..][..LeadingSpace(s[1..])];
    assert '\n' in w && LastIndexOf(w, '\n').value == k;
  }

  /** What follows the run's last line feed starts with no line feed before
      its first other character. */
  lemma RestOfRun(s: string, k: nat)
    requires s != []
    requires LastIndexOf(s[1..][..LeadingSpace(s[1..])], '\n') == Some(k)
    ensures k + 2 <= |s| && '\n' !in s[k + 2..][..LeadingSpace(s[k + 2..])]
  {
    var t := s[1..];
    assert s[k + 2..] == t[k + 1..];
    RunAfterLastLineFeed(t, k);
  }

  /** A character that starts no collapsible run stays in front of the
      collapsed rest without making a blank line. */
  lemma KeptCharBlankLineFree(s: string)
    requires s != []
    requires !(s[0] == '\n' && '\n' in s[1..][..LeadingSpace(s[1..])])
    requires BlankLineFree(CollapseBlankLines(s[1..]))
    ensures BlankLineFree(CollapseBlankLines(s))
  {
    var t := s[1..];
    assert t[..LeadingSpace(t)] == s[1..1 + LeadingSpace(s[1..])];
    assert CollapseBlankLines(s) == [s[0]] + CollapseBlankLines(t);
    if s[0] == '\n' {
      CollapseKeepsLeadingRun(t);
    }
    ConsBlankLineFree(s[0], CollapseBlankLines(t));
  }

  /** What follows a position of a fence-free text is fence-free. */
  lemma FenceFreeSuffix(s: string, m: nat)
    requires FenceFree(s) && m <= |s|
    ensures FenceFree(s[m..])
  {
    forall i | 0 <= i < |s[m..]| ensures !OccursAt(s[m..], Fence, i) {
      FenceAt(s[m..], i);
      FenceAt(s, i + m);
    }
  }

  /** A character in front of a fence-free text that does not start with two
      backticks, or that is no backtick itself, leaves it fence-free. */
  lemma ConsFenceFree(c: char, x: string)
    requires FenceFree(x)
    requires c == '`' && |x| >= 2 ==> x[0] != '`' || x[1] != '`'
    ensures FenceFree([c] + x)
  {
    var r := [c] + x;
    forall i | 0 <= i < |r| ensures !OccursAt(r, Fence, i) {
      FenceAt(r, i);
      if i > 0 {
        FenceAt(x, i - 1);
      }
    }
  }

  /** The blank-line replacement creates no fence: each replacement keeps a
      line feed between what stood before and after it, and every other
      character stays where it was. */
  lemma {:induction false} CollapseBlankLinesFenceFree(s: string)
    requires FenceFree(s)
    ensures FenceFree(CollapseBlankLines(s))
    decreases |s|
  {
    if s != [] {
      var t := s[1..];
      FenceFreeSuffix(s, 1);
      var w := t[..LeadingSpace(t)];
      assert w == s[1..1 + LeadingSpace(s[1..])];
      if s[0] == '\n' && '\n' in w {
        var k := LastIndexOf(w, '\n').value;
        var u := s[k + 2..];
        FenceFreeSuffix(s, k + 2);
        CollapseBlankLinesFenceFree(u);
        assert CollapseBlankLines(s) == "\n" + CollapseBlankLines(u);
        ConsFenceFree('\n', CollapseBlankLines(u));
      } else {
        CollapseBlankLinesFenceFree(t);
        var x := CollapseBlankLines(t);
        assert CollapseBlankLines(s) == [s[0]] + x;
        if s[0] == '`' && |x| >= 2 && x[0] == '`' {
          CollapseBlankLinesHead(t);
          assert x == [t[0]] + CollapseBlankLines(t[1..]);
          CollapseBlankLinesHead(t[1..]);
          FenceAt(s, 0);
        }
        ConsFenceFree(s[0], x);
      }
    }
  }

  /** A piece of a blank-line-free text is blank-line-free. */
  lemma BlankLineFreeInfix(s: string, t: string, o: nat)
    requires BlankLineFree(s) && OccursAt(s, t, o)
    ensures BlankLineFree(t)
  {
    forall i, j | 0 <= i < j < |t| && t[i] == '\n' && t[j] == '\n' ensures !SpacesBetween(t, i, j) {
      assert s[o + i] == t[i] && s[o + j] == t[j];
      assert !SpacesBetween(s, o + i, o + j);
      var k :| o + i < k < o + j && !IsSpace(s[k]);
      assert t[k - o] == s[k];
    }
  }

  /** Text without backticks passes `/```/g` unchanged. */
  lemma {:induction false} RemoveMarkerBacktickFree(s: string)
    requires '`' !in s
    ensures RemoveMarker(s, Fence) == s
  {
    if s != [] {
      assert '`' !in s[1..];
      RemoveMarkerBacktickFree(s[1..]);
    }
  }
}
