/** Getting a JSON text out of the generative service's free-text reply:
    the fence stripping and bracket-span cut of the career path, the
    pattern-based retry on the raw reply, and the fence stripping of the
    learning-plan path. */
module ReplySanitizer {
  import opened Wrappers
  import opened Text
  import opened Regexes
  import Seqs

  /** A text that appears inside a fence-free text is fence-free. */
  lemma FenceFreeInfix(s: string, t: string, i: nat)
    requires FenceFree(s) && OccursAt(s, t, i)
    ensures FenceFree(t)
  {
    forall j | 0 <= j < |t| ensures !OccursAt(t, Fence, j) {
      FenceAt(t, j);
      FenceAt(s, i + j);
    }
  }

  /** The first cleaning of a career reply: ```` ```json ```` and ```` ``` ````
      fences removed with the white space after them, then runs of three or
      more backticks, then lines that start with a fence, then the outer
      white space. No fence is left and the text is trimmed. */
  function CleanCareerReply(reply: string): (r: string)
    ensures FenceFree(r)
    ensures r != [] ==> !IsSpace(r[0]) && !IsSpace(r[|r| - 1])
  {
    var fenced := RemoveMarkerAndSpaces(RemoveMarkerAndSpaces(reply, JsonFence), Fence);
    var r := Trim(RemoveFenceLines(RemoveBacktickRuns(fenced), true));
    RemoveFenceLeavesNoFence(RemoveMarkerAndSpaces(reply, JsonFence));
    RemoveBacktickRunsFenceFree(fenced);
    RemoveFenceLinesFenceFree(fenced, true);
    var i :| 0 <= i && OccursAt(fenced, r, i);
    FenceFreeInfix(fenced, r, i);
    r
  }

  /** The third and fourth replacements of the career cleaning never change
      anything: the second already removed every fence. */
  lemma CareerCleaningNeedsTwoSteps(reply: string)
    ensures CleanCareerReply(reply) == Trim(RemoveMarkerAndSpaces(RemoveMarkerAndSpaces(reply, JsonFence), Fence))
  {
    var fenced := RemoveMarkerAndSpaces(RemoveMarkerAndSpaces(reply, JsonFence), Fence);
    RemoveFenceLeavesNoFence(RemoveMarkerAndSpaces(reply, JsonFence));
    RemoveBacktickRunsFenceFree(fenced);
    RemoveFenceLinesFenceFree(fenced, true);
  }

  /** There is a `[` before the last `]`. */
  predicate HasBracketSpan(s: string) {
    var a := IndexOf(s, '[');
    var b := LastIndexOf(s, ']');
    a.Some? && b.Some? && a.value < b.value
  }

  /** The cut to the inclusive span from the first `[` to the last `]` when
      the first comes before the last; the text unchanged otherwise. */
  function BracketSpan(s: string): (r: string)
    ensures !HasBracketSpan(s) ==> r == s
    ensures HasBracketSpan(s) ==>
      |r| >= 2 && r[0] == '[' && r[|r| - 1] == ']' &&
      OccursAt(s, r, IndexOf(s, '[').value) && ']' !in s[IndexOf(s, '[').value + |r|..]
  {
    var a := IndexOf(s, '[');
    var b := LastIndexOf(s, ']');
    if a.Some? && b.Some? && a.value < b.value then s[a.value..b.value + 1] else s
  }

  /** The match of `/\[[\s\S]*\]/`: from the leftmost `[` that has a `]`
      somewhere after it, greedily to the last `]`. */
  function ArrayMatch(s: string): Option<string>
  {
    if s == [] then None
    else if s[0] == '[' && ']' in s[1..] then Some(s[..LastIndexOf(s, ']').value + 1])
    else ArrayMatch(s[1..])
  }

  /** Removing the first character shifts the first `[` and the last `]`
      back by one, unless it was that `]`. */
  lemma BracketsOfTail(s: string)
    requires s != [] && s[0] != '['
    ensures IndexOf(s, '[').Some? <==> IndexOf(s[1..], '[').Some?
    ensures IndexOf(s, '[').Some? ==> IndexOf(s, '[').value == IndexOf(s[1..], '[').value + 1
    ensures LastIndexOf(s[1..], ']').Some? ==> LastIndexOf(s, ']') == Some(LastIndexOf(s[1..], ']').value + 1)
    ensures LastIndexOf(s[1..], ']').None? && LastIndexOf(s, ']').Some? ==> LastIndexOf(s, ']').value == 0
  {
    IndexOfTail(s, '[');
    LastIndexOfTail(s, ']');
  }

  /** At an opening `[`, the retry pattern matches up to the last `]` if
      there is one after it; if there is none, neither pattern applies. */
  lemma ArrayMatchAtBracket(s: string)
    requires s != [] && s[0] == '['
    requires ']' !in s[1..] ==> ArrayMatch(s[1..]) == None
    ensures ArrayMatch(s) == if HasBracketSpan(s) then Some(BracketSpan(s)) else None
  {
    assert IndexOf(s, '[') == Some(0);
    if ']' in s[1..] {
      var b := LastIndexOf(s, ']');
      assert s[b.value] == ']' && b.value != 0;
      assert s[..b.value + 1] == s[0..b.value + 1];
    } else {
      assert ']' !in s;
    }
  }

  /** The span between a known first `[` and a known last `]`. */
  lemma BracketSpanAt(s: string, a: nat, b: nat)
    requires IndexOf(s, '[') == Some(a) && LastIndexOf(s, ']') == Some(b) && a < b
    ensures HasBracketSpan(s) && BracketSpan(s) == s[a..b + 1]
  {
  }

  /** Before the first `[`, a span of the rest of the text is the span of
      the whole text. */
  lemma SpanOfTail(s: string)
    requires s != [] && s[0] != '[' && HasBracketSpan(s[1..])
    ensures HasBracketSpan(s) && BracketSpan(s) == BracketSpan(s[1..])
  {
    var a, b := ShiftedBrackets(s);
    BracketSpanAt(s[1..], a, b);
    BracketSpanAt(s, a + 1, b + 1);
    SpanShift(s, a, b);
  }

  /** The first `[` and the last `]` of the rest of the text, which are one
      position further on in the whole text. */
  lemma ShiftedBrackets(s: string) returns (a: nat, b: nat)
    requires s != [] && s[0] != '[' && HasBracketSpan(s[1..])
    ensures a < b && IndexOf(s[1..], '[') == Some(a) && LastIndexOf(s[1..], ']') == Some(b)
    ensures IndexOf(s, '[') == Some(a + 1) && LastIndexOf(s, ']') == Some(b + 1)
  {
    a := IndexOf(s[1..], '[').value;
    b := LastIndexOf(s[1..], ']').value;
    IndexOfTail(s, '[');
    LastIndexOfTail(s, ']');
  }

  /** The span moves by one position with the first `[` and the last `]`. */
  lemma SpanShift(s: string, a: nat, b: nat)
    requires a <= b && b + 2 <= |s|
    requires BracketSpan(s[1..]) == s[1..][a..b + 1]
    requires BracketSpan(s) == s[a + 1..b + 2]
    ensures BracketSpan(s) == BracketSpan(s[1..])
  {
    Seqs.SliceOfTail(s, a, b + 1);
  }

  /** Before the first `[`, the whole text has no span when the rest has
      none. */
  lemma NoSpanOfTail(s: string)
    requires s != [] && s[0] != '[' && !HasBracketSpan(s[1..])
    ensures !HasBracketSpan(s)
  {
    BracketsOfTail(s);
  }

  /** Before the first `[`, both the retry pattern and the bracket span are
      those of the rest of the text, one position further on. */
  lemma ArrayMatchBeforeBracket(s: string)
    requires s != [] && s[0] != '['
    requires ArrayMatch(s[1..]) == if HasBracketSpan(s[1..]) then Some(BracketSpan(s[1..])) else None
    ensures ArrayMatch(s) == if HasBracketSpan(s) then Some(BracketSpan(s)) else None
  {
    assert ArrayMatch(s) == ArrayMatch(s[1..]);
    if HasBracketSpan(s[1..]) {
      SpanOfTail(s);
    } else {
      NoSpanOfTail(s);
    }
  }

  /** The retry pattern selects exactly the span the first attempt cuts to,
      read from the raw reply, and matches exactly when that span exists. */
  lemma {:induction false} ArrayMatchIsBracketSpan(s: string)
    ensures ArrayMatch(s) == if HasBracketSpan(s) then Some(BracketSpan(s)) else None
  {
    if s == [] {
    } else if s[0] == '[' {
      if ']' !in s[1..] {
        ArrayMatchIsBracketSpan(s[1..]);
      }
      ArrayMatchAtBracket(s);
    } else {
      ArrayMatchIsBracketSpan(s[1..]);
      ArrayMatchBeforeBracket(s);
    }
  }

  /** The text the first parse attempt of a career reply sees: the cleaned
      reply, cut to its bracket span. Still free of fences. */
  function CareerCandidate(reply: string): (r: string)
    ensures FenceFree(r)
  {
    var cleaned := CleanCareerReply(reply);
    var r := BracketSpan(cleaned);
    if HasBracketSpan(cleaned) then
      FenceFreeInfix(cleaned, r, IndexOf(cleaned, '[').value);
      r
    else r
  }

  /** A `[` … `]` piece with no `[` before it and no `]` after it is the
      bracket span. */
  lemma BracketSpanOfFramed(s: string, listed: string, i: nat)
    requires OccursAt(s, listed, i)
    requires |listed| >= 2 && listed[0] == '[' && listed[|listed| - 1] == ']'
    requires '[' !in s[..i] && ']' !in s[i + |listed|..]
    ensures HasBracketSpan(s) && BracketSpan(s) == listed
  {
    var j := i + |listed| - 1;
    assert s[i] == listed[0] && s[j] == listed[|listed| - 1];
    var a := IndexOf(s, '[');
    var b := LastIndexOf(s, ']');
    assert a.Some? && b.Some?;
  }

  /** The ```` ```json ```` fence after backtick-free prose goes together with
      the line feed after it. */
  lemma RemoveOpeningFence(pre: string, listed: string, post: string)
    requires '`' !in pre && '`' !in listed && '`' !in post
    requires listed != [] && !IsSpace(listed[0])
    ensures RemoveMarkerAndSpaces(pre + JsonFence + "\n" + listed + "\n```\n" + post, JsonFence) ==
            pre + listed + "\n```\n" + post
  {
    Seqs.RegroupTail6(pre, JsonFence, "\n", listed, "\n```\n", post);
    RemoveFencePlainPrefix(pre, JsonFence + "\n" + listed + "\n```\n" + post, JsonFence);
    OpeningFenceStep(listed, post);
    Seqs.RegroupTail4(pre, listed, "\n```\n", post);
  }

  lemma OpeningFenceStep(listed: string, post: string)
    requires '`' !in listed && '`' !in post
    requires listed != [] && !IsSpace(listed[0])
    ensures RemoveMarkerAndSpaces(JsonFence + "\n" + listed + "\n```\n" + post, JsonFence) ==
            listed + "\n```\n" + post
  {
    var x := listed + "\n```\n" + post;
    assert JsonFence + "\n" + listed + "\n```\n" + post == JsonFence + "\n" + x;
    JsonFenceThenLine(x);
    ListedBeforeClosingFence(listed, post);
  }

  /** Nothing after the opening fence matches ```` ```json ````. */
  lemma ListedBeforeClosingFence(listed: string, post: string)
    requires '`' !in listed && '`' !in post
    ensures RemoveMarkerAndSpaces(listed + "\n```\n" + post, JsonFence) == listed + "\n```\n" + post
  {
    assert listed + "\n```\n" + post == (listed + "\n") + ("```\n" + post);
    RemoveFencePlainPrefix(listed + "\n", "```\n" + post, JsonFence);
    ClosingFenceIsNotJson(post);
  }

  /** A ```` ```json ```` fence goes with the line feed after it. */
  lemma JsonFenceThenLine(x: string)
    requires x != [] && !IsSpace(x[0])
    ensures RemoveMarkerAndSpaces(JsonFence + "\n" + x, JsonFence) == RemoveMarkerAndSpaces(x, JsonFence)
  {
    var u := JsonFence + "\n" + x;
    assert StartsWith(u, JsonFence);
    assert u[|JsonFence|..] == "\n" + x;
    assert ("\n" + x)[1..] == x;
  }

  /** A plain ```` ``` ```` fence is not a ```` ```json ```` one. */
  lemma ClosingFenceIsNotJson(post: string)
    requires '`' !in post
    ensures RemoveMarkerAndSpaces("```\n" + post, JsonFence) == "```\n" + post
  {
    var t := "\n" + post;
    RemoveFencePlainPrefix(t, [], JsonFence);
    assert t + [] == t;
    var w2 := "`" + t;
    var w1 := "`" + w2;
    var w0 := "`" + w1;
    BacktickNotJsonStep(w2, 1);
    BacktickNotJsonStep(w1, 2);
    BacktickNotJsonStep(w0, 3);
    assert w0 == "```\n" + post;
  }

  /** A backtick whose run ends in a line feed `k` characters later, before
      the `json` of the marker could begin, is kept. */
  lemma BacktickNotJsonStep(w: string, k: nat)
    requires 1 <= k <= 3 && |w| > k && w[0] == '`' && w[k] == '\n'
    ensures RemoveMarkerAndSpaces(w, JsonFence) == [w[0]] + RemoveMarkerAndSpaces(w[1..], JsonFence)
  {
    assert !StartsWith(w, JsonFence) by { assert |w| >= 7 ==> w[..7][k] != JsonFence[k]; }
  }

  /** The closing ```` ``` ```` fence goes with the white space after it. */
  lemma RemoveClosingFence(pre: string, listed: string, post: string)
    requires '`' !in pre && '`' !in listed && '`' !in post
    ensures RemoveMarkerAndSpaces(pre + listed + "\n```\n" + post, Fence) == pre + listed + ("\n" + TrimStart(post))
  {
    ClosingLineSplit(pre, listed, post);
    ClosingFenceAfter(pre + listed + "\n", post);
    Seqs.RegroupLast(pre, listed, "\n", TrimStart(post));
  }

  /** The closing fence line, cut after its line feed. */
  lemma ClosingLineSplit(pre: string, listed: string, post: string)
    ensures pre + listed + "\n```\n" + post == (pre + listed + "\n") + ("```\n" + post)
  {
    assert "\n```\n" == "\n" + "```\n";
    assert pre + listed + ("\n" + "```\n") + post == (pre + listed + "\n") + ("```\n" + post);
  }

  /** The closing fence after backtick-free text. */
  lemma ClosingFenceAfter(a: string, post: string)
    requires '`' !in a && '`' !in post
    ensures RemoveMarkerAndSpaces(a + ("```\n" + post), Fence) == a + TrimStart(post)
  {
    RemoveFencePlainPrefix(a, "```\n" + post, Fence);
    ClosingFenceStep(post);
  }

  /** A closing fence at the start goes with the white space after it. */
  lemma ClosingFenceStep(post: string)
    requires '`' !in post
    ensures RemoveMarkerAndSpaces("```\n" + post, Fence) == TrimStart(post)
  {
    var t := "```\n" + post;
    assert StartsWith(t, Fence);
    assert t[|Fence|..] == "\n" + post;
    TrimStartLineFeed(post);
    TrimKeepsAbsent(post, '`');
    BacktickFreeUnchanged(TrimStart(post), Fence);
  }

  /** A line feed in front is trimmed with the rest of the leading space. */
  lemma TrimStartLineFeed(post: string)
    ensures TrimStart("\n" + post) == TrimStart(post)
  {
    assert ("\n" + post)[1..] == post;
  }

  /** A text without backticks is left alone by a fence removal. */
  lemma BacktickFreeUnchanged(s: string, marker: string)
    requires marker != [] && marker[0] == '`' && '`' !in s
    ensures RemoveMarkerAndSpaces(s, marker) == s
  {
    RemoveFencePlainPrefix(s, [], marker);
    assert s + [] == s;
  }

  /** Trimming never brings in a character. */
  lemma TrimKeepsAbsent(s: string, c: char)
    requires c !in s
    ensures c !in TrimStart(s) && c !in TrimEnd(s)
  {
    var h, t := TrimStart(s), TrimEnd(s);
    forall k | 0 <= k < |h| ensures h[k] != c {
      assert h[k] == s[|s| - |h| + k];
    }
    forall k | 0 <= k < |t| ensures t[k] != c {
      assert t[k] == s[k];
    }
  }

  /** Trimming prose + array + prose keeps the array, since it neither starts
      nor ends with white space. */
  lemma TrimKeepsFramedArray(pre: string, listed: string, post: string)
    requires '[' !in pre && ']' !in post
    requires |listed| >= 2 && listed[0] == '[' && listed[|listed| - 1] == ']'
    ensures HasBracketSpan(Trim(pre + listed + post)) && BracketSpan(Trim(pre + listed + post)) == listed
  {
    TrimFramed(pre, listed, post);
    TrimKeepsAbsent(pre, '[');
    TrimKeepsAbsent(post, ']');
    FramedBracketSpan(TrimStart(pre), listed, TrimEnd(post));
  }

  lemma FramedBracketSpan(head: string, listed: string, tail: string)
    requires '[' !in head && ']' !in tail
    requires |listed| >= 2 && listed[0] == '[' && listed[|listed| - 1] == ']'
    ensures HasBracketSpan(head + listed + tail) && BracketSpan(head + listed + tail) == listed
  {
    var r := head + listed + tail;
    assert r[..|head|] == head && r[|head| + |listed|..] == tail;
    BracketSpanOfFramed(r, listed, |head|);
  }

  /** A reply that wraps a JSON array in a ```` ```json ```` fence between two
      pieces of prose reaches the first parse as exactly that array. */
  lemma CareerCandidateOfFencedArray(pre: string, listed: string, post: string)
    requires '`' !in pre && '`' !in listed && '`' !in post
    requires '[' !in pre && ']' !in post
    requires |listed| >= 2 && listed[0] == '[' && listed[|listed| - 1] == ']'
    ensures CareerCandidate(pre + JsonFence + "\n" + listed + "\n```\n" + post) == listed
  {
    CleanFencedArray(pre, listed, post);
    TrimKeepsAbsent(post, ']');
    TrimKeepsFramedArray(pre, listed, "\n" + TrimStart(post));
  }

  /** The first cleaning of such a reply leaves the prose, the array and a
      line feed, trimmed. */
  lemma CleanFencedArray(pre: string, listed: string, post: string)
    requires '`' !in pre && '`' !in listed && '`' !in post
    requires listed != [] && !IsSpace(listed[0])
    ensures CleanCareerReply(pre + JsonFence + "\n" + listed + "\n```\n" + post) ==
            Trim(pre + listed + ("\n" + TrimStart(post)))
  {
    RemoveOpeningFence(pre, listed, post);
    RemoveClosingFence(pre, listed, post);
    CareerCleaningNeedsTwoSteps(pre + JsonFence + "\n" + listed + "\n```\n" + post);
  }

  /** The text the second parse attempt sees, from the retry pattern's match:
      every fence removed, every blank line collapsed, trimmed. No three
      backticks and no two line feeds with only white space between them are
      left. */
  function RetryCandidate(matched: string): (r: string)
    ensures r != [] ==> !IsSpace(r[0]) && !IsSpace(r[|r| - 1])
    ensures FenceFree(r)
    ensures BlankLineFree(r)
  {
    var unfenced := RemoveMarker(matched, Fence);
    var collapsed := CollapseBlankLines(unfenced);
    RemoveMarkerLeavesNoFence(matched);
    CollapseBlankLinesFenceFree(unfenced);
    CollapseBlankLinesLeavesNone(unfenced);
    var r := Trim(collapsed);
    var i :| 0 <= i && OccursAt(collapsed, r, i);
    FenceFreeInfix(collapsed, r, i);
    BlankLineFreeInfix(collapsed, r, i);
    r
  }

  /** A match without backticks or line feeds reaches the retry parse only
      trimmed. */
  lemma RetryCandidateOfPlainText(matched: string)
    requires '`' !in matched && '\n' !in matched
    ensures RetryCandidate(matched) == Trim(matched)
  {
    RemoveMarkerBacktickFree(matched);
    CollapseBlankLinesNoLineFeed(matched);
  }

  /** `/```json\n?|\n?```/g` with `newlineBeforeJson` false, as the
      learning-plan path writes it; with it true, the first alternative also
      takes a line feed before the fence, `/\n?```json\n?|\n?```/g`. */
  function ScanPlanFences(s: string, newlineBeforeJson: bool): string
    decreases |s|
  {
    if s == [] then []
    else if StartsWith(s, JsonFence) then ScanPlanFences(DropLineFeed(s[7..]), newlineBeforeJson)
    else if newlineBeforeJson && s[0] == '\n' && StartsWith(s[1..], JsonFence) then
      ScanPlanFences(DropLineFeed(s[8..]), newlineBeforeJson)
    else if s[0] == '\n' && StartsWith(s[1..], Fence) then ScanPlanFences(s[4..], newlineBeforeJson)
    else if StartsWith(s, Fence) then ScanPlanFences(s[3..], newlineBeforeJson)
    else [s[0]] + ScanPlanFences(s[1..], newlineBeforeJson)
  }

  /** `\n?` at the front of `s`. */
  function DropLineFeed(s: string): (r: string)
    ensures |r| <= |s|
  {
    if s != [] && s[0] == '\n' then s[1..] else s
  }

  /** A character that is not a backtick, with no fence after it, passes
      through the scan. */
  lemma ScanPlainStep(s: string, newlineBeforeJson: bool)
    requires s != [] && s[0] != '`' && !StartsWith(s[1..], Fence)
    ensures ScanPlanFences(s, newlineBeforeJson) == [s[0]] + ScanPlanFences(s[1..], newlineBeforeJson)
  {
    NoFenceStart(s);
    assert StartsWith(s[1..], JsonFence) ==> StartsWith(s[1..], Fence);
  }

  /** Text without backticks passes through the plan fence scan unchanged,
      as long as what follows it does not start with a fence. */
  lemma {:induction false} ScanPlanFencesPlainText(body: string, t: string, newlineBeforeJson: bool)
    requires '`' !in body && !StartsWith(t, Fence)
    ensures ScanPlanFences(body + t, newlineBeforeJson) == body + ScanPlanFences(t, newlineBeforeJson)
  {
    if body != [] {
      var s := body + t;
      assert s[1..] == body[1..] + t;
      if |body| > 1 {
        assert s[1..][0] == body[1];
        NoFenceStart(s[1..]);
      }
      ScanPlainStep(s, newlineBeforeJson);
      ScanPlanFencesPlainText(body[1..], t, newlineBeforeJson);
    } else {
      assert body + t == t;
    }
  }

  /** A text that does not start with a backtick starts no fence. */
  lemma NoFenceStart(s: string)
    requires s != [] && s[0] != '`'
    ensures !StartsWith(s, Fence) && !StartsWith(s, JsonFence)
  {
  }

  /** A closing fence on its own line disappears with the line feed before it. */
  lemma ClosingFenceRemoved(newlineBeforeJson: bool)
    ensures ScanPlanFences("\n```", newlineBeforeJson) == []
  {
    assert "\n```"[1..] == Fence;
    assert "\n```"[4..] == [];
  }

  /** The learning-plan reply cleaning as written. */
  function CleanPlanReplyAsWritten(reply: string): (r: string)
    ensures r != [] ==> !IsSpace(r[0]) && !IsSpace(r[|r| - 1])
  {
    Trim(ScanPlanFences(reply, false))
  }

  /** The learning-plan reply cleaning with the line feed before an opening
      ```` ```json ```` taken along with it. */
  function CleanPlanReply(reply: string): (r: string)
    ensures r != [] ==> !IsSpace(r[0]) && !IsSpace(r[|r| - 1])
  {
    Trim(ScanPlanFences(reply, true))
  }

  /** A fenced JSON block at the very start of the reply is unwrapped by the
      cleaning as written. */
  lemma AsWrittenUnwrapsLeadingFence(body: string)
    requires '`' !in body
    ensures CleanPlanReplyAsWritten(JsonFence + "\n" + body + "\n```") == Trim(body)
  {
    var s := JsonFence + "\n" + body + "\n```";
    assert StartsWith(s, JsonFence);
    assert DropLineFeed(s[7..]) == body + "\n```";
    NoFenceStart("\n```");
    ScanPlanFencesPlainText(body, "\n```", false);
    ClosingFenceRemoved(false);
    assert body + [] == body;
  }

  /** The scan as written takes `\n``` ` first and leaves the tag. */
  lemma AsWrittenScanKeepsJsonTag()
    ensures ScanPlanFences("\n```json\n{}\n```", false) == "json\n{}"
  {
    var s := "\n```json\n{}\n```";
    assert s[1..] == "```json\n{}\n```";
    NoFenceStart(s);
    assert StartsWith(s[1..], Fence);
    assert s[4..] == "json\n{}" + "\n```";
    NoFenceStart("\n```");
    ScanPlanFencesPlainText("json\n{}", "\n```", false);
    ClosingFenceRemoved(false);
    assert "json\n{}" + [] == "json\n{}";
  }

  /** A fenced JSON block after a line feed keeps its `json` tag when cleaned
      as written: the second alternative takes the line feed and the three
      backticks before the first alternative can see the whole fence. */
  lemma AsWrittenKeepsJsonTag()
    ensures CleanPlanReplyAsWritten("\n```json\n{}\n```") == "json\n{}"
  {
    AsWrittenScanKeepsJsonTag();
    var t := "json\n{}";
    assert t[0] == 'j' && t[|t| - 1] == '}';
    TrimNoSpace(t);
  }

  /** The corrected cleaning unwraps a fenced JSON block whether or not a line
      feed comes before it. */
  lemma CleanPlanReplyUnwrapsFence(lead: string, body: string)
    requires lead == [] || lead == "\n"
    requires '`' !in body
    ensures CleanPlanReply(lead + JsonFence + "\n" + body + "\n```") == Trim(body)
  {
    var s := lead + JsonFence + "\n" + body + "\n```";
    if lead == [] {
      assert s == JsonFence + "\n" + body + "\n```";
      assert StartsWith(s, JsonFence);
      assert DropLineFeed(s[7..]) == body + "\n```";
    } else {
      assert s[0] == '\n' && s[1..] == JsonFence + "\n" + body + "\n```";
      assert !StartsWith(s, JsonFence) && StartsWith(s[1..], JsonFence);
      assert DropLineFeed(s[8..]) == body + "\n```";
    }
    NoFenceStart("\n```");
    ScanPlanFencesPlainText(body, "\n```", true);
    ClosingFenceRemoved(true);
    assert body + [] == body;
  }

  /** Where the text has no backticks at all, both cleanings only trim it. */
  lemma CleanPlanReplyPlainText(reply: string)
    requires '`' !in reply
    ensures CleanPlanReply(reply) == Trim(reply) == CleanPlanReplyAsWritten(reply)
  {
    ScanPlanFencesPlainText(reply, [], true);
    ScanPlanFencesPlainText(reply, [], false);
    assert reply + [] == reply;
  }
}
