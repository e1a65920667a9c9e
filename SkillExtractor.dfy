/** Turning the generative service's free-text answer into a list of skills
    (`extractListFromGPT`) and the role-keyed fallback used when the service
    call fails (`identifyMissingSkills`). */
module SkillExtractor {
  import opened Wrappers
  import opened Text
  import opened Seqs
  import opened External

  const DefaultSkills: seq<string> := ["Excel", "Communication", "Problem Solving"]
  const MaxSkills := 7
  const MinHeuristicLength := 3

  /** The match of `/\[([^\]]+)\]/` when `s` starts with `[`: the text up to
      the first `]`, provided it is not empty. */
  function GroupAt(s: string): (g: Option<string>)
    requires s != [] && s[0] == '['
    ensures g.Some? ==> g.value != [] && ']' !in g.value && OccursAt(s, "[" + g.value + "]", 0)
    ensures g.None? ==> |s| == 1 || s[1] == ']' || ']' !in s[1..]
  {
    match IndexOf(s[1..], ']')
    case Some(j) =>
      if j > 0 then
        assert s[..j + 2] == "[" + s[1..j + 1] + "]";
        Some(s[1..j + 1])
      else None
    case None => None
  }

  /** The capture group of the leftmost match of `/\[([^\]]+)\]/`, if any. */
  function BracketGroup(s: string): Option<string>
  {
    if s == [] then None
    else if s[0] == '[' && GroupAt(s).Some? then GroupAt(s)
    else BracketGroup(s[1..])
  }

  /** The pattern `/\[([^\]]+)\]/` matches at position `i`: a `[` there,
      followed by something other than `]` and, somewhere later, by a `]`. */
  predicate OpensGroup(s: string, i: nat) {
    i + 1 < |s| && s[i] == '[' && s[i + 1] != ']' && ']' in s[i + 1..]
  }

  /** The pattern matches at no position before `n`. */
  predicate NoGroupBefore(s: string, n: nat) {
    forall j :: 0 <= j < n ==> !OpensGroup(s, j)
  }

  /** Past the first character, the pattern matches where it matched one
      position further on in the whole text. */
  lemma OpensGroupTail(s: string, j: nat)
    requires 1 <= j < |s|
    ensures OpensGroup(s, j) <==> OpensGroup(s[1..], j - 1)
  {
    if j + 1 < |s| {
      assert s[j + 1..] == s[1..][j..];
    }
  }

  /** The group found is the one of the leftmost match, as `String.match`
      returns it: the pattern matches at no earlier position, and the group is
      the non-empty text up to the first `]` after the `[`. When none is
      found, the pattern matches nowhere. */
  lemma {:induction false} BracketGroupSpec(s: string)
    ensures BracketGroup(s).Some? ==>
      var g := BracketGroup(s).value;
      g != [] && ']' !in g &&
      exists i :: 0 <= i && OccursAt(s, "[" + g + "]", i) && NoGroupBefore(s, i)
    ensures BracketGroup(s).None? ==> NoGroupBefore(s, |s|)
  {
    if s != [] {
      if s[0] == '[' && GroupAt(s).Some? {
        assert NoGroupBefore(s, 0);
      } else {
        BracketGroupSpec(s[1..]);
        assert !OpensGroup(s, 0);
        var rest := BracketGroup(s[1..]);
        if rest.Some? {
          var i :| 0 <= i && OccursAt(s[1..], "[" + rest.value + "]", i) && NoGroupBefore(s[1..], i);
          assert OccursAt(s, "[" + rest.value + "]", i + 1);
          forall j | 1 <= j < i + 1 ensures !OpensGroup(s, j) {
            OpensGroupTail(s, j);
          }
        } else {
          forall j | 1 <= j < |s| ensures !OpensGroup(s, j) {
            OpensGroupTail(s, j);
          }
        }
      }
    }
  }

  /** The test that keeps every character but the two quote marks. */
  const NotQuote: char -> bool := c => c != '\'' && c != '"'

  /** `s.replace(/['"]/g, '')`: every other character kept, in order. */
  function RemoveQuotes(s: string): (r: string)
    ensures '\'' !in r && '"' !in r
    ensures forall c :: c in r ==> c in s
  {
    Filter(s, NotQuote)
  }

  /** Every character of a trimmed string comes from the string. */
  lemma TrimChar(s: string, c: char)
    requires c in Trim(s)
    ensures c in s
  {
    var t := TrimStart(s);
    var r := TrimEnd(t);
    assert Trim(s) == r;
    var j :| 0 <= j < |r| && r[j] == c;
    assert t[j] == c;
    assert s[|s| - |t| + j] == c;
  }

  /** Every character of a piece of a split comes from the split string. */
  lemma SplitChar(s: string, sep: char, k: nat, c: char)
    requires k < |Split(s, sep)| && c in Split(s, sep)[k]
    ensures c in s && c != sep
  {
    JoinSplit(s, sep);
    PieceCharInJoin(Split(s, sep), sep, k, c);
  }

  /** A character of one piece is a character of the joined text. */
  lemma {:induction false} PieceCharInJoin(pieces: seq<string>, sep: char, k: nat, c: char)
    requires |pieces| >= 1 && k < |pieces| && c in pieces[k]
    ensures c in Join(pieces, sep)
  {
    if k > 0 {
      PieceCharInJoin(pieces[1..], sep, k - 1, c);
    }
  }

  /** One item of the bracket tier: the trimmed piece with its quotes
      removed. */
  function CleanItem(piece: string): (item: string)
    ensures '\'' !in item && '"' !in item
    ensures forall c :: c in item ==> c in piece
  {
    var t := Trim(piece);
    var r := RemoveQuotes(t);
    assert forall c :: c in r ==> c in piece by {
      forall c | c in r ensures c in piece {
        TrimChar(piece, c);
      }
    }
    r
  }

  /** An item is the trimmed piece with its quotes, and nothing else,
      removed: every other character of the trimmed piece stays, in order. */
  lemma CleanItemKeepsText(piece: string)
    ensures KeepsExactly(CleanItem(piece), Trim(piece), NotQuote)
  {
    assert CleanItem(piece) == Filter(Trim(piece), NotQuote);
    FilterKeepsOrder(Trim(piece), NotQuote);
  }

  /** The bracket tier: the comma-separated items of the group, each trimmed
      and stripped of quotes, the empty ones dropped, the others kept in
      order. */
  function BracketItems(group: string): seq<string>
  {
    Filter(Map(Split(group, ','), CleanItem), IsNonEmpty)
  }

  /** The items of the bracket tier are, in order, exactly the cleaned pieces
      of the group that are not empty. */
  lemma BracketItemsInOrder(group: string)
    ensures KeepsExactly(BracketItems(group), Map(Split(group, ','), CleanItem), IsNonEmpty)
  {
    FilterKeepsOrder(Map(Split(group, ','), CleanItem), IsNonEmpty);
  }

  predicate IsNonEmpty(item: string) {
    |item| > 0
  }

  /** Every item of the bracket tier is non-empty, free of quotes and commas,
      and made of characters of the group. */
  lemma BracketItemsWellFormed(group: string)
    ensures forall item :: item in BracketItems(group) ==>
      item != [] && '\'' !in item && '"' !in item && ',' !in item &&
      forall c :: c in item ==> c in group
  {
    var pieces := Split(group, ',');
    var cleaned := Map(pieces, CleanItem);
    var items := Filter(cleaned, IsNonEmpty);
    forall item | item in items
      ensures item != [] && '\'' !in item && '"' !in item && forall c :: c in item ==> c in group && c != ','
    {
      assert item in cleaned && IsNonEmpty(item);
      var k :| 0 <= k < |cleaned| && cleaned[k] == item;
      assert item == CleanItem(pieces[k]);
      forall c | c in item ensures c in group && c != ',' {
        SplitChar(group, ',', k, c);
      }
    }
  }

  /** `\w`: ASCII letters, digits and the underscore. */
  predicate IsWordChar(c: char) {
    'a' <= c <= 'z' || 'A' <= c <= 'Z' || '0' <= c <= '9' || c == '_'
  }

  /** The characters `/[^\w\s,.-]/g` leaves in place. */
  predicate IsKept(c: char) {
    IsWordChar(c) || IsSpace(c) || c == ',' || c == '.' || c == '-'
  }

  /** `response.replace(/[^\w\s,.-]/g, '')`: every allowed character kept,
      in order, and no other. */
  function KeepAllowed(s: string): (r: string)
    ensures KeepsExactly(r, s, IsKept)
    ensures forall c :: c in r ==> IsKept(c) && c in s
  {
    FilterKeepsOrder(s, IsKept);
    Filter(s, IsKept)
  }

  /** `xs.slice(0, n)`. */
  function Take<T>(xs: seq<T>, n: nat): (r: seq<T>)
    ensures |r| == if |xs| <= n then |xs| else n
    ensures r == xs[..|r|]
  {
    if |xs| <= n then xs else xs[..n]
  }

  /** A skill the heuristic tier accepts: at least three characters, trimmed,
      no comma, nothing outside `\w`, `\s`, `.` and `-`. */
  predicate IsHeuristicItem(item: string) {
    |item| >= MinHeuristicLength && !IsSpace(item[0]) && !IsSpace(item[|item| - 1]) &&
    forall c :: c in item ==> IsKept(c) && c != ','
  }

  predicate IsLongEnough(item: string) {
    |item| > 2
  }

  /** The heuristic tier: the first seven of the long pieces, or all of them
      when there are fewer. */
  function HeuristicItems(s: string): (items: seq<string>)
    ensures |items| == if |LongPieces(s)| <= MaxSkills then |LongPieces(s)| else MaxSkills
    ensures items == LongPieces(s)[..|items|]
  {
    Take(LongPieces(s), MaxSkills)
  }

  /** A trimmed piece of the filtered text, long enough to be kept, is a
      heuristic item. */
  lemma TrimmedPieceWellFormed(kept: string, k: nat)
    requires forall c :: c in kept ==> IsKept(c)
    requires k < |Split(kept, ',')| && IsLongEnough(Trim(Split(kept, ',')[k]))
    ensures IsHeuristicItem(Trim(Split(kept, ',')[k]))
  {
    var piece := Split(kept, ',')[k];
    forall c | c in Trim(piece) ensures IsKept(c) && c != ',' {
      TrimChar(piece, c);
      SplitChar(kept, ',', k, c);
    }
  }

  /** The comma-separated pieces of the filtered text, trimmed, those of at
      least three characters kept in order, before the cut to seven. */
  function LongPieces(s: string): (pieces: seq<string>)
    ensures KeepsExactly(pieces, Map(Split(KeepAllowed(s), ','), Trim), IsLongEnough)
  {
    FilterKeepsOrder(Map(Split(KeepAllowed(s), ','), Trim), IsLongEnough);
    Filter(Map(Split(KeepAllowed(s), ','), Trim), IsLongEnough)
  }

  /** One long piece is a heuristic item. */
  lemma LongPieceWellFormed(s: string, item: string)
    requires item in LongPieces(s)
    ensures IsHeuristicItem(item)
  {
    var kept := KeepAllowed(s);
    var k := MapIndex(Split(kept, ','), Trim, item);
    TrimmedPieceWellFormed(kept, k);
  }

  /** What `slice` keeps comes from the list. */
  lemma TakeKeepsMembers<T>(xs: seq<T>, n: nat, x: T)
    requires x in Take(xs, n)
    ensures x in xs
  {
    var r := Take(xs, n);
    var k :| 0 <= k < |r| && r[k] == x;
    assert xs[k] == x;
  }

  /** Every item of the heuristic tier is a trimmed text of at least three
      characters, free of commas and of the characters the filter removes. */
  lemma HeuristicItemsWellFormed(s: string)
    ensures forall item :: item in HeuristicItems(s) ==> IsHeuristicItem(item)
  {
    forall item | item in HeuristicItems(s) ensures IsHeuristicItem(item) {
      TakeKeepsMembers(LongPieces(s), MaxSkills, item);
      LongPieceWellFormed(s, item);
    }
  }

  /** `extractListFromGPT` as written: the items of the leftmost bracket group
      when there is one, otherwise the heuristic items, otherwise the default
      list. The bracket tier has neither the cap of seven nor the default
      list, so it can return nothing and more than seven. */
  function ExtractListAsWritten(response: string): (skills: seq<string>)
    ensures BracketGroup(response).Some? ==> skills == BracketItems(BracketGroup(response).value)
    ensures BracketGroup(response).None? && HeuristicItems(response) != [] ==> skills == HeuristicItems(response)
    ensures BracketGroup(response).None? && HeuristicItems(response) == [] ==> skills == DefaultSkills
    ensures BracketGroup(response).None? ==> 1 <= |skills| <= MaxSkills
    ensures forall item :: item in skills ==> item != [] && ',' !in item
  {
    DefaultSkillsWellFormed();
    match BracketGroup(response)
    case Some(group) =>
      BracketItemsWellFormed(group);
      BracketItems(group)
    case None =>
      HeuristicItemsWellFormed(response);
      var items := HeuristicItems(response);
      if |items| > 0 then items else DefaultSkills
  }

  /** The default list is itself a well-formed skill list. */
  lemma DefaultSkillsWellFormed()
    ensures forall item :: item in DefaultSkills ==> item != [] && ',' !in item
  {
    assert ',' !in "Excel";
    assert ',' !in "Communication";
    assert ',' !in "Problem Solving";
  }

  /** The bracket group of a list of two quoted blanks. */
  lemma GroupOfQuotedBlanks()
    ensures BracketGroup("['', '']") == Some("'', ''")
  {
    var s := "['', '']";
    var t := s[1..];
    assert t[..6] == "'', ''";
    IndexOfUnique(t, ']', 6);
    GroupOfLeadingBracket(s, 6);
    assert s[1..7] == "'', ''";
  }

  /** A text that opens with `[` and closes it `j` characters later, with
      something in between, has that in-between as its group. */
  lemma GroupOfLeadingBracket(s: string, j: nat)
    requires s != [] && s[0] == '[' && 0 < j && IndexOf(s[1..], ']') == Some(j)
    ensures BracketGroup(s) == Some(s[1..j + 1])
  {
  }

  /** Removing the quotes from a string of quotes leaves nothing. */
  lemma QuotesVanish(s: string)
    requires forall i :: 0 <= i < |s| ==> s[i] == '\''
    ensures RemoveQuotes(s) == []
  {
    FilterRejectsAll(s, NotQuote);
  }

  /** Two quotes are already trimmed. */
  lemma TrimQuotePair()
    ensures Trim("''") == "''"
  {
    assert TrimStart("''") == "''";
    assert TrimEnd("''") == "''";
  }

  /** A space before two quotes is trimmed away. */
  lemma TrimSpacedQuotePair()
    ensures Trim(" ''") == "''"
  {
    assert " ''"[1..] == "''";
    assert TrimStart(" ''") == TrimStart("''");
    TrimQuotePair();
  }

  /** A quoted blank cleans to nothing, with or without a leading space. */
  lemma QuotedBlankCleansToNothing()
    ensures CleanItem("''") == [] && CleanItem(" ''") == []
  {
    TrimQuotePair();
    TrimSpacedQuotePair();
    CleansToNothing("''");
    CleansToNothing(" ''");
  }

  /** A piece that trims to two quotes cleans to nothing. */
  lemma CleansToNothing(piece: string)
    requires Trim(piece) == "''"
    ensures CleanItem(piece) == []
  {
    QuotesVanish("''");
  }

  /** The group of two quoted blanks splits at its one comma. */
  lemma SplitOfQuotedBlanks()
    ensures Split("'', ''", ',') == ["''", " ''"]
  {
    var group := "'', ''";
    assert IndexOf(group, ',') == Some(2);
    assert group[..2] == "''";
    assert group[3..] == " ''";
    assert IndexOf(" ''", ',') == None;
  }

  /** The items of two quoted blanks all clean to nothing. */
  lemma ItemsOfQuotedBlanks()
    ensures BracketItems("'', ''") == []
  {
    SplitOfQuotedBlanks();
    BlankPiecesClean(Split("'', ''", ','));
    ItemsOfBlankPieces("'', ''");
  }

  /** Both pieces of the group of two quoted blanks clean to nothing. */
  lemma BlankPiecesClean(pieces: seq<string>)
    requires pieces == ["''", " ''"]
    ensures forall i :: 0 <= i < |pieces| ==> CleanItem(pieces[i]) == []
  {
    forall i | 0 <= i < |pieces| ensures CleanItem(pieces[i]) == [] {
      QuotedBlankCleansToNothing();
      if i == 0 {
        assert pieces[i] == "''";
      } else {
        assert pieces[i] == " ''";
      }
    }
  }

  /** A group whose every piece cleans to nothing has no items. */
  lemma ItemsOfBlankPieces(group: string)
    requires forall i :: 0 <= i < |Split(group, ',')| ==> CleanItem(Split(group, ',')[i]) == []
    ensures BracketItems(group) == []
  {
    FilterRejectsAll(Map(Split(group, ','), CleanItem), IsNonEmpty);
  }

  /** A bracketed list of empty strings comes back as no skills at all. */
  lemma AsWrittenEmptyForQuotedBlanks()
    ensures ExtractListAsWritten("['', '']") == []
  {
    GroupOfQuotedBlanks();
    ItemsOfQuotedBlanks();
  }

  /** `extractListFromGPT` as its own degrade chain intends it: the bracket
      tier, like the heuristic one, cut to seven items and replaced by the
      default list when it is empty; whatever the reply, between one and seven
      skills, each non-empty and free of commas. */
  function ExtractList(response: string): (skills: seq<string>)
    ensures 1 <= |skills| <= MaxSkills
    ensures forall item :: item in skills ==> item != [] && ',' !in item
    ensures BracketGroup(response).Some? ==> skills == CappedBracketItems(BracketGroup(response).value)
    ensures BracketGroup(response).None? ==> skills == ExtractListAsWritten(response)
  {
    match BracketGroup(response)
    case Some(group) => CappedBracketItems(group)
    case None => ExtractListAsWritten(response)
  }

  /** The corrected bracket tier: the first seven of the group's items, or
      the default list when it has none. */
  function CappedBracketItems(group: string): (skills: seq<string>)
    ensures BracketItems(group) != [] ==> |skills| == (if |BracketItems(group)| <= MaxSkills then |BracketItems(group)| else MaxSkills) &&
                                          skills == BracketItems(group)[..|skills|]
    ensures BracketItems(group) == [] ==> skills == DefaultSkills
    ensures 1 <= |skills| <= MaxSkills
    ensures forall item :: item in skills ==> item != [] && ',' !in item
  {
    BracketItemsWellFormed(group);
    CapOrDefault(BracketItems(group))
  }

  /** The first seven of `items`, or the default list when there are none;
      well-formed items stay well-formed. */
  function CapOrDefault(items: seq<string>): (skills: seq<string>)
    requires forall item :: item in items ==> item != [] && ',' !in item
    ensures items != [] ==> |skills| == (if |items| <= MaxSkills then |items| else MaxSkills) && skills == items[..|skills|]
    ensures items == [] ==> skills == DefaultSkills
    ensures 1 <= |skills| <= MaxSkills
    ensures forall item :: item in skills ==> item != [] && ',' !in item
  {
    DefaultSkillsWellFormed();
    if |items| > 0 then
      var r := Take(items, MaxSkills);
      assert forall item :: item in r ==> item in items by {
        forall item | item in r ensures item in items {
          TakeKeepsMembers(items, MaxSkills, item);
        }
      }
      r
    else DefaultSkills
  }

  /** A bracket group with more than seven items passes them all through as
      written, where the corrected extractor keeps the first seven. */
  lemma BracketTierUncapped(response: string)
    requires BracketGroup(response).Some?
    requires |BracketItems(BracketGroup(response).value)| > MaxSkills
    ensures |ExtractListAsWritten(response)| > MaxSkills
    ensures ExtractList(response) == BracketItems(BracketGroup(response).value)[..MaxSkills]
  {
  }

  /** The correction changes nothing where the code as written already gives
      one to seven skills. */
  lemma ExtractListAgreesWhenInBounds(response: string)
    requires 1 <= |ExtractListAsWritten(response)| <= MaxSkills
    ensures ExtractList(response) == ExtractListAsWritten(response)
  {
  }

  /** The role-keyed skill table `identifyMissingSkills` falls back to when
      the service call fails, with its generic default. */
  function FallbackSkills(job: string): (skills: seq<string>)
    ensures 4 <= |skills| <= 5
    ensures job !in {"Data Analyst", "Junior Data Analyst", "Frontend Developer", "Junior Frontend Developer"} ==>
              skills == ["communication", "problem solving", "teamwork", "adaptability"]
  {
    if job == "Data Analyst" then ["SQL", "Power BI", "pivot tables", "data storytelling", "statistics"]
    else if job == "Junior Data Analyst" then ["SQL", "Excel formulas", "data visualization", "Python", "statistics"]
    else if job == "Frontend Developer" then ["React", "JavaScript", "CSS", "HTML", "Git"]
    else if job == "Junior Frontend Developer" then ["HTML", "CSS", "JavaScript", "responsive design", "Git"]
    else ["communication", "problem solving", "teamwork", "adaptability"]
  }

  /** `identifyMissingSkills`: the skills the extractor, as written, reads
      from the service's reply, or the role's fallback list when the call
      failed. */
  function IdentifyMissingSkills(reply: Reply, job: string): (skills: seq<string>)
    ensures reply.Failure? ==> skills == FallbackSkills(job) && 4 <= |skills| <= 5
    ensures reply.Success? ==> skills == ExtractListAsWritten(reply.value)
  {
    match reply
    case Success(text) => ExtractListAsWritten(text)
    case Failure(_) => FallbackSkills(job)
  }

  /** A reply listing two empty strings leaves the user with no missing skill
      at all, whatever the role. */
  lemma QuotedBlanksReplyGivesNoSkills(job: string)
    ensures IdentifyMissingSkills(Success("['', '']"), job) == []
  {
    AsWrittenEmptyForQuotedBlanks();
  }
}
