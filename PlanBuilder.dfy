/** The thirty-day plan assembled from a list of missing skills and a content
    library (`buildPlan`): content types rotate every day, skills every four
    days, and each day's resource comes from a four-tier search that ends in
    a made-up placeholder. */
module PlanBuilder {
  import opened Wrappers
  import opened Text
  import opened Seqs

  const PlanDays := 30
  const ContentTypes: seq<string> := ["video", "quiz", "game", "reading"]
  const PlaceholderLength := 5

  /** An entry of the content library. */
  datatype Resource = Resource(title: string, kind: string, tags: seq<string>, path: string, length: int)

  /** The library served when the library file cannot be read. */
  const FallbackLibrary: seq<Resource> := [
    Resource("Getting Started", "reading", ["basics", "introduction"], "/readings/getting-started.md", 5)
  ]

  /** One day of the plan; `skill` is `None` where JavaScript has `undefined`. */
  datatype PlanEntry = PlanEntry(day: int, title: string, kind: string, path: string, skill: Option<string>, completed: bool)

  /** A tag and a skill match when either, lower-cased, contains the other. */
  predicate TagMatches(tag: string, skill: string) {
    Contains(Lower(tag), Lower(skill)) || Contains(Lower(skill), Lower(tag))
  }

  /** Some tag of the resource matches the skill. */
  predicate Relevant(r: Resource, skill: string) {
    exists tag :: tag in r.tags && TagMatches(tag, skill)
  }

  /** Some tag of the resource matches some skill of the list. */
  predicate RelevantToAny(r: Resource, skills: seq<string>) {
    exists tag :: tag in r.tags && exists skill :: skill in skills && TagMatches(tag, skill)
  }

  function RelevantTo(skill: string): Resource -> bool {
    r => Relevant(r, skill)
  }

  function OfKind(kind: string): Resource -> bool {
    (r: Resource) => r.kind == kind
  }

  function OfKindForAny(kind: string, skills: seq<string>): Resource -> bool {
    (r: Resource) => r.kind == kind && RelevantToAny(r, skills)
  }

  /** The content type of a day: video, quiz, game, reading, and again. */
  function DesiredType(day: nat): string
    requires day >= 1
  {
    ContentTypes[(day - 1) % 4]
  }

  /** The skill of a day: the list advances every four days and wraps
      around; an empty list gives `undefined`. */
  function SkillFor(skills: seq<string>, day: nat): Option<string>
    requires day >= 1
  {
    if |skills| == 0 then None else Some(skills[((day - 1) / 4) % |skills|])
  }

  /** How a skill reads inside a template literal. */
  function SkillText(skill: Option<string>): string
  {
    match skill
    case Some(s) => s
    case None => "undefined"
  }

  /** The generic resource made up when the library has nothing of the type. */
  function Placeholder(day: nat, skill: Option<string>, kind: string): Resource
  {
    Resource("Day " + NatToString(day) + ": " + SkillText(skill) + " Basics", kind, [],
             "/content/day-" + NatToString(day) + ".html", PlaceholderLength)
  }

  /** The four tiers of the search: the current skill's content of the type,
      content of the type for any skill, any content of the type, the
      placeholder. */
  function SelectResource(skills: seq<string>, library: seq<Resource>, day: nat): Resource
    requires day >= 1
  {
    var kind := DesiredType(day);
    var skill := SkillFor(skills, day);
    var tier1 := if skill.Some? then FindFirst(Filter(library, RelevantTo(skill.value)), OfKind(kind)) else None;
    var tier2 := FindFirst(library, OfKindForAny(kind, skills));
    var tier3 := FindFirst(library, OfKind(kind));
    if tier1.Some? then tier1.value
    else if tier2.Some? then tier2.value
    else if tier3.Some? then tier3.value
    else Placeholder(day, skill, kind)
  }

  /** The plan's entry for a day. */
  function PlanEntryFor(skills: seq<string>, library: seq<Resource>, day: nat): PlanEntry
    requires day >= 1
  {
    var r := SelectResource(skills, library, day);
    PlanEntry(day, r.title, r.kind, r.path, SkillFor(skills, day), false)
  }

  /** The tiers' tests on one resource. */
  predicate SkillMatch(r: Resource, kind: string, skill: string) {
    r.kind == kind && Relevant(r, skill)
  }

  predicate AnySkillMatch(r: Resource, kind: string, skills: seq<string>) {
    r.kind == kind && RelevantToAny(r, skills)
  }

  predicate KindMatch(r: Resource, kind: string) {
    r.kind == kind
  }

  /** `library[i]` is the first resource of the library that passes `test`,
      written out per tier. */
  predicate FirstSkillMatch(library: seq<Resource>, i: int, kind: string, skill: string) {
    0 <= i < |library| && SkillMatch(library[i], kind, skill) &&
    forall j :: 0 <= j < i ==> !SkillMatch(library[j], kind, skill)
  }

  predicate FirstAnySkillMatch(library: seq<Resource>, i: int, kind: string, skills: seq<string>) {
    0 <= i < |library| && AnySkillMatch(library[i], kind, skills) &&
    forall j :: 0 <= j < i ==> !AnySkillMatch(library[j], kind, skills)
  }

  predicate FirstKindMatch(library: seq<Resource>, i: int, kind: string) {
    0 <= i < |library| && KindMatch(library[i], kind) &&
    forall j :: 0 <= j < i ==> !KindMatch(library[j], kind)
  }

  /** Every entry is for its own day, not completed, of the day's content
      type, and about the day's skill, which comes from the list. */
  lemma PlanEntryShape(skills: seq<string>, library: seq<Resource>, day: nat)
    requires day >= 1
    ensures var e := PlanEntryFor(skills, library, day);
      e.day == day && !e.completed && e.kind == DesiredType(day) && e.kind in ContentTypes &&
      e.skill == SkillFor(skills, day) && (e.skill.Some? ==> e.skill.value in skills)
  {
    var kind := DesiredType(day);
    var skill := SkillFor(skills, day);
    if skill.Some? {
      var t1 := FindFirst(Filter(library, RelevantTo(skill.value)), OfKind(kind));
      if t1.Some? {
        var i :| 0 <= i < |Filter(library, RelevantTo(skill.value))| && Filter(library, RelevantTo(skill.value))[i] == t1.value && OfKind(kind)(t1.value);
      }
    }
    var t2 := FindFirst(library, OfKindForAny(kind, skills));
    if t2.Some? {
      var i :| 0 <= i < |library| && library[i] == t2.value && OfKindForAny(kind, skills)(library[i]);
    }
    var t3 := FindFirst(library, OfKind(kind));
    if t3.Some? {
      var i :| 0 <= i < |library| && library[i] == t3.value && OfKind(kind)(library[i]);
    }
  }

  /** The content types run video, quiz, game, reading and repeat every four
      days. */
  lemma TypesRotate(day: nat)
    requires day >= 1
    ensures DesiredType(1) == "video"
    ensures DesiredType(day + 4) == DesiredType(day)
  {
    assert (day + 4 - 1) % 4 == (day - 1) % 4;
  }

  /** Division by four of a day offset inside a block of four. */
  lemma BlockOf(block: nat, offset: nat)
    requires offset < 4
    ensures (4 * block + offset) / 4 == block
  {
  }

  /** A skill holds for four days in a row, starting on days 1, 5, 9, …, and
      with a non-empty list it is the list's entry for that block, wrapping
      around. */
  lemma SkillsRotate(skills: seq<string>, block: nat, offset: nat)
    requires offset < 4
    ensures SkillFor(skills, 4 * block + 1 + offset) == SkillFor(skills, 4 * block + 1)
    ensures |skills| > 0 ==> SkillFor(skills, 4 * block + 1) == Some(skills[block % |skills|])
  {
    BlockOf(block, offset);
    BlockOf(block, 0);
  }

  /** The list of skills comes round again after four days per skill. */
  lemma SkillsWrapAround(skills: seq<string>, block: nat)
    requires |skills| > 0
    ensures SkillFor(skills, 4 * (block + |skills|) + 1) == SkillFor(skills, 4 * block + 1)
  {
    BlockOf(block, 0);
    BlockOf(block + |skills|, 0);
    ModShift(block, |skills|);
  }

  lemma ModShift(b: nat, n: nat)
    requires n > 0
    ensures (b + n) % n == b % n
  {
    var q, r := b / n, b % n;
    var q', r' := (b + n) / n, (b + n) % n;
    var k := q' - q - 1;
    assert k * n == r - r' by {
      assert q' * n + r' == q * n + r + n;
      assert k * n == q' * n - q * n - n;
    }
  }

  /** The search takes, in library order, the first resource of the day's
      type relevant to the day's skill; failing that the first of the type
      relevant to any skill; failing that the first of the type; and only
      when the library has nothing of the type, the placeholder. */
  lemma SelectionTiers(skills: seq<string>, library: seq<Resource>, day: nat)
    requires day >= 1
    ensures var r := SelectResource(skills, library, day);
      var kind := DesiredType(day);
      var skill := SkillFor(skills, day);
      (skill.Some? && (exists i :: 0 <= i < |library| && SkillMatch(library[i], kind, skill.value)) ==>
         exists i :: FirstSkillMatch(library, i, kind, skill.value) && r == library[i]) &&
      ((skill.None? || forall i :: 0 <= i < |library| ==> !SkillMatch(library[i], kind, skill.value)) &&
       (exists i :: 0 <= i < |library| && AnySkillMatch(library[i], kind, skills)) ==>
         exists i :: FirstAnySkillMatch(library, i, kind, skills) && r == library[i]) &&
      ((skill.None? || forall i :: 0 <= i < |library| ==> !SkillMatch(library[i], kind, skill.value)) &&
       (forall i :: 0 <= i < |library| ==> !AnySkillMatch(library[i], kind, skills)) &&
       (exists i :: 0 <= i < |library| && KindMatch(library[i], kind)) ==>
         exists i :: FirstKindMatch(library, i, kind) && r == library[i]) &&
      ((forall i :: 0 <= i < |library| ==> !KindMatch(library[i], kind)) ==> r == Placeholder(day, skill, kind))
  {
    var kind := DesiredType(day);
    var skill := SkillFor(skills, day);
    if skill.Some? {
      SkillTier(library, kind, skill.value);
    }
    AnySkillTier(library, kind, skills);
    KindTier(library, kind);
  }

  /** The first tier finds the first resource of the type relevant to the
      skill, and finds nothing only when there is none. */
  lemma SkillTier(library: seq<Resource>, kind: string, skill: string)
    ensures var t := FindFirst(Filter(library, RelevantTo(skill)), OfKind(kind));
      (t.None? <==> forall i :: 0 <= i < |library| ==> !SkillMatch(library[i], kind, skill)) &&
      (t.Some? ==> exists i :: FirstSkillMatch(library, i, kind, skill) && t.value == library[i])
  {
    var t := FindFirst(Filter(library, RelevantTo(skill)), OfKind(kind));
    FindFirstInFilter(library, RelevantTo(skill), OfKind(kind));
    assert forall i :: 0 <= i < |library| ==>
      (SkillMatch(library[i], kind, skill) <==> Both(RelevantTo(skill), OfKind(kind))(library[i]));
    if t.Some? {
      var i := FindFirstIndex(library, Both(RelevantTo(skill), OfKind(kind)));
      assert FirstSkillMatch(library, i, kind, skill);
    }
  }

  /** The second tier finds the first resource of the type relevant to any
      skill, and finds nothing only when there is none. */
  lemma AnySkillTier(library: seq<Resource>, kind: string, skills: seq<string>)
    ensures var t := FindFirst(library, OfKindForAny(kind, skills));
      (t.None? <==> forall i :: 0 <= i < |library| ==> !AnySkillMatch(library[i], kind, skills)) &&
      (t.Some? ==> exists i :: FirstAnySkillMatch(library, i, kind, skills) && t.value == library[i])
  {
    var t := FindFirst(library, OfKindForAny(kind, skills));
    assert forall i :: 0 <= i < |library| ==> (AnySkillMatch(library[i], kind, skills) <==> OfKindForAny(kind, skills)(library[i]));
    if t.Some? {
      var i := FindFirstIndex(library, OfKindForAny(kind, skills));
      assert FirstAnySkillMatch(library, i, kind, skills);
    }
  }

  /** The third tier finds the first resource of the type, and finds
      nothing only when there is none. */
  lemma KindTier(library: seq<Resource>, kind: string)
    ensures var t := FindFirst(library, OfKind(kind));
      (t.None? <==> forall i :: 0 <= i < |library| ==> !KindMatch(library[i], kind)) &&
      (t.Some? ==> exists i :: FirstKindMatch(library, i, kind) && t.value == library[i])
  {
    var t := FindFirst(library, OfKind(kind));
    assert forall i :: 0 <= i < |library| ==> (KindMatch(library[i], kind) <==> OfKind(kind)(library[i]));
    if t.Some? {
      var i := FindFirstIndex(library, OfKind(kind));
      assert FirstKindMatch(library, i, kind);
    }
  }

  /** With a library of one resource, every day of its type gets that
      resource, whichever tier finds it, and every other day a placeholder. */
  lemma SingleResourceLibrary(skills: seq<string>, r: Resource, day: nat)
    requires day >= 1
    ensures var e := PlanEntryFor(skills, [r], day);
      if DesiredType(day) == r.kind then e.title == r.title && e.path == r.path
      else e.title == "Day " + NatToString(day) + ": " + SkillText(SkillFor(skills, day)) + " Basics" &&
           e.path == "/content/day-" + NatToString(day) + ".html"
  {
    SelectionTiers(skills, [r], day);
    if DesiredType(day) == r.kind {
      assert KindMatch([r][0], DesiredType(day));
    }
  }

  /** With the fallback library, every reading day gets its one reading and
      every other day a placeholder. */
  lemma FallbackLibraryPlan(skills: seq<string>, day: nat)
    requires day >= 1
    ensures var e := PlanEntryFor(skills, FallbackLibrary, day);
      if DesiredType(day) == "reading" then e.title == "Getting Started" && e.path == "/readings/getting-started.md"
      else e.title == "Day " + NatToString(day) + ": " + SkillText(SkillFor(skills, day)) + " Basics" &&
           e.path == "/content/day-" + NatToString(day) + ".html"
  {
    SingleResourceLibrary(skills, FallbackLibrary[0], day);
  }

  /** One reading tagged "sql" and the skills SQL and Excel: day 1 is a
      video day and gets a placeholder. */
  lemma SqlReadingExampleDayOne(r: Resource)
    requires r.kind == "reading" && r.tags == ["sql"]
    ensures PlanEntryFor(["SQL", "Excel"], [r], 1).title == "Day 1: SQL Basics"
  {
    var skills := ["SQL", "Excel"];
    assert DesiredType(1) == "video";
    assert SkillFor(skills, 1) == Some("SQL");
    assert NatToString(1) == "1";
    SingleResourceLibrary(skills, r, 1);
  }

  /** In the same setting day 8 is Excel's reading day, and it still gets
      the SQL reading, through the any-skill tier. */
  lemma SqlReadingExampleDayEight(r: Resource)
    requires r.kind == "reading" && r.tags == ["sql"]
    ensures PlanEntryFor(["SQL", "Excel"], [r], 8).title == r.title
    ensures PlanEntryFor(["SQL", "Excel"], [r], 8).skill == Some("Excel")
  {
    var skills := ["SQL", "Excel"];
    assert DesiredType(8) == "reading";
    assert SkillFor(skills, 8) == Some("Excel");
    SingleResourceLibrary(skills, r, 8);
  }

  /** `skillContentMap` once the `forEach` has run: each listed skill maps to
      the library entries relevant to it. */
  ghost predicate IsSkillContentMap(m: map<string, seq<Resource>>, skills: seq<string>, library: seq<Resource>) {
    (forall s :: s in m <==> s in skills) &&
    forall s :: s in m ==> m[s] == Filter(library, RelevantTo(s))
  }

  /** The body of the day loop: the four-tier search for one day. */
  method ChooseResource(skills: seq<string>, library: seq<Resource>, skillContent: map<string, seq<Resource>>,
                        day: nat, desired: string, skill: Option<string>) returns (chosen: Resource)
    requires day >= 1 && IsSkillContentMap(skillContent, skills, library)
    requires desired == DesiredType(day) && skill == SkillFor(skills, day)
    ensures chosen == SelectResource(skills, library, day)
  {
    var selected: Option<Resource> := None;
    if skill.Some? && skill.value in skillContent {
      selected := FindFirst(skillContent[skill.value], OfKind(desired));
    }
    if selected.None? {
      selected := FindFirst(library, OfKindForAny(desired, skills));
    }
    if selected.None? {
      selected := FindFirst(library, OfKind(desired));
    }
    chosen := if selected.Some? then selected.value else Placeholder(day, skill, desired);
  }

  /** The first loop of `buildPlan`: each skill mapped to the library
      entries relevant to it. */
  method FillSkillContent(skills: seq<string>, library: seq<Resource>) returns (skillContent: map<string, seq<Resource>>)
    ensures IsSkillContentMap(skillContent, skills, library)
  {
    skillContent := map[];
    var k := 0;
    while k < |skills|
      invariant 0 <= k <= |skills|
      invariant forall s :: s in skillContent <==> s in skills[..k]
      invariant forall s :: s in skillContent ==> skillContent[s] == Filter(library, RelevantTo(s))
    {
      skillContent := skillContent[skills[k] := Filter(library, RelevantTo(skills[k]))];
      assert skills[..k + 1] == skills[..k] + [skills[k]];
      k := k + 1;
    }
    assert skills[..k] == skills;
  }

  /** `buildPlan`: the skill-to-content map is filled first, then the thirty
      days are pushed one by one; the result is exactly the entries
      `PlanEntryFor` describes. */
  method BuildPlan(skills: seq<string>, library: seq<Resource>) returns (plan: seq<PlanEntry>)
    ensures |plan| == PlanDays
    ensures forall i :: 0 <= i < PlanDays ==> plan[i] == PlanEntryFor(skills, library, i + 1)
  {
    var skillContent := FillSkillContent(skills, library);
    plan := [];
    var day := 1;
    while day <= PlanDays
      invariant 1 <= day <= PlanDays + 1
      invariant |plan| == day - 1
      invariant forall i :: 0 <= i < |plan| ==> plan[i] == PlanEntryFor(skills, library, i + 1)
    {
      var entry := DayEntry(skills, library, skillContent, day);
      plan := plan + [entry];
      day := day + 1;
    }
  }

  /** One iteration of the day loop: the day's type and skill, the chosen
      resource, and the entry pushed for it. */
  method DayEntry(skills: seq<string>, library: seq<Resource>, skillContent: map<string, seq<Resource>>,
                  day: nat) returns (entry: PlanEntry)
    requires day >= 1 && IsSkillContentMap(skillContent, skills, library)
    ensures entry == PlanEntryFor(skills, library, day)
  {
    var desired := ContentTypes[(day - 1) % 4];
    var skill := if |skills| == 0 then None else Some(skills[((day - 1) / 4) % |skills|]);
    var chosen := ChooseResource(skills, library, skillContent, day, desired, skill);
    entry := PlanEntry(day, chosen.title, chosen.kind, chosen.path, skill, false);
  }
}
