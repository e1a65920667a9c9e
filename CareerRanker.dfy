/** The deterministic career ranker (`mockGPTCareerRecommendations`): eight
    fixed career templates, each rescored against the user's activities and
    skills, clamped at 99, sorted by score (highest first, ties in template
    order) and cut to at most ten. */
module CareerRanker {
  import opened Text
  import opened Seqs

  datatype Career = Career(
    title: string,
    description: string,
    salaryRange: string,
    matchScore: int,
    requiredSkills: seq<string>,
    growthPotential: string)

  const MaxScore := 99
  const SkillBonus := 2
  const ActivityBonusStep := 5
  const MaxResults := 10

  // The templates' prose, passed through unchanged by the ranker.
  const JuniorFrontendDeveloperDescription := "Learn to create user interfaces and websites using HTML, CSS, and JavaScript. Work with senior developers to build engaging web experiences."
  const JuniorFrontendDeveloperGrowth := "High demand field with clear progression to senior developer roles"
  const DataAnalystAssociateDescription := "Analyze data using Excel and basic programming to help businesses make decisions. Perfect starting point for data career."
  const DataAnalystAssociateGrowth := "Growing field with opportunities to advance to senior analyst or data scientist"
  const MarketingCoordinatorDescription := "Support marketing campaigns, manage social media, and help with content creation. Great entry point into marketing."
  const MarketingCoordinatorGrowth := "Can advance to marketing manager and eventually director roles"
  const JuniorUxDesignerDescription := "Learn to design user-friendly digital experiences under guidance of senior designers. Focus on wireframes and user research."
  const JuniorUxDesignerGrowth := "Creative field with advancement to senior designer and UX lead positions"
  const CustomerSuccessRepresentativeDescription := "Help customers succeed with products and services. Build relationships and solve problems daily."
  const CustomerSuccessRepresentativeGrowth := "Path to customer success manager and account management roles"
  const SalesDevelopmentRepresentativeDescription := "Generate leads and qualify prospects for sales team. Learn fundamentals of B2B sales process."
  const SalesDevelopmentRepresentativeGrowth := "Direct path to account executive and sales manager positions"
  const JuniorFinancialAnalystDescription := "Support financial planning and analysis using Excel and financial software. Great entry into finance."
  const JuniorFinancialAnalystGrowth := "Clear progression to senior analyst and finance manager roles"
  const ContentCreatorDescription := "Create engaging content for websites, social media, and marketing materials. Perfect for creative individuals."
  const ContentCreatorGrowth := "Can advance to content manager and creative director positions"

  /** The template table, in the order the source lists it. */
  const Templates: seq<Career> :=
    [ Career("Junior Frontend Developer",
        JuniorFrontendDeveloperDescription,
        "$40,000 - $65,000", 92, ["HTML", "CSS", "JavaScript", "Git"],
        JuniorFrontendDeveloperGrowth),
      Career("Data Analyst Associate",
        DataAnalystAssociateDescription,
        "$35,000 - $55,000", 88, ["Excel", "Basic Python", "Data Visualization", "Statistics"],
        DataAnalystAssociateGrowth),
      Career("Marketing Coordinator",
        MarketingCoordinatorDescription,
        "$32,000 - $48,000", 85, ["Communication", "Social Media", "Content Creation", "Analytics"],
        MarketingCoordinatorGrowth),
      Career("Junior UX Designer",
        JuniorUxDesignerDescription,
        "$38,000 - $58,000", 87, ["Design Software", "User Research", "Wireframing", "Communication"],
        JuniorUxDesignerGrowth),
      Career("Customer Success Representative",
        CustomerSuccessRepresentativeDescription,
        "$35,000 - $50,000", 83, ["Communication", "Problem Solving", "Empathy", "CRM Software"],
        CustomerSuccessRepresentativeGrowth),
      Career("Sales Development Representative",
        SalesDevelopmentRepresentativeDescription,
        "$40,000 - $60,000", 81, ["Communication", "Persistence", "CRM", "Research"],
        SalesDevelopmentRepresentativeGrowth),
      Career("Junior Financial Analyst",
        JuniorFinancialAnalystDescription,
        "$42,000 - $62,000", 84, ["Excel", "Financial Modeling", "Attention to Detail", "Communication"],
        JuniorFinancialAnalystGrowth),
      Career("Content Creator",
        ContentCreatorDescription,
        "$30,000 - $45,000", 86, ["Writing", "Social Media", "Basic Design", "SEO"],
        ContentCreatorGrowth)
    ]

  /** A required skill counts when some user skill, lower-cased, contains it lower-cased. */
  predicate SkillMatched(required: string, userSkills: seq<string>) {
    exists u :: u in userSkills && Contains(Lower(u), Lower(required))
  }

  function MatchingSkillCount(c: Career, userSkills: seq<string>): nat {
    CountWhere(c.requiredSkills, (req: string) => SkillMatched(req, userSkills))
  }

  /** The three activity/title rules, worth 5 points each. */
  function ActivityBonus(activities: seq<string>, title: string): nat {
    (if "Building things" in activities && Contains(title, "Developer") then ActivityBonusStep else 0) +
    (if "Helping people" in activities && (Contains(title, "Manager") || Contains(title, "Designer"))
     then ActivityBonusStep else 0) +
    (if "Solving problems" in activities && (Contains(title, "Analyst") || Contains(title, "Developer"))
     then ActivityBonusStep else 0)
  }

  /** The raw, unclamped score of a template. */
  function RawScore(c: Career, activities: seq<string>, userSkills: seq<string>): int {
    c.matchScore + SkillBonus * MatchingSkillCount(c, userSkills) + ActivityBonus(activities, c.title)
  }

  /** One template rescored: only the score changes, it never drops below the
      template's base score, never exceeds 99, and it is the raw score unless
      that was clamped. */
  function Rescore(c: Career, activities: seq<string>, userSkills: seq<string>): (r: Career)
    ensures r == c.(matchScore := r.matchScore)
    ensures r.matchScore <= MaxScore
    ensures c.matchScore <= MaxScore ==> c.matchScore <= r.matchScore
    ensures r.matchScore == if RawScore(c, activities, userSkills) < MaxScore then RawScore(c, activities, userSkills) else MaxScore
  {
    var score := RawScore(c, activities, userSkills);
    c.(matchScore := if score < MaxScore then score else MaxScore)
  }

  /** Scores never increase from one position to any later one. */
  predicate NonIncreasing(cs: seq<Career>) {
    forall i, j :: 0 <= i < j < |cs| ==> cs[i].matchScore >= cs[j].matchScore
  }

  /** A career no lower than the head of a non-increasing list can go in
      front of it. */
  lemma ConsNonIncreasing(c: Career, sorted: seq<Career>)
    requires NonIncreasing(sorted)
    requires sorted != [] ==> c.matchScore >= sorted[0].matchScore
    ensures NonIncreasing([c] + sorted)
  {
    var r := [c] + sorted;
    forall i, j | 0 <= i < j < |r| ensures r[i].matchScore >= r[j].matchScore {
      assert r[j] == sorted[j - 1];
      if i > 0 {
        assert r[i] == sorted[i - 1];
      }
    }
  }

  /** The rest of a non-increasing list is non-increasing. */
  lemma NonIncreasingTail(sorted: seq<Career>)
    requires sorted != [] && NonIncreasing(sorted)
    ensures NonIncreasing(sorted[1..])
  {
    forall i, j | 0 <= i < j < |sorted| - 1
      ensures sorted[1..][i].matchScore >= sorted[1..][j].matchScore {
      assert sorted[1..][i] == sorted[i + 1] && sorted[1..][j] == sorted[j + 1];
    }
  }

  /** Places `c`, which came before every element of `sorted`, in front of the
      first element whose score does not exceed its own. */
  function Insert(c: Career, sorted: seq<Career>): (r: seq<Career>)
    ensures |r| == |sorted| + 1
    ensures multiset(r) == multiset(sorted) + multiset{c}
    ensures r[0] == c || (sorted != [] && r[0] == sorted[0])
  {
    if sorted == [] || c.matchScore >= sorted[0].matchScore then [c] + sorted
    else
      assert sorted == [sorted[0]] + sorted[1..];
      [sorted[0]] + Insert(c, sorted[1..])
  }

  /** Inserting into a non-increasing list keeps it non-increasing. */
  lemma {:induction false} InsertSorted(c: Career, sorted: seq<Career>)
    requires NonIncreasing(sorted)
    ensures NonIncreasing(Insert(c, sorted))
  {
    if sorted == [] || c.matchScore >= sorted[0].matchScore {
      ConsNonIncreasing(c, sorted);
    } else {
      var rest := Insert(c, sorted[1..]);
      NonIncreasingTail(sorted);
      InsertSorted(c, sorted[1..]);
      assert |sorted| > 1 ==> sorted[1].matchScore <= sorted[0].matchScore;
      ConsNonIncreasing(sorted[0], rest);
    }
  }

  /** A stable sort by descending score, as `sort((a, b) => b.matchScore - a.matchScore)`
      is: the result is a non-increasing permutation of the input. */
  function SortByScore(cs: seq<Career>): (r: seq<Career>)
    ensures |r| == |cs|
    ensures multiset(r) == multiset(cs)
    ensures NonIncreasing(r)
  {
    if cs == [] then []
    else
      assert cs == [cs[0]] + cs[1..];
      InsertSorted(cs[0], SortByScore(cs[1..]));
      Insert(cs[0], SortByScore(cs[1..]))
  }

  predicate HasScore(c: Career, v: int) {
    c.matchScore == v
  }

  /** The test for score `v`. */
  function ScoreIs(v: int): Career -> bool {
    x => HasScore(x, v)
  }

  /** The careers with score `v`, in the order they appear. */
  function ScoreGroup(cs: seq<Career>, v: int): seq<Career> {
    Filter(cs, ScoreIs(v))
  }

  /** Inserting keeps the relative order of the careers of each score, with
      the inserted one ahead of its equals. */
  lemma {:induction false} InsertStable(c: Career, sorted: seq<Career>, v: int)
    ensures ScoreGroup(Insert(c, sorted), v) ==
            (if HasScore(c, v) then [c] else []) + ScoreGroup(sorted, v)
  {
    if sorted != [] && c.matchScore < sorted[0].matchScore {
      InsertStable(c, sorted[1..], v);
      FilterAppend([sorted[0]], Insert(c, sorted[1..]), ScoreIs(v));
    } else {
      FilterAppend([c], sorted, ScoreIs(v));
    }
  }

  /** The sort is stable: the careers of any one score appear in the same
      order as in the input. */
  lemma {:induction false} SortStable(cs: seq<Career>, v: int)
    ensures ScoreGroup(SortByScore(cs), v) == ScoreGroup(cs, v)
  {
    if cs != [] {
      SortStable(cs[1..], v);
      InsertStable(cs[0], SortByScore(cs[1..]), v);
      FilterAppend([cs[0]], cs[1..], ScoreIs(v));
      assert cs == [cs[0]] + cs[1..];
    }
  }

  /** A first element whose score no other element exceeds stays first. */
  lemma SortKeepsLeadingMaximum(cs: seq<Career>)
    requires cs != []
    requires forall i :: 0 <= i < |cs| ==> cs[i].matchScore <= cs[0].matchScore
    ensures SortByScore(cs)[0] == cs[0]
  {
    var rest := SortByScore(cs[1..]);
    assert SortByScore(cs) == Insert(cs[0], rest);
    if rest != [] {
      assert forall x :: x in cs[1..] ==> x.matchScore <= cs[0].matchScore;
      assert rest[0] in multiset(cs[1..]);
    }
  }

  /** Every template of `table` rescored, in table order. */
  function Rescored(table: seq<Career>, activities: seq<string>, userSkills: seq<string>): (r: seq<Career>)
    ensures |r| == |table|
    ensures forall i :: 0 <= i < |r| ==> r[i] == Rescore(table[i], activities, userSkills)
    ensures forall x :: x in r ==> x.matchScore <= MaxScore
  {
    seq(|table|, i requires 0 <= i < |table| => Rescore(table[i], activities, userSkills))
  }

  /** The ranking over any template table: the rescored templates, sorted
      stably by descending score, at most ten of them, none above 99. */
  function RankTable(table: seq<Career>, activities: seq<string>, userSkills: seq<string>): (r: seq<Career>)
    ensures |r| == if |table| <= MaxResults then |table| else MaxResults
    ensures NonIncreasing(r)
    ensures forall x :: x in r ==> x in Rescored(table, activities, userSkills)
    ensures forall i :: 0 <= i < |r| ==> r[i].matchScore <= MaxScore
    ensures |table| <= MaxResults ==> multiset(r) == multiset(Rescored(table, activities, userSkills))
  {
    var rescored := Rescored(table, activities, userSkills);
    var sorted := SortByScore(rescored);
    var r := if |sorted| <= MaxResults then sorted else sorted[..MaxResults];
    assert NonIncreasing(r) by {
      forall i, j | 0 <= i < j < |r| ensures r[i].matchScore >= r[j].matchScore {
        assert r[i] == sorted[i] && r[j] == sorted[j];
      }
    }
    forall i | 0 <= i < |r| ensures r[i] in rescored {
      assert r[i] == sorted[i];
      assert sorted[i] in multiset(sorted);
    }
    r
  }

  /** When the table fits in the result, ties keep their table order: the
      careers of each score appear as they do among the rescored templates. */
  lemma RankTableStable(table: seq<Career>, activities: seq<string>, userSkills: seq<string>, v: int)
    requires |table| <= MaxResults
    ensures ScoreGroup(RankTable(table, activities, userSkills), v) ==
            ScoreGroup(Rescored(table, activities, userSkills), v)
  {
    SortStable(Rescored(table, activities, userSkills), v);
  }

  /** Each ranked career is a template with every field but the score
      unchanged, and its score lies between the template's and 99. */
  lemma RankedAreRescoredTemplates(table: seq<Career>, activities: seq<string>, userSkills: seq<string>, i: nat)
    requires |table| <= MaxResults
    requires forall k :: 0 <= k < |table| ==> table[k].matchScore <= MaxScore
    requires i < |RankTable(table, activities, userSkills)|
    ensures var c := RankTable(table, activities, userSkills)[i];
      exists k :: 0 <= k < |table| &&
        c == table[k].(matchScore := c.matchScore) && table[k].matchScore <= c.matchScore <= MaxScore
  {
    var r := RankTable(table, activities, userSkills);
    var rescored := Rescored(table, activities, userSkills);
    assert r[i] in multiset(rescored);
    var k :| 0 <= k < |table| && rescored[k] == r[i];
  }

  /** `mockGPTCareerRecommendations(salary, activities, skills)`: all eight
      templates, rescored, none above 99, ordered by descending score, ties
      in template order. The salary is accepted and ignored, as in the source. */
  function Rank(salary: int, activities: seq<string>, userSkills: seq<string>): (r: seq<Career>)
    ensures |r| == |Templates| == 8
    ensures NonIncreasing(r)
    ensures forall i :: 0 <= i < |r| ==> r[i].matchScore <= MaxScore
    ensures multiset(r) == multiset(Rescored(Templates, activities, userSkills))
    ensures forall v :: ScoreGroup(r, v) == ScoreGroup(Rescored(Templates, activities, userSkills), v)
  {
    var r := RankTable(Templates, activities, userSkills);
    forall v ensures ScoreGroup(r, v) == ScoreGroup(Rescored(Templates, activities, userSkills), v) {
      RankTableStable(Templates, activities, userSkills, v);
    }
    r
  }

  /** Each career `Rank` returns is one of the eight templates with only its
      score changed, and that score lies between the template's and 99. */
  lemma RankedAreTemplates(salary: int, activities: seq<string>, userSkills: seq<string>, i: nat)
    requires i < 8
    ensures var c := Rank(salary, activities, userSkills)[i];
      exists k :: 0 <= k < |Templates| &&
        c == Templates[k].(matchScore := c.matchScore) && Templates[k].matchScore <= c.matchScore <= MaxScore
  {
    assert forall k :: 0 <= k < |Templates| ==> Templates[k].matchScore <= MaxScore;
    RankedAreRescoredTemplates(Templates, activities, userSkills, i);
  }

  lemma FrontendTitleMentionsDeveloper()
    ensures Contains("Junior Frontend Developer", "Developer")
  {
    var t := "Junior Frontend Developer";
    assert t[16..25] == "Developer";
    ContainsAt(t, "Developer", 16);
  }

  /** The worked example: someone who likes building things and knows
      JavaScript gets Junior Frontend Developer first, at 99. */
  lemma BuilderWithJavaScriptGetsFrontendFirst()
    ensures Rank(75000, ["Building things"], ["JavaScript"])[0] ==
            Templates[0].(matchScore := 99)
  {
    var rescored := Rescored(Templates, ["Building things"], ["JavaScript"]);
    FrontendRescoredTo99();
    SortKeepsLeadingMaximum(rescored);
  }

  /** With those preferences Junior Frontend Developer reaches the cap. */
  lemma FrontendRescoredTo99()
    ensures Rescore(Templates[0], ["Building things"], ["JavaScript"]) == Templates[0].(matchScore := 99)
  {
    var skills := ["JavaScript"];
    var jfd := Templates[0];
    ContainsAt(Lower("JavaScript"), Lower("JavaScript"), 0);
    assert SkillMatched(jfd.requiredSkills[2], skills);
    FrontendTitleMentionsDeveloper();
    CapReached(jfd, ["Building things"], skills, 2);
  }

  /** A career within one skill and the builder bonus of the cap, with one
      of its skills matched, in a title that mentions Developer, for someone
      who likes building things, is scored at the cap. */
  lemma CapReached(c: Career, activities: seq<string>, userSkills: seq<string>, k: nat)
    requires k < |c.requiredSkills| && SkillMatched(c.requiredSkills[k], userSkills)
    requires "Building things" in activities && Contains(c.title, "Developer")
    requires c.matchScore + SkillBonus + ActivityBonusStep >= MaxScore
    ensures Rescore(c, activities, userSkills) == c.(matchScore := MaxScore)
  {
    assert MatchingSkillCount(c, userSkills) >= 1;
  }
}
