/** The control flow around the generative service: which text is parsed,
    what counts as a usable answer, and when the deterministic fallbacks take
    over (`generateCareerRecommendations`, `generateLearningPlan`). The
    service's reply and `JSON.parse` are parameters. */
module Orchestrator {
  import opened Wrappers
  import opened External
  import opened Regexes
  import opened ReplySanitizer
  import opened CareerRanker
  import MockPlan
  import SkillExtractor
  import Text

  /** What `generateCareerRecommendations` returns: the first ten entries of
      an array the service produced, or the deterministic ranking. */
  datatype Recommendations =
    | Generated(items: seq<Json>)
    | Ranked(careers: seq<Career>)

  /** `Array.isArray(careers) && careers.length > 0`. */
  predicate IsCareerArray(parsed: Option<Json>) {
    parsed.Some? && parsed.value.JArray? && |parsed.value.items| > 0
  }

  /** `items` is `careers.slice(0, 10)` of what `parsed` holds. */
  predicate IsFirstTen(items: seq<Json>, parsed: Option<Json>) {
    IsCareerArray(parsed) && items == SkillExtractor.Take(parsed.value.items, MaxResults)
  }

  /** The second attempt: parse what the retry pattern matches in the raw
      reply, once fences are removed and blank lines collapsed. */
  function RetryParse(reply: string, parse: Parser): Option<Json>
  {
    match ArrayMatch(reply)
    case Some(matched) => parse(RetryCandidate(matched))
    case None => None
  }

  /** `generateCareerRecommendations`: the service's answer when one of the two
      parse attempts yields a non-empty array, cut to ten entries; otherwise,
      and whenever the call fails, exactly the deterministic ranking for the
      same preferences. It never fails and never returns nothing. */
  function CareerRecommendations(salary: int, activities: seq<string>, skills: seq<string>,
                                 reply: Reply, parse: Parser): (r: Recommendations)
    ensures r.Generated? ==> reply.Success? && 1 <= |r.items| <= MaxResults
    ensures r.Generated? ==>
      IsFirstTen(r.items, parse(CareerCandidate(reply.value))) ||
      (HasBracketSpan(reply.value) && IsFirstTen(r.items, parse(RetryCandidate(BracketSpan(reply.value)))))
    ensures reply.Success? && IsCareerArray(parse(CareerCandidate(reply.value))) ==>
      r == Generated(SkillExtractor.Take(parse(CareerCandidate(reply.value)).value.items, MaxResults))
    ensures reply.Success? && !IsCareerArray(parse(CareerCandidate(reply.value))) && HasBracketSpan(reply.value) &&
            IsCareerArray(parse(RetryCandidate(BracketSpan(reply.value)))) ==>
      r == Generated(SkillExtractor.Take(parse(RetryCandidate(BracketSpan(reply.value))).value.items, MaxResults))
    ensures reply.Success? ==>
      (r.Ranked? <==>
        !IsCareerArray(parse(CareerCandidate(reply.value))) &&
        (!HasBracketSpan(reply.value) || !IsCareerArray(parse(RetryCandidate(BracketSpan(reply.value))))))
    ensures r.Ranked? ==> r.careers == Rank(salary, activities, skills) && |r.careers| == 8
    ensures reply.Failure? ==> r.Ranked?
  {
    match reply
    case Failure(_) => Ranked(Rank(salary, activities, skills))
    case Success(text) =>
      match ServiceCareers(text, parse)
      case Some(items) => Generated(items)
      case None => Ranked(Rank(salary, activities, skills))
  }

  /** The two parse attempts on the service's text: the first ten entries of
      the first non-empty array either attempt yields, if any. */
  function ServiceCareers(text: string, parse: Parser): (r: Option<seq<Json>>)
    ensures r.Some? ==> 1 <= |r.value| <= MaxResults
    ensures r.Some? ==>
      IsFirstTen(r.value, parse(CareerCandidate(text))) ||
      (HasBracketSpan(text) && IsFirstTen(r.value, parse(RetryCandidate(BracketSpan(text)))))
    ensures IsCareerArray(parse(CareerCandidate(text))) ==>
      r == Some(SkillExtractor.Take(parse(CareerCandidate(text)).value.items, MaxResults))
    ensures r.None? <==>
      (!IsCareerArray(parse(CareerCandidate(text))) &&
       (!HasBracketSpan(text) || !IsCareerArray(parse(RetryCandidate(BracketSpan(text))))))
  {
    var first := FirstCareers(text, parse);
    if first.Some? then first else RetryCareers(text, parse)
  }

  /** The first attempt: the first ten entries of the array the cleaned
      reply parses to, if it parses to a non-empty one. */
  function FirstCareers(text: string, parse: Parser): (r: Option<seq<Json>>)
    ensures r.Some? <==> IsCareerArray(parse(CareerCandidate(text)))
    ensures r.Some? ==> IsFirstTen(r.value, parse(CareerCandidate(text))) && 1 <= |r.value| <= MaxResults
  {
    var first := parse(CareerCandidate(text));
    if IsCareerArray(first) then
      var items := SkillExtractor.Take(first.value.items, MaxResults);
      FirstTenLength(items, first);
      Some(items)
    else None
  }

  /** The second attempt: the first ten entries of the array the bracket
      span parses to, if it parses to a non-empty one. */
  function RetryCareers(text: string, parse: Parser): (r: Option<seq<Json>>)
    ensures r.Some? ==> HasBracketSpan(text) && IsFirstTen(r.value, parse(RetryCandidate(BracketSpan(text))))
    ensures r.Some? ==> 1 <= |r.value| <= MaxResults
    ensures r.None? <==> !HasBracketSpan(text) || !IsCareerArray(parse(RetryCandidate(BracketSpan(text))))
  {
    var second := RetryParse(text, parse);
    ArrayMatchIsBracketSpan(text);
    if IsCareerArray(second) then
      var items := SkillExtractor.Take(second.value.items, MaxResults);
      FirstTenLength(items, second);
      Some(items)
    else None
  }

  /** The first ten entries of a non-empty array are one to ten entries. */
  lemma FirstTenLength(items: seq<Json>, parsed: Option<Json>)
    requires IsFirstTen(items, parsed)
    ensures 1 <= |items| <= MaxResults
  {
  }

  /** When neither attempt parses to a non-empty array, the ranking is used. */
  lemma UnparseableReplyFallsBack(salary: int, activities: seq<string>, skills: seq<string>,
                                  text: string, parse: Parser)
    requires !IsCareerArray(parse(CareerCandidate(text)))
    requires !HasBracketSpan(text) || !IsCareerArray(parse(RetryCandidate(BracketSpan(text))))
    ensures CareerRecommendations(salary, activities, skills, Success(text), parse) == Ranked(Rank(salary, activities, skills))
  {
    ArrayMatchIsBracketSpan(text);
  }

  /** A reply that wraps a JSON array in a ```` ```json ```` fence between two
      pieces of prose is answered with that array's first ten entries, once
      `JSON.parse` reads the array as a non-empty one. */
  lemma FencedArrayReplyIsUsed(salary: int, activities: seq<string>, skills: seq<string>,
                               pre: string, listed: string, post: string, parse: Parser)
    requires '`' !in pre && '`' !in listed && '`' !in post
    requires '[' !in pre && ']' !in post
    requires |listed| >= 2 && listed[0] == '[' && listed[|listed| - 1] == ']'
    requires IsCareerArray(parse(listed))
    ensures CareerRecommendations(salary, activities, skills, Success(pre + JsonFence + "\n" + listed + "\n```\n" + post), parse) ==
            Generated(SkillExtractor.Take(parse(listed).value.items, MaxResults))
  {
    CareerCandidateOfFencedArray(pre, listed, post);
  }

  /** What `generateLearningPlan` returns: the service's object with its three
      fields set, or the fixed plan. */
  datatype PlanOutcome =
    | ServicePlan(members: seq<(string, Json)>)
    | FallbackPlan(plan: MockPlan.LearningPlan)

  /** `{...learningPlan, estimatedTime, generatedAt, career}`. */
  function DecoratePlan(parsed: Json, career: Json, generatedAt: string): (members: seq<(string, Json)>)
    ensures Lookup(members, "estimatedTime") == Some(JString(MockPlan.EstimatedTime))
    ensures Lookup(members, "generatedAt") == Some(JString(generatedAt))
    ensures Lookup(members, "career") == Some(career)
    ensures forall key :: key != "estimatedTime" && key != "generatedAt" && key != "career" ==>
      Lookup(members, key) == Lookup(SpreadMembers(parsed), key)
  {
    var m0 := SpreadMembers(parsed);
    var m1 := SetMember(m0, "estimatedTime", JString(MockPlan.EstimatedTime));
    var m2 := SetMember(m1, "generatedAt", JString(generatedAt));
    var m3 := SetMember(m2, "career", career);
    SetMemberLookup(m2, "career", career, "generatedAt");
    SetMemberLookup(m2, "career", career, "estimatedTime");
    SetMemberLookup(m1, "generatedAt", JString(generatedAt), "estimatedTime");
    SetMemberLookup(m0, "estimatedTime", JString(MockPlan.EstimatedTime), "generatedAt");
    forall key | key != "estimatedTime" && key != "generatedAt" && key != "career"
      ensures Lookup(m3, key) == Lookup(m0, key)
    {
      SetMemberLookup(m0, "estimatedTime", JString(MockPlan.EstimatedTime), key);
      SetMemberLookup(m1, "generatedAt", JString(generatedAt), key);
      SetMemberLookup(m2, "career", career, key);
    }
    m3
  }

  /** What the learning-plan path makes of the parse result: the parsed
      value decorated with the estimated time, the clock reading and the
      career, or the fixed thirty-day plan when nothing was parsed. */
  function PlanFromParse(parsed: Option<Json>, jobTitle: string, career: Json, generatedAt: string): (r: PlanOutcome)
    ensures r.ServicePlan? <==> parsed.Some?
    ensures r.ServicePlan? ==> r.members == DecoratePlan(parsed.value, career, generatedAt)
    ensures r.FallbackPlan? ==>
      r.plan == MockPlan.MockLearningPlan(jobTitle, career, generatedAt) && |r.plan.days| == MockPlan.PlanDays
  {
    match parsed
    case Some(value) => ServicePlan(DecoratePlan(value, career, generatedAt))
    case None => FallbackPlan(MockPlan.MockLearningPlan(jobTitle, career, generatedAt))
  }

  /** `generateLearningPlan`: whatever the service's reply, cleaned as the
      code cleans it, parses to, decorated with the estimated time, the clock
      reading and the career; the fixed thirty-day plan when the call fails
      or the cleaned text does not parse. */
  function GenerateLearningPlan(reply: Reply, parse: Parser, jobTitle: string, career: Json,
                                generatedAt: string): (r: PlanOutcome)
    ensures r.ServicePlan? <==> reply.Success? && parse(CleanPlanReplyAsWritten(reply.value)).Some?
    ensures r.ServicePlan? ==>
      Lookup(r.members, "estimatedTime") == Some(JString(MockPlan.EstimatedTime)) &&
      Lookup(r.members, "generatedAt") == Some(JString(generatedAt)) &&
      Lookup(r.members, "career") == Some(career)
    ensures r.ServicePlan? ==> forall key :: key != "estimatedTime" && key != "generatedAt" && key != "career" ==>
      Lookup(r.members, key) == Lookup(SpreadMembers(parse(CleanPlanReplyAsWritten(reply.value)).value), key)
    ensures r.FallbackPlan? ==>
      r.plan == MockPlan.MockLearningPlan(jobTitle, career, generatedAt) && |r.plan.days| == MockPlan.PlanDays
  {
    match reply
    case Failure(_) => PlanFromParse(None, jobTitle, career, generatedAt)
    case Success(text) => PlanFromParse(parse(CleanPlanReplyAsWritten(text)), jobTitle, career, generatedAt)
  }

  /** The learning-plan path with the corrected fence removal: the same
      decisions, on the text `CleanPlanReply` leaves. */
  function CorrectedLearningPlan(reply: Reply, parse: Parser, jobTitle: string, career: Json,
                                 generatedAt: string): (r: PlanOutcome)
    ensures r.ServicePlan? <==> reply.Success? && parse(CleanPlanReply(reply.value)).Some?
    ensures r.ServicePlan? ==> r.members == DecoratePlan(parse(CleanPlanReply(reply.value)).value, career, generatedAt)
    ensures r.FallbackPlan? ==> r.plan == MockPlan.MockLearningPlan(jobTitle, career, generatedAt)
  {
    match reply
    case Failure(_) => PlanFromParse(None, jobTitle, career, generatedAt)
    case Success(text) => PlanFromParse(parse(CleanPlanReply(text)), jobTitle, career, generatedAt)
  }

  /** A fenced `{}` after a line feed reaches `JSON.parse` as `json` followed
      by the body, so the code serves the fallback plan. */
  lemma LineFeedBeforeFenceFallsBack(parse: Parser, jobTitle: string, career: Json, generatedAt: string)
    requires parse("json\n{}").None?
    ensures GenerateLearningPlan(Success("\n```json\n{}\n```"), parse, jobTitle, career, generatedAt) ==
            FallbackPlan(MockPlan.MockLearningPlan(jobTitle, career, generatedAt))
  {
    AsWrittenKeepsJsonTag();
  }

  /** The corrected cleaning hands a fenced body to `JSON.parse` trimmed,
      with or without a line feed before the fence, so the service's object
      is used whenever the body parses; for `{}` after a line feed this is
      the reply the code sends to the fallback. */
  lemma CorrectedUsesFencedPlan(lead: string, body: string, parse: Parser, jobTitle: string, career: Json,
                                generatedAt: string)
    requires lead == [] || lead == "\n"
    requires '`' !in body && parse(Text.Trim(body)).Some?
    ensures CorrectedLearningPlan(Success(lead + JsonFence + "\n" + body + "\n```"), parse, jobTitle, career, generatedAt) ==
            ServicePlan(DecoratePlan(parse(Text.Trim(body)).value, career, generatedAt))
  {
    CleanPlanReplyUnwrapsFence(lead, body);
  }

  /** On a reply without backticks the correction changes nothing. */
  lemma CorrectionKeepsPlainReplies(text: string, parse: Parser, jobTitle: string, career: Json, generatedAt: string)
    requires '`' !in text
    ensures CorrectedLearningPlan(Success(text), parse, jobTitle, career, generatedAt) ==
            GenerateLearningPlan(Success(text), parse, jobTitle, career, generatedAt)
  {
    CleanPlanReplyPlainText(text);
  }

  /** Decorating an empty object adds no days. */
  lemma DecoratedEmptyObjectHasNoDays(career: Json, generatedAt: string)
    ensures Lookup(DecoratePlan(JObject([]), career, generatedAt), "days").None?
  {
    assert SpreadMembers(JObject([])) == [];
  }

  /** Only the fallback promises thirty days: a reply that parses to an empty
      object is passed on as the service's plan, without any days at all. */
  lemma ServicePlanIsNotChecked(text: string, parse: Parser, jobTitle: string, career: Json, generatedAt: string)
    requires parse(CleanPlanReplyAsWritten(text)) == Some(JObject([]))
    ensures GenerateLearningPlan(Success(text), parse, jobTitle, career, generatedAt) ==
            ServicePlan(DecoratePlan(JObject([]), career, generatedAt))
    ensures Lookup(DecoratePlan(JObject([]), career, generatedAt), "days").None?
  {
    DecoratedEmptyObjectHasNoDays(career, generatedAt);
  }
}
