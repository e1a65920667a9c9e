# Career-path planner: response normalisation and fallback synthesis

This project models the deterministic core of a career-guidance web
application, in Dafny.

The backend asks a generative text service for three things: career
recommendations, a skill gap and a thirty-day learning plan. It repairs the
free-form replies it gets back. Whenever the service fails or its answer
cannot be used, it builds the same kind of result from fixed tables.

The model covers:

- **Career reply sanitiser and fallback** (`ReplySanitizer`, `Regexes`,
  `Orchestrator`):
  - code fences are removed and the text is cut to its bracket span;
  - a non-empty array is kept, cut to ten entries;
  - otherwise the raw reply's `[...]` match is retried;
  - otherwise the deterministic ranking is returned.
- **Deterministic career ranker** (`CareerRanker`): eight templates are
  rescored by the user's skills and activities, capped at 99, and sorted
  stably in descending order.
- **Skill-gap extractor** (`SkillExtractor`):
  - a bracketed list is split on commas;
  - otherwise a character-filtered comma split keeps up to seven items;
  - otherwise a static default is returned;
  - when the service call fails, a table keyed by role is used.
- **Learning plan** (`Orchestrator`, `MockPlan`): the service's object is
  decorated with three fields, or the fixed thirty-day plan is built from
  per-role topic tables.
- **Content-library plan builder** (`PlanBuilder`): an imperative method
  with loops. Content types rotate daily and skills every four days. Each
  day's resource comes from a four-tier first-match search that ends in a
  placeholder. The method is proved equal, entry by entry, to a
  specification function, and the rotation and the tiers are proved about
  that function.
- **Extracted-text cleanup and its length diagnostic** (`TextCleanup`). The
  cleaned text is proved equal to the input's words joined by single spaces;
  the words are defined on their own (`TextWords`) and the collapse is
  related to them word by word (`WordSpacing`).
- **The front-end pieces**:
  - the learning page's day titles, day types and default plan, its set of
    completed days, and the quiz that completes a day (`Learn`);
  - the preference form's checkbox toggles and its continue rule (`Home`);
  - the two-thumb salary slider with its dragging state (`Slider`).

Two things the core relies on become parameters:

- The generative service's reply is a `Reply`: the text, or a
  `ServiceError`.
- `JSON.parse` is a `Parser`, a function that returns `None` where the real
  one throws.

JavaScript semantics are written out where they matter:

- the `\s` class;
- global regular-expression replacement, as a left-to-right scan;
- alternation order;
- truncating `%`;
- `slice`, `find`, `filter` and stable `sort`;
- object spread, where the last key wins.

The model follows the code as written:

- The extractor's bracket tier has no cap of seven and no default, so it can
  return nothing or more than seven skills, and the skill-gap path returns
  that list as it is (see Findings).
- The learning-plan path parses the service's object without checking its
  day count (`Orchestrator.ServicePlanIsNotChecked`). It cleans the reply
  with the fence pattern as written, so a line feed before a `json` fence
  sends a well-formed plan to the fallback (see Findings).
- The plan builder's first day is a video day. With one reading tagged "sql"
  and the skills SQL and Excel, Excel's reading day 8 gets that reading
  through the any-skill tier (`PlanBuilder.SqlReadingExampleDayEight`).

## Model

| member | source | states |
|---|---|---|
| Text.Trim | backend/server.js:147 | `trim` returns the piece of the input between a run of white space at the front and one at the end, and that piece neither starts nor ends with white space |
| Text.TrimIdempotent | backend/server.js:147 | trimming twice is trimming once |
| Text.IndexOf | backend/server.js:150 | `indexOf` is undefined exactly when the character is absent, else the first position holding it |
| Text.LastIndexOf | backend/server.js:151 | `lastIndexOf` is undefined exactly when absent, else the last position holding it |
| Text.ContainsIff | backend/server.js:281 | `includes` holds exactly when the needle occurs at some position |
| Text.Split | backend/server.js:410 | `split(',')` gives at least one piece and no piece holds the separator |
| Text.JoinSplit | backend/server.js:410 | joining the pieces of a split with the separator gives back the input |
| Text.NatToStringRoundTrip | backend/server.js:392 | the decimal rendering of a day number reads back as that number |
| Seqs.FilterKeepsOrder | backend/server.js:412 | `filter` keeps exactly the elements that pass the test, in their order: as many as pass, and the k-th passing element at index k |
| Seqs.FilterCounts | backend/server.js:412 | `filter` keeps every passing value as often as it occurs and drops every other value |
| Seqs.Map | backend/server.js:411 | `map` keeps the length and applies the function at each index |
| Seqs.FindFirst | backend/server.js:524-526 | `find` is undefined exactly when nothing passes, else the first passing element in order |
| Seqs.FindFirstInFilter | backend/server.js:503-508 | searching the filtered list finds the first element of the whole list that passes both tests |
| Seqs.FilterOutKeepsOthers | frontend/src/pages/Home.js:41 | filtering out a value keeps every other value as often as it occurred |
| Seqs.FilterOutAbsent | frontend/src/pages/Home.js:41 | filtering out a value that does not occur changes nothing |
| External.Lookup | backend/server.js:361 | a parsed object's key is absent exactly when no member has it; otherwise it reads the value of the last member with that key |
| External.SetMemberLookup | backend/server.js:362-367 | after setting a key, it reads the new value and every other key reads as before |
| Regexes.FenceAt | backend/server.js:144-145 | a fence at a position is three backticks there |
| Regexes.RemoveFencePlainPrefix | backend/server.js:143-144 | backtick-free text passes a fence removal unchanged |
| Regexes.RemoveFenceLeavesNoFence | backend/server.js:144 | after the fence removal with trailing white space, no three backticks are left |
| Regexes.RemoveBacktickRunsFenceFree | backend/server.js:145 | the backtick-run removal changes nothing on fence-free text |
| Regexes.RemoveFenceLinesFenceFree | backend/server.js:146 | the fence-line removal changes nothing on fence-free text |
| Regexes.CollapseBlankLinesNoLineFeed | backend/server.js:181 | blank-line collapsing changes nothing on text without a line feed |
| ReplySanitizer.CleanCareerReply | backend/server.js:142-147 | the cleaned career reply holds no fence and is trimmed |
| ReplySanitizer.CareerCleaningNeedsTwoSteps | backend/server.js:142-147 | the third and fourth replacements never change anything: the cleaning equals the two fence removals and the trim |
| ReplySanitizer.BracketSpan | backend/server.js:150-154 | the text is cut to the inclusive span from the first `[` to the last `]` when the first comes before the last; it is unchanged otherwise |
| ReplySanitizer.BracketSpanOfFramed | backend/server.js:150-154 | a `[`…`]` piece with no `[` before it and no `]` after it is exactly the span |
| ReplySanitizer.ArrayMatchIsBracketSpan | backend/server.js:175-177 | the retry regex matches exactly when there is a bracket span, and matches that same span |
| ReplySanitizer.CareerCandidate | backend/server.js:142-158 | the text of the first parse attempt holds no fence |
| ReplySanitizer.CareerCandidateOfFencedArray | backend/server.js:142-158 | prose, a `json` fence around an array, and prose reach the first parse as exactly the array |
| ReplySanitizer.RetryCandidate | backend/server.js:177-182 | the text of the retry parse is trimmed, holds no three backticks and no two line feeds with only white space between them |
| ReplySanitizer.RetryCandidateOfPlainText | backend/server.js:177-182 | a match without backticks or line feeds reaches the retry parse only trimmed |
| Regexes.RemoveMarkerLeavesNoFence | backend/server.js:180 | after `/```/g` no three backticks are left |
| Regexes.CollapseBlankLinesLeavesNone | backend/server.js:181 | after `/\n\s*\n/g` no two line feeds have only white space between them |
| Regexes.CollapseBlankLinesFenceFree | backend/server.js:181 | the blank-line replacement creates no three backticks in fence-free text |
| ReplySanitizer.CleanPlanReplyAsWritten | backend/server.js:360 | the plan reply as the code cleans it is trimmed |
| ReplySanitizer.AsWrittenUnwrapsLeadingFence | backend/server.js:360 | as written, a reply that starts with the `json` fence is unwrapped to its body |
| ReplySanitizer.AsWrittenKeepsJsonTag | backend/server.js:360 | as written, a reply with a line feed before the `json` fence keeps the word `json` in front of the body |
| ReplySanitizer.CleanPlanReply | backend/server.js:360 | the corrected plan cleaning is trimmed |
| ReplySanitizer.CleanPlanReplyUnwrapsFence | backend/server.js:360 | corrected, a fenced body is unwrapped whether or not a line feed comes before the fence |
| ReplySanitizer.CleanPlanReplyPlainText | backend/server.js:360 | on backtick-free text both cleanings are just the trim |
| SkillExtractor.BracketGroupSpec | backend/server.js:404 | the group found is the leftmost match: non-empty, free of `]`, bracketed at a position before which no `[` opens a group; none is found only when no `[` anywhere opens one |
| SkillExtractor.CleanItemKeepsText | backend/server.js:411 | an item is the trimmed piece with its quote marks removed and every other character kept, in order |
| SkillExtractor.BracketItemsInOrder | backend/server.js:409-412 | the bracket-tier items are, in order, exactly the cleaned pieces of the comma split that are not empty |
| SkillExtractor.BracketItemsWellFormed | backend/server.js:407-412 | every bracket-tier item is non-empty, quote-free, comma-free and drawn from the group |
| SkillExtractor.KeepAllowed | backend/server.js:418 | exactly the word characters, white space, commas, periods and hyphens of the input are kept, in order |
| SkillExtractor.LongPieces | backend/server.js:417-421 | the pieces kept are, in order, exactly the trimmed pieces of the filtered text's comma split that are longer than two characters |
| SkillExtractor.HeuristicItems | backend/server.js:417-422 | the heuristic tier is the first seven of those pieces, or all of them when there are fewer |
| SkillExtractor.HeuristicItemsWellFormed | backend/server.js:417-422 | every heuristic item is trimmed, comma-free and longer than two characters |
| SkillExtractor.ExtractListAsWritten | backend/server.js:401-429 | as written: a bracket group gives exactly its items, uncapped and possibly none; otherwise the heuristic items when there are any, else the default list; every item is non-empty and comma-free |
| SkillExtractor.AsWrittenEmptyForQuotedBlanks | backend/server.js:404-413 | as written, the reply `['', '']` gives an empty skill list |
| SkillExtractor.ExtractList | backend/server.js:401-429 | corrected: a bracket group gives its first seven items, or the default list when it has none; otherwise what the code gives; always one to seven non-empty, comma-free items |
| SkillExtractor.CappedBracketItems | backend/server.js:404-413 | corrected bracket tier: the first seven items, all of them when fewer, and the default list when there are none |
| SkillExtractor.BracketTierUncapped | backend/server.js:404-413 | as written, a group with more than seven items gives them all, where the corrected extractor keeps the first seven |
| SkillExtractor.ExtractListAgreesWhenInBounds | backend/server.js:401-429 | wherever the code already gives one to seven items, the corrected extractor gives the same list |
| SkillExtractor.DefaultSkillsWellFormed | backend/server.js:424 | the static default items are non-empty and comma-free |
| SkillExtractor.FallbackSkills | backend/server.js:461-467 | the role table gives four or five skills, and an unknown role the generic four |
| SkillExtractor.IdentifyMissingSkills | backend/server.js:454-467 | a reply gives exactly the extractor's list as written; a failed call gives the role table, four or five skills |
| SkillExtractor.QuotedBlanksReplyGivesNoSkills | backend/server.js:457 | a reply listing two empty strings leaves the user with no missing skill, whatever the role |
| CareerRanker.Rescore | backend/server.js:276-290 | only the score changes: it is the raw score when that is below 99, and 99 otherwise, and never below a template score of at most 99 |
| CareerRanker.Insert | backend/server.js:294-295 | inserting adds exactly the one career (length and multiset); the new head is that career or the old head |
| CareerRanker.InsertSorted | backend/server.js:294-295 | inserting into a list ordered by non-increasing score keeps it ordered |
| CareerRanker.SortByScore | backend/server.js:294-295 | the sort is a permutation with non-increasing scores |
| CareerRanker.SortStable | backend/server.js:294-295 | careers of equal score keep their relative order |
| CareerRanker.SortKeepsLeadingMaximum | backend/server.js:294-295 | a first career with the highest score stays first |
| CareerRanker.Rescored | backend/server.js:276-291 | each template is rescored in place and every score is at most 99 |
| CareerRanker.RankTable | backend/server.js:294-296 | at most ten careers, non-increasing, all rescored templates; all of them when there are at most ten |
| CareerRanker.RankTableStable | backend/server.js:294-296 | ranking keeps ties in template order |
| CareerRanker.Rank | backend/server.js:207-297 | eight careers, non-increasing, capped at 99, a permutation of the rescored templates with ties in template order |
| CareerRanker.RankedAreTemplates | backend/server.js:276-290 | each ranked career is a template whose score lies between its own and 99 |
| CareerRanker.BuilderWithJavaScriptGetsFrontendFirst | backend/server.js:210-215 | a user who likes building things and knows JavaScript gets Junior Frontend Developer first, at 99 |
| MockPlan.TableLength | backend/server.js:571-643 | every topic table has thirty entries except Software Developer's, which has twenty-five |
| MockPlan.UnknownRoleUsesMarketingTopics | backend/server.js:645 | a role without a table uses the Marketing Coordinator topics |
| MockPlan.SoftwareDeveloperRunsOut | backend/server.js:604-610 | days 26 to 30 of a Software Developer are titled `Software Developer Topic <day>` |
| MockPlan.TableCoversPlan | backend/server.js:645-646 | every other role has a table entry for each of the thirty days |
| MockPlan.MockLearningPlan | backend/server.js:382-398 | thirty days numbered from one, types reading, video, quiz, game in turn, five minutes, not completed, titled after the role's topic |
| MockPlan.MockKindsRotate | backend/server.js:393 | the fallback plan starts with reading and repeats its types every four days |
| Orchestrator.CareerRecommendations | backend/server.js:139-203 | a generated answer has one to ten entries; it is the first ten of the first parse when that gives a non-empty array, else the first ten of the retry on the bracket span when that gives one; the ranking comes back exactly when neither parse gives one, and on a failed call |
| Orchestrator.ServiceCareers | backend/server.js:139-189 | the service text yields entries exactly when the first or the retry parse gives a non-empty array; the first attempt wins when it does |
| Orchestrator.FirstCareers | backend/server.js:140-166 | the first attempt succeeds exactly when the cleaned reply parses to a non-empty array, and then gives its first ten entries |
| Orchestrator.RetryCareers | backend/server.js:173-189 | the retry succeeds exactly when there is a bracket span whose cleaned text parses to a non-empty array, and gives its first ten entries, one to ten of them |
| Orchestrator.FirstTenLength | backend/server.js:161-163 | the first ten entries of a non-empty array are between one and ten entries |
| Orchestrator.UnparseableReplyFallsBack | backend/server.js:168-196 | when neither parse attempt yields a non-empty array, the ranking is returned |
| Orchestrator.FencedArrayReplyIsUsed | backend/server.js:142-163 | a fenced array between two pieces of prose is answered with its first ten entries |
| Orchestrator.DecoratePlan | backend/server.js:362-367 | the spread object reads the fixed time, the timestamp and the career; every other key reads as in the parsed value |
| Orchestrator.PlanFromParse | backend/server.js:361-372 | a parsed value is used, decorated; no value gives the thirty-day fallback plan |
| Orchestrator.GenerateLearningPlan | backend/server.js:358-378 | the service's object is used exactly when the call succeeds and the reply, cleaned as the code cleans it, parses; it reads the three added fields and otherwise the parsed keys; else the thirty-day fallback plan |
| Orchestrator.LineFeedBeforeFenceFallsBack | backend/server.js:360-372 | as written, a fenced `{}` after a line feed is served the fallback plan |
| Orchestrator.CorrectedLearningPlan | backend/server.js:358-378 | the same decisions on the text the corrected fence removal leaves |
| Orchestrator.CorrectedUsesFencedPlan | backend/server.js:360-367 | corrected, a fenced body that parses is used, with or without a line feed before the fence |
| Orchestrator.CorrectionKeepsPlainReplies | backend/server.js:360 | on a reply without backticks the corrected path gives the code's answer |
| Orchestrator.DecoratedEmptyObjectHasNoDays | backend/server.js:362-367 | an empty parsed object yields a plan without `days` |
| Orchestrator.ServicePlanIsNotChecked | backend/server.js:358-367 | a reply that, cleaned as the code cleans it, parses to `{}` is returned as the plan, with no days |
| TextCleanup.CollapseSpacesSingleSpaced | backend/server.js:80 | after collapsing, no white space but single spaces is left |
| TextCleanup.CollapseSpacesIdempotent | backend/server.js:80 | collapsing twice is collapsing once |
| TextCleanup.CleanExtractedText | backend/server.js:79-82 | the cleaned text is single-spaced, has no line feed, is trimmed, and keeps every character of the input that is not white space, in order |
| TextCleanup.CleanedTextIsSpacedWords | backend/server.js:79-82 | the cleaned text is the words of the input, its maximal runs without white space, in order, joined by exactly one space each |
| WordSpacing.WordsCollapse | backend/server.js:80 | collapsing white space in a text that starts with a word gives its words joined by single spaces, plus one space when the text ends with white space |
| WordSpacing.TrimmedCollapse | backend/server.js:80-82 | collapsing white space and then trimming leaves the words joined by single spaces |
| TextCleanup.CollapseSpacesKeepsText | backend/server.js:80 | collapsing white space keeps every other character, in order |
| TextCleanup.TrimKeepsText | backend/server.js:82 | trimming keeps every character that is not white space |
| TextCleanup.BlankLineStepIsIdle | backend/server.js:80-82 | the blank-line replacement never changes anything after the space collapse |
| TextCleanup.ExtractText | backend/server.js:79-89 | the cleaned text is returned exactly when it has at least 50 characters; otherwise the outcome reports its length, which is below 50, in the code's message |
| PlanBuilder.BuildPlan | backend/server.js:495-568 | thirty entries, entry i being the specification's entry for day i + 1 |
| PlanBuilder.ChooseResource | backend/server.js:520-555 | the loop body picks the specification's resource for the day |
| PlanBuilder.PlanEntryShape | backend/server.js:557-564 | each entry is for its day, not completed, of the day's type, about the day's skill, which is from the list |
| PlanBuilder.TypesRotate | backend/server.js:513-514 | day 1 is a video day and types repeat every four days |
| PlanBuilder.SkillsRotate | backend/server.js:517-518 | a skill holds for four days in a row, and block b uses skill b modulo the list length |
| PlanBuilder.SkillsWrapAround | backend/server.js:517 | the skills come round again after four days per skill |
| PlanBuilder.SelectionTiers | backend/server.js:520-555 | the resource is the first of the type matching the day's skill, else the first matching any skill, else the first of the type, else the placeholder |
| PlanBuilder.SingleResourceLibrary | backend/server.js:543-555 | with one resource, its type's days get it and every other day a placeholder |
| PlanBuilder.FallbackLibraryPlan | backend/server.js:482-490 | with the fallback library, reading days get "Getting Started" and the rest placeholders |
| PlanBuilder.SqlReadingExampleDayOne | backend/server.js:548-555 | with one "sql" reading, day 1 is titled `Day 1: SQL Basics` |
| PlanBuilder.SqlReadingExampleDayEight | backend/server.js:529-540 | with one "sql" reading, Excel's day 8 still gets that reading |
| Learn.GetDayTitleTable | frontend/src/pages/Learn.js:9-19 | days 1 to 30 get the table's title, any other day `Topic <day>` |
| Learn.GetDayTitleAgreesWithBackend | frontend/src/pages/Learn.js:10-18 | the page's titles are the backend's Frontend Developer topics |
| Learn.JsRemainder | frontend/src/pages/Learn.js:23 | the remainder has the dividend's sign, is smaller than the divisor, and goes with the quotient rounded toward zero |
| Learn.GetDayTypeCycles | frontend/src/pages/Learn.js:21-24 | from day 1 the type cycles reading, video, quiz, game |
| Learn.GetDayTypeBeforeDayOne | frontend/src/pages/Learn.js:23 | before day 1 the type is undefined, except reading where the remainder is zero |
| Learn.GetDayTypeAgreesWithBackend | frontend/src/pages/Learn.js:22 | the page's type rotation is the fallback plan's |
| Learn.DefaultPlanShape | frontend/src/pages/Learn.js:46-64 | thirty days numbered from one, titled `Day n: <title>`, typed by the rotation, five minutes, with the first quiz option correct |
| Learn.DefaultPlanAgreesWithBackend | frontend/src/pages/Learn.js:52-63 | the default plan's days match the backend fallback plan for a Frontend Developer |
| Learn.CompletedDays.constructor | frontend/src/pages/Learn.js:79-80 | the completed set is the set of the saved days |
| Learn.CompletedDays.MarkDayComplete | frontend/src/pages/Learn.js:83-87 | the day is added and nothing is removed |
| Learn.QuizState.constructor | frontend/src/pages/Learn.js:261-262 | a quiz starts with nothing selected and no result shown |
| Learn.QuizState.Select | frontend/src/pages/Learn.js:283 | choosing an option selects it and leaves the result flag alone |
| Learn.QuizState.HandleSubmit | frontend/src/pages/Learn.js:264-269 | the result is shown, and the day completes exactly when the chosen answer is the correct one |
| Learn.AnswerQuiz | frontend/src/pages/Learn.js:137 | a day's quiz completes exactly on the first option and then marks that day only |
| Home.ActivityChange | frontend/src/pages/Home.js:37-44 | an activity click leaves the skills and the salary range alone |
| Home.SkillChange | frontend/src/pages/Home.js:46-53 | a skill click leaves the activities and the salary range alone |
| Home.SalaryChange | frontend/src/pages/Home.js:88 | the slider callback leaves both lists alone |
| Home.ToggleAbsent | frontend/src/pages/Home.js:40-42 | an absent item is appended at the end |
| Home.TogglePresent | frontend/src/pages/Home.js:41 | a present item is removed in every copy and every other item keeps its count |
| Home.ToggleTwice | frontend/src/pages/Home.js:40-42 | ticking an absent item and unticking it gives the list back |
| Home.ToggleKeepsDistinct | frontend/src/pages/Home.js:40-42 | lists built by clicks never hold an item twice |
| Home.ContinueNeedsBothLists | frontend/src/pages/Home.js:155 | continue starts disabled, and one activity plus one skill enable it |
| Home.UntickLastActivity | frontend/src/pages/Home.js:155 | unticking the only activity disables continue again |
| Home.SalaryRangeStaysWellSpaced | frontend/src/pages/Home.js:83-88 | the initial range is well spaced on the slider and every drag keeps it so |
| Slider.ClampPercentage | frontend/src/components/DoubleRangeSlider.js:18 | the percentage lies in [0, 100] and is unchanged when already in it |
| Slider.NewMinBounds | frontend/src/components/DoubleRangeSlider.js:22-24 | the low thumb stays at least `min`, at least a step below the high one when the track allows, and otherwise follows the mouse |
| Slider.NewMaxBounds | frontend/src/components/DoubleRangeSlider.js:25-27 | the high thumb stays at most `max`, at least a step above the low one when the track allows, and otherwise follows the mouse |
| Slider.MoveKeepsWellSpaced | frontend/src/components/DoubleRangeSlider.js:22-28 | a drag keeps a well-spaced range well spaced and changes only the dragged end |
| Slider.DoubleRangeSlider.constructor | frontend/src/components/DoubleRangeSlider.js:4 | the slider starts with no thumb dragged |
| Slider.DoubleRangeSlider.MouseDown | frontend/src/components/DoubleRangeSlider.js:9-12 | pressing a thumb starts dragging it |
| Slider.DoubleRangeSlider.MouseUp | frontend/src/components/DoubleRangeSlider.js:31-33 | releasing ends dragging |
| Slider.DoubleRangeSlider.MouseMove | frontend/src/components/DoubleRangeSlider.js:14-29 | nothing is reported unless a thumb is dragged; a drag reports the new low or high end with the other kept, and keeps a well-spaced range well spaced |

## Left out

- HTTP routing, CORS, uploads, file and PDF reading, and the server start-up (backend/server.js:10-77, 649-779) are I/O. Only the text cleanup after extraction is modelled.
- The reading of the content library file (backend/server.js:472-479) is left out. The model keeps the fallback library it returns on error.
- The calls to the generative service are foreign network calls, and the prompt texts are not modelled. Each reply is a `Reply` parameter.
- `JSON.parse` is the `Parser` parameter. `JSON.stringify` and `localStorage` are left out.
- Timestamps (`new Date().toISOString()`) are a parameter.
- Logging is left out.
- The `setTimeout` of 1500 ms before a quiz completes its day is not modelled. `HandleSubmit` returns whether the day completes.
- Text.Lower: lower-casing is ASCII only. JavaScript's Unicode case mapping is not modelled.
- String lengths count characters rather than UTF-16 code units. This only matters for characters outside the Basic Multilingual Plane, in the 50-character threshold and the "longer than two" test.
- Keys are looked up as plain strings. JavaScript also finds inherited members such as `topics["constructor"]`, `fallbackSkills["__proto__"]` or `skillContentMap["toString"]`, and the model does not.
- A reply whose content is `null` makes `extractListFromGPT` throw and return the default list. The model's reply is always a string.
- buildPlan: inputs that are not strings, and resources without `tags`, would throw in JavaScript. They are outside the model's types.
- The slider's mouse-position-to-value arithmetic and `Math.round` stepping are floating point. `MouseMove` receives the stepped value. The `sliderRef.current` null check and the document listeners (DOM) are left out.
- The learning page's progress percentage and the form's `k` salary formatting are display-only floating-point arithmetic.
- The markdown reading text of a learning-page day is a long display literal. `DayContent` keeps the video path, the quiz and the game path.
- Learn.js:172 reads `learningPlan.plan`, which the default plan never sets. This is a rendering crash path, not behaviour.
- The upload and jobs pages and the router are navigation and network glue.
- ReplySanitizer.RetryCandidate: the contract states what the cleaning leaves out (no three backticks, no blank line, no white space at the ends) rather than the exact text. The exact text is stated only for a match without backticks or line feeds (`RetryCandidateOfPlainText`).

## Findings

| source | as written | input that shows it | evidently intended | confidence | as-written member | corrected member |
|---|---|---|---|---|---|---|
| backend/server.js:404-413 | the bracket tier returns its filtered items directly, with no default and no cap of seven | the reply `['', '']` gives `[]` | a non-empty list of at most seven skills, falling back to the default | not executed | SkillExtractor.ExtractListAsWritten, SkillExtractor.AsWrittenEmptyForQuotedBlanks, SkillExtractor.BracketTierUncapped, SkillExtractor.IdentifyMissingSkills | SkillExtractor.ExtractList, SkillExtractor.CappedBracketItems |
| backend/server.js:360 | `/```json\n?\|\n?```/g` matches the second alternative at a line feed before a `json` fence, so `json` stays in the text | the reply "\n```json\n{}\n```" cleans to "json\n{}", which does not parse, so the fallback plan is served | the fence is removed with the line feed around it, leaving `{}` | not executed | ReplySanitizer.CleanPlanReplyAsWritten, ReplySanitizer.AsWrittenKeepsJsonTag, Orchestrator.GenerateLearningPlan, Orchestrator.LineFeedBeforeFenceFallsBack | ReplySanitizer.CleanPlanReply, ReplySanitizer.CleanPlanReplyUnwrapsFence, Orchestrator.CorrectedLearningPlan, Orchestrator.CorrectedUsesFencedPlan |
