/** The learning page of the front end: the titles and content types of its
    built-in thirty-day plan, the set of completed days, and the quiz that
    marks a day complete when answered correctly. */
module Learn {
  import opened Wrappers
  import opened Text
  import MockPlan
  import External

  const DefaultTitle := "Frontend Developer Learning Path"
  const DefaultDescription := "A comprehensive 30-day plan to master frontend development"
  const DefaultDays := 30
  const Duration := "5 minutes"
  const DayTypes: seq<string> := ["reading", "video", "quiz", "game"]

  /** The page's own copy of the day titles. */
  const DayTitles: seq<string> := [
    "HTML Fundamentals", "CSS Basics", "JavaScript Introduction", "DOM Manipulation", "ES6 Features",
    "React Basics", "Components & Props", "State Management", "Event Handling", "Hooks Introduction",
    "useEffect Hook", "Custom Hooks", "Context API", "Routing", "Forms",
    "API Integration", "Error Handling", "Testing Basics", "Performance", "Accessibility",
    "Responsive Design", "CSS Grid", "Flexbox", "Animations", "Build Tools",
    "Git & GitHub", "Deployment", "Code Review", "Best Practices", "Final Project"
  ]

  const QuizOptions: seq<string> := [
    "Understanding the basic principles",
    "Memorizing all the syntax",
    "Skipping to advanced topics",
    "Only reading about it"
  ]

  /** `getDayTitle`: the table's entry for the day, or `Topic <day>` when
      there is none (or, through `||`, when it is empty). */
  function GetDayTitle(day: int): string
  {
    if 1 <= day <= |DayTitles| && DayTitles[day - 1] != "" then DayTitles[day - 1]
    else "Topic " + IntToString(day)
  }

  /** JavaScript's `%`: the remainder takes the sign of the dividend. */
  function JsRemainder(a: int, b: int): (r: int)
    requires b > 0
    ensures a >= 0 ==> 0 <= r < b
    ensures a < 0 ==> -b < r <= 0
    ensures a - r == b * JsQuotient(a, b)
  {
    if a >= 0 then a % b else -((-a) % b)
  }

  /** The quotient that goes with `JsRemainder`: rounded toward zero. */
  function JsQuotient(a: int, b: int): int
    requires b > 0
  {
    if a >= 0 then a / b else -((-a) / b)
  }

  /** `getDayType`: `types[(day - 1) % 4]`, which is `undefined` where the
      remainder is negative. */
  function GetDayType(day: int): Option<string>
  {
    var r := JsRemainder(day - 1, 4);
    if 0 <= r then Some(DayTypes[r]) else None
  }

  datatype Quiz = Quiz(question: string, options: seq<string>, correct: int)

  /** What a day carries besides its markdown reading text. */
  datatype DayContent = DayContent(video: string, quiz: Quiz, game: string)

  datatype Day = Day(day: int, title: string, kind: Option<string>, content: DayContent, duration: string)

  datatype DefaultPlan = DefaultPlan(title: string, description: string, totalDays: int, days: seq<Day>)

  /** `getDayContent` without the reading text. */
  function DayContentFor(day: nat): DayContent
  {
    DayContent(
      "/videos/day" + NatToString(day) + ".mp4",
      Quiz("What is the most important concept about " + GetDayTitle(day) + "?", QuizOptions, 0),
      "/games/day" + NatToString(day) + ".html")
  }

  function DefaultDay(day: nat): Day
  {
    Day(day, "Day " + NatToString(day) + ": " + GetDayTitle(day), GetDayType(day), DayContentFor(day), Duration)
  }

  /** `loadDefaultPlan`'s plan. */
  function LoadDefaultPlan(): DefaultPlan
  {
    DefaultPlan(DefaultTitle, DefaultDescription, DefaultDays, seq(DefaultDays, i requires 0 <= i => DefaultDay(i + 1)))
  }

  /** No entry of the table is empty, so `||` falls back only past its end. */
  lemma GetDayTitleTable(day: int)
    ensures 1 <= day <= 30 ==> GetDayTitle(day) == DayTitles[day - 1]
    ensures !(1 <= day <= 30) ==> GetDayTitle(day) == "Topic " + IntToString(day)
  {
  }

  /** The page's titles are the backend's Frontend Developer topics; past
      the table the two differ, since the backend prefixes the role. */
  lemma GetDayTitleAgreesWithBackend(day: int)
    requires 1 <= day <= 30
    ensures GetDayTitle(day) == MockPlan.GetJobSpecificTitle("Frontend Developer", day)
  {
    FrontendTopicsAreDayTitles();
    GetDayTitleTable(day);
  }

  /** The backend's table for the Frontend Developer role is the page's. */
  lemma FrontendTopicsAreDayTitles()
    ensures MockPlan.TopicsFor("Frontend Developer") == DayTitles
  {
    assert DayTitles == MockPlan.FrontendDeveloperTopics;
  }

  /** From day one the type cycles reading, video, quiz, game. */
  lemma GetDayTypeCycles(day: int)
    requires day >= 1
    ensures GetDayType(1) == Some("reading")
    ensures GetDayType(day) == Some(DayTypes[(day - 1) % 4])
    ensures GetDayType(day + 4) == GetDayType(day)
  {
    assert (day + 4 - 1) % 4 == (day - 1) % 4;
  }

  /** Before day one the type is `undefined` except where the remainder is
      zero (a negative zero, which indexes the first entry). */
  lemma GetDayTypeBeforeDayOne(day: int)
    requires day <= 0
    ensures GetDayType(day).Some? <==> (1 - day) % 4 == 0
    ensures GetDayType(day).Some? ==> GetDayType(day) == Some("reading")
  {
  }

  /** The page's type rotation is the backend fallback plan's. */
  lemma GetDayTypeAgreesWithBackend(i: nat)
    ensures GetDayType(i + 1) == Some(MockPlan.DayKinds[i % 4])
  {
  }

  /** The default plan: thirty days numbered from one, each titled
      `Day n: <title>`, typed by the rotation, five minutes long, with a
      quiz whose first option is the correct one. */
  lemma DefaultPlanShape(i: nat)
    requires i < DefaultDays
    ensures var plan := LoadDefaultPlan();
      plan.totalDays == |plan.days| == 30 &&
      plan.days[i].day == i + 1 &&
      plan.days[i].title == "Day " + NatToString(i + 1) + ": " + DayTitles[i] &&
      plan.days[i].kind == Some(DayTypes[i % 4]) &&
      plan.days[i].duration == "5 minutes" &&
      plan.days[i].content.quiz.options[plan.days[i].content.quiz.correct] == "Understanding the basic principles"
  {
    GetDayTitleTable(i + 1);
    GetDayTypeCycles(i + 1);
  }

  /** The default plan and the backend's fallback plan for a Frontend
      Developer list the same days: number, title, type and duration. */
  lemma DefaultPlanAgreesWithBackend(career: External.Json, generatedAt: string, i: nat)
    requires i < DefaultDays
    ensures var day := LoadDefaultPlan().days[i];
      var mock := MockPlan.MockLearningPlan("Frontend Developer", career, generatedAt).days[i];
      day.day == mock.day && day.title == mock.title && day.kind == Some(mock.kind) && day.duration == mock.duration
  {
    GetDayTitleAgreesWithBackend(i + 1);
    GetDayTypeAgreesWithBackend(i);
  }

  /** The days marked complete. */
  class CompletedDays {
    var days: set<int>

    /** Restoring the saved list: `new Set(completed)`. */
    constructor (saved: seq<int>)
      ensures days == set d | d in saved
    {
      days := set d | d in saved;
    }

    /** `markDayComplete`: adds the day and nothing else. */
    method MarkDayComplete(day: int)
      modifies this
      ensures days == old(days) + {day}
      ensures day in days && old(days) <= days && |days| <= |old(days)| + 1
    {
      days := days + {day};
    }
  }

  /** The state of one quiz: the radio button chosen, if any, and whether the
      result is shown. */
  class QuizState {
    const correct: int
    var selected: Option<int>
    var showResult: bool

    constructor (quiz: Quiz)
      ensures correct == quiz.correct && selected.None? && !showResult
    {
      correct := quiz.correct;
      selected := None;
      showResult := false;
    }

    /** The submit button is enabled once an answer is chosen. */
    predicate SubmitEnabled()
      reads this
    {
      selected.Some?
    }

    /** Choosing option `index`. */
    method Select(index: int)
      modifies this
      ensures selected == Some(index) && showResult == old(showResult)
    {
      selected := Some(index);
    }

    /** `handleSubmit`: shows the result, and completes the day exactly when
        the chosen answer is the correct one. */
    method HandleSubmit() returns (completes: bool)
      modifies this
      ensures showResult && selected == old(selected)
      ensures completes <==> selected == Some(correct)
      ensures completes ==> old(SubmitEnabled())
    {
      showResult := true;
      completes := selected == Some(correct);
    }
  }

  /** Answering a day's quiz: completion follows exactly from choosing the
      first option, and it marks that day and no other. */
  method AnswerQuiz(day: nat, choice: int, completed: CompletedDays) returns (completes: bool)
    modifies completed
    ensures completes <==> choice == 0
    ensures completed.days == if completes then old(completed.days) + {day} else old(completed.days)
  {
    var quiz := new QuizState(DayContentFor(day).quiz);
    quiz.Select(choice);
    completes := quiz.HandleSubmit();
    if completes {
      completed.MarkDayComplete(day);
    }
  }
}
