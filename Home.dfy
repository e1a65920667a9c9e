/** The preferences form of the home page: the salary range, the activities
    and the skills the user ticks, and when the form may be submitted. */
module Home {
  import opened Wrappers
  import opened Seqs
  import Slider

  const SalaryMin := 30000
  const SalaryMax := 200000
  const SalaryStep := 5000

  datatype FormData = FormData(salaryRange: Slider.Range, activities: seq<string>, skills: seq<string>)

  /** The form as the page first shows it. */
  const InitialForm := FormData(Slider.Range(60000, 120000), [], [])

  /** A checkbox click: an absent item is appended, a present one is removed
      together with every equal entry. */
  function Toggle(list: seq<string>, item: string): seq<string>
  {
    if item in list then Filter(list, Unequal(item)) else list + [item]
  }

  /** `handleActivityChange`. */
  function ActivityChange(form: FormData, activity: string): (r: FormData)
    ensures r.salaryRange == form.salaryRange && r.skills == form.skills
  {
    form.(activities := Toggle(form.activities, activity))
  }

  /** `handleSkillChange`. */
  function SkillChange(form: FormData, skill: string): (r: FormData)
    ensures r.salaryRange == form.salaryRange && r.activities == form.activities
  {
    form.(skills := Toggle(form.skills, skill))
  }

  /** The slider's `onChange`. */
  function SalaryChange(form: FormData, range: Slider.Range): (r: FormData)
    ensures r.activities == form.activities && r.skills == form.skills
  {
    form.(salaryRange := range)
  }

  /** The continue button is disabled while either list is empty. */
  predicate ContinueDisabled(form: FormData)
  {
    |form.activities| == 0 || |form.skills| == 0
  }

  /** Ticking an absent item puts it at the end and keeps the rest. */
  lemma ToggleAbsent(list: seq<string>, item: string)
    requires item !in list
    ensures Toggle(list, item)[..|list|] == list && Toggle(list, item)[|list|] == item
    ensures item in Toggle(list, item)
  {
  }

  /** Unticking a present item removes every copy of it and keeps every
      other entry as often as it was there. */
  lemma TogglePresent(list: seq<string>, item: string, other: string)
    requires item in list && other != item
    ensures item !in Toggle(list, item)
    ensures multiset(Toggle(list, item))[other] == multiset(list)[other]
  {
    FilterOutKeepsOthers(list, item, other);
  }

  /** Ticking an absent item and unticking it again gives the list back. */
  lemma ToggleTwice(list: seq<string>, item: string)
    requires item !in list
    ensures Toggle(Toggle(list, item), item) == list
  {
    FilterAppend(list, [item], Unequal(item));
    FilterOutAbsent(list, item);
  }

  /** Lists built by clicks never hold an item twice. */
  lemma ToggleKeepsDistinct(list: seq<string>, item: string)
    requires forall i, j :: 0 <= i < j < |list| ==> list[i] != list[j]
    ensures var r := Toggle(list, item);
      forall i, j :: 0 <= i < j < |r| ==> r[i] != r[j]
  {
    if item in list {
      var r := Toggle(list, item);
      forall i, j | 0 <= i < j < |r|
        ensures r[i] != r[j]
      {
        if r[i] == r[j] {
          TogglePresent(list, item, r[i]);
          assert multiset(r)[r[i]] >= 2 by {
            assert r == r[..i] + [r[i]] + r[i + 1..j] + [r[j]] + r[j + 1..];
          }
          DistinctCount(list, r[i]);
        }
      }
    }
  }

  /** In a list without repeats every value occurs at most once. */
  lemma {:induction false} DistinctCount(list: seq<string>, x: string)
    requires forall i, j :: 0 <= i < j < |list| ==> list[i] != list[j]
    ensures multiset(list)[x] <= 1
  {
    if list != [] {
      DistinctCount(list[1..], x);
      assert list == [list[0]] + list[1..];
      if list[0] == x {
        assert x !in list[1..];
      }
    }
  }

  /** The page opens with continue disabled; one activity and one skill
      enable it. */
  lemma ContinueNeedsBothLists(activity: string, skill: string)
    ensures ContinueDisabled(InitialForm)
    ensures !ContinueDisabled(SkillChange(ActivityChange(InitialForm, activity), skill))
  {
  }

  /** Unticking the only activity disables continue again. */
  lemma UntickLastActivity(form: FormData, activity: string)
    requires form.activities == [activity]
    ensures ContinueDisabled(ActivityChange(form, activity))
  {
    assert activity !in Toggle(form.activities, activity);
  }

  /** The salary range the page starts with is well spaced on its slider,
      and every drag through the slider keeps it so. */
  lemma SalaryRangeStaysWellSpaced(form: FormData, thumb: Slider.Thumb, stepped: int)
    requires Slider.WellSpaced(SalaryMin, SalaryMax, SalaryStep, form.salaryRange)
    ensures Slider.WellSpaced(SalaryMin, SalaryMax, SalaryStep, InitialForm.salaryRange)
    ensures var moved := Slider.Move(SalaryMin, SalaryMax, SalaryStep, form.salaryRange, Some(thumb), stepped);
      moved.Some? && Slider.WellSpaced(SalaryMin, SalaryMax, SalaryStep, SalaryChange(form, moved.value).salaryRange)
  {
    Slider.MoveKeepsWellSpaced(SalaryMin, SalaryMax, SalaryStep, form.salaryRange, thumb, stepped);
  }
}
