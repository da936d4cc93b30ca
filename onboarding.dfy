/**
 * The onboarding wizard: the fixed ten-step sequence and back navigation,
 * the psychometric answers, the skill-calibration level, the difficulty
 * sort of the calibration questions, dismissing suggested careers, the
 * duration estimate and the final submission.
 */
module Onboarding {
  import opened Types
  import opened Strings

  // ---------------------------------------------------------------- duration estimate

  /** Base days of a goal; 0 for any other goal ("Custom" included). */
  function GoalBase(goal: string): nat {
    if goal == "Basics" then 30 else if goal == "JobReady" then 90 else if goal == "Mastery" then 180 else 0
  }

  /** The level multiplier in tenths: 1.0, 0.6, 0.3. */
  function LevelTenths(level: Level): nat {
    match level
    case Beginner => 10
    case Intermediate => 6
    case Advanced => 3
  }

  /** The difficulty multiplier in tenths: 1.4 for a title longer than 20 UTF-16 code units, else 1.0. */
  function DifficultyTenths(title: string): nat {
    if Utf16Length(title) > 20 then 14 else 10
  }

  /** A hundred times the estimate before rounding: base · level · difficulty. */
  function EstimateHundredths(goal: string, level: Level, title: string): nat {
    GoalBase(goal) * LevelTenths(level) * DifficultyTenths(title)
  }

  /**
   * `estimatedDays`: 0 without a goal, without a career or for a goal with
   * no base; otherwise the product rounded half up, but at least 7.
   */
  function EstimatedDays(goal: Option<string>, level: Level, career: Option<CareerOption>): nat {
    if goal.None? || career.None? || GoalBase(goal.value) == 0 then 0
    else
      var rounded := (EstimateHundredths(goal.value, level, career.value.title) + 50) / 100;
      if rounded < 7 then 7 else rounded
  }

  /** No reachable product ends in exactly half a day, so rounding never meets a tie. */
  lemma NoTie(goal: string, level: Level, title: string)
    requires GoalBase(goal) > 0
    ensures EstimateHundredths(goal, level, title) % 100 != 50
  {
  }

  /**
   * The estimate is 0 exactly when the goal or the career is missing or the
   * goal has no base; otherwise it is the integer nearest to
   * base · level · difficulty (strictly within half a day, since there is no
   * tie), never below 7, and in fact between 9 and 252 days.
   */
  lemma EstimatedDaysSpec(goal: Option<string>, level: Level, career: Option<CareerOption>)
    ensures EstimatedDays(goal, level, career) == 0 <==> goal.None? || career.None? || GoalBase(goal.value) == 0
    ensures goal.Some? && career.Some? && GoalBase(goal.value) > 0 ==>
      var r := EstimatedDays(goal, level, career);
      var p := EstimateHundredths(goal.value, level, career.value.title);
      && 100 * r - 50 < p < 100 * r + 50
      && 9 <= r <= 252
  {
    if goal.Some? && career.Some? && GoalBase(goal.value) > 0 {
      NoTie(goal.value, level, career.value.title);
    }
  }

  lemma EstimatedDaysExamples(short: CareerOption, long: CareerOption)
    requires Utf16Length(short.title) <= 20 && Utf16Length(long.title) > 20
    ensures EstimatedDays(Some("Basics"), Beginner, Some(short)) == 30
    ensures EstimatedDays(Some("Basics"), Advanced, Some(long)) == 13
    ensures EstimatedDays(Some("Mastery"), Intermediate, Some(long)) == 151
    ensures EstimatedDays(Some("Custom"), Beginner, Some(short)) == 0
    ensures EstimatedDays(None, Beginner, Some(short)) == 0
  {
  }

  /**
   * A title of 20 characters whose last one lies above U+FFFF is 21 UTF-16
   * code units long, so it counts as a long title.
   */
  lemma EstimatedDaysAstralTitle(career: CareerOption)
    requires |career.title| == 20 && career.title[19] as int > 0xFFFF
    ensures EstimatedDays(Some("Basics"), Beginner, Some(career)) == 42
  {
    Utf16LengthAstral(career.title, 19);
  }

  /** `calculatedTargetDate` as a day number: none for a zero estimate, else today plus the estimate. */
  function CalculatedTargetDay(estimatedDays: nat, today: int): (r: Option<int>)
    ensures r.None? <==> estimatedDays == 0
    ensures r.Some? ==> r.value > today && r.value - today == estimatedDays
  {
    if estimatedDays == 0 then None else Some(today + estimatedDays)
  }

  /**
   * With a goal that has a base and a selected career, the computed target
   * lies 9 to 252 days after today; without a goal, without a career, or
   * for a goal with no base such as "Custom", there is no computed date.
   */
  lemma CalculatedTargetDaySpec(goal: Option<string>, level: Level, career: Option<CareerOption>, today: int)
    ensures var d := CalculatedTargetDay(EstimatedDays(goal, level, career), today);
      && (goal.Some? && career.Some? && GoalBase(goal.value) > 0 ==> d.Some? && today + 9 <= d.value <= today + 252)
      && (goal.None? || career.None? || GoalBase(goal.value) == 0 ==> d.None?)
      && (goal == Some("Custom") ==> d.None?)
  {
    EstimatedDaysSpec(goal, level, career);
  }

  // ---------------------------------------------------------------- steps

  datatype Step = Intro | Psychometric | Comment | Analysis | Selection | SkillQuiz
    | LevelVerification | StatusRole | GoalSelection | GoalConfirmation

  /** The wizard's fixed order of steps. */
  const Sequence: seq<Step> := [Intro, Psychometric, Comment, Analysis, Selection, SkillQuiz,
    LevelVerification, StatusRole, GoalSelection, GoalConfirmation]

  /** `sequence.indexOf(step)`. */
  function StepIndex(step: Step): (i: nat)
    ensures i < |Sequence| && Sequence[i] == step
  {
    match step
    case Intro => 0
    case Psychometric => 1
    case Comment => 2
    case Analysis => 3
    case Selection => 4
    case SkillQuiz => 5
    case LevelVerification => 6
    case StatusRole => 7
    case GoalSelection => 8
    case GoalConfirmation => 9
  }

  /** `handleBack`: the preceding step, and no move at the first one. */
  function Back(step: Step): Step {
    var i := StepIndex(step);
    if i > 0 then Sequence[i - 1] else step
  }

  /** The sequence lists every step once. */
  lemma SequenceDistinct()
    ensures forall i, j :: 0 <= i < j < |Sequence| ==> Sequence[i] != Sequence[j]
  {
  }

  /**
   * Back moves exactly one position earlier in the sequence and stays put at
   * the intro.
   */
  lemma BackSpec(step: Step)
    ensures Back(Intro) == Intro
    ensures step != Intro ==> StepIndex(Back(step)) == StepIndex(step) - 1
  {
  }

  /** Back from the step at position i > 0 is the step at position i - 1. */
  lemma BackOfPosition(i: nat)
    requires 0 < i < |Sequence|
    ensures Back(Sequence[i]) == Sequence[i - 1]
  {
    SequenceDistinct();
    assert StepIndex(Sequence[i]) == i;
  }

  // ---------------------------------------------------------------- calibration

  /** The level detected by a wrong answer to calibration question `index`. */
  function LevelForWrongAnswer(index: nat): Level {
    if index <= 1 then Beginner else if index <= 3 then Intermediate else Advanced
  }

  /** Failing later never yields a lower level. */
  lemma LevelForWrongAnswerMonotone(i: nat, j: nat)
    requires i <= j
    ensures LevelTenths(LevelForWrongAnswer(j)) <= LevelTenths(LevelForWrongAnswer(i))
    ensures LevelForWrongAnswer(0) == Beginner && LevelForWrongAnswer(2) == Intermediate && LevelForWrongAnswer(4) == Advanced
  {
  }

  /** The difficulty rank: beginner 1, intermediate 2, advanced 3 (ignoring ASCII case), anything else 0. */
  function Rank(q: SkillQuestion): nat {
    var d := Lower(q.difficulty);
    if d == "beginner" then 1 else if d == "intermediate" then 2 else if d == "advanced" then 3 else 0
  }

  /** Ordered by `rank`. */
  predicate SortedBy<T>(s: seq<T>, rank: T -> nat) {
    forall i, j :: 0 <= i < j < |s| ==> rank(s[i]) <= rank(s[j])
  }

  /** The elements of rank `r`, in order. */
  function OfRank<T>(s: seq<T>, rank: T -> nat, r: nat): seq<T> {
    if |s| == 0 then [] else (if rank(s[0]) == r then [s[0]] else []) + OfRank(s[1..], rank, r)
  }

  /** Insert before the first element of the same or a higher rank. */
  function InsertBy<T>(x: T, s: seq<T>, rank: T -> nat): seq<T> {
    if |s| == 0 then [x]
    else if rank(s[0]) >= rank(x) then [x] + s
    else [s[0]] + InsertBy(x, s[1..], rank)
  }

  /** Stable insertion sort by `rank`. */
  function SortBy<T>(s: seq<T>, rank: T -> nat): seq<T> {
    if |s| == 0 then [] else InsertBy(s[0], SortBy(s[1..], rank), rank)
  }

  /** The stable sort by rank that `Array.prototype.sort` performs with the difficulty comparator. */
  function SortByDifficulty(qs: seq<SkillQuestion>): seq<SkillQuestion> {
    SortBy(qs, Rank)
  }

  lemma {:induction false} InsertPermutes<T>(x: T, s: seq<T>, rank: T -> nat)
    ensures multiset(InsertBy(x, s, rank)) == multiset(s) + multiset{x}
    decreases |s|
  {
    if |s| > 0 && rank(s[0]) < rank(x) {
      InsertPermutes(x, s[1..], rank);
      assert s == [s[0]] + s[1..];
    }
  }

  lemma {:induction false} InsertSorted<T>(x: T, s: seq<T>, rank: T -> nat)
    requires SortedBy(s, rank)
    ensures SortedBy(InsertBy(x, s, rank), rank)
    decreases |s|
  {
    if |s| > 0 && rank(s[0]) < rank(x) {
      InsertSorted(x, s[1..], rank);
      InsertBounded(x, s[1..], rank, rank(s[0]));
    }
  }

  /** A lower bound on the ranks of `x` and of `s` bounds the ranks after the insertion. */
  lemma {:induction false} InsertBounded<T>(x: T, s: seq<T>, rank: T -> nat, low: nat)
    requires low <= rank(x) && forall j :: 0 <= j < |s| ==> low <= rank(s[j])
    ensures forall j :: 0 <= j < |InsertBy(x, s, rank)| ==> low <= rank(InsertBy(x, s, rank)[j])
    decreases |s|
  {
    if |s| > 0 && rank(s[0]) < rank(x) {
      InsertBounded(x, s[1..], rank, low);
    }
  }

  lemma OfRankCons<T>(a: T, t: seq<T>, rank: T -> nat, r: nat)
    ensures OfRank([a] + t, rank, r) == (if rank(a) == r then [a] else []) + OfRank(t, rank, r)
  {
    assert ([a] + t)[1..] == t;
  }

  /** Inserting into a sorted list puts the new element first among its rank. */
  lemma {:induction false} InsertOfRank<T>(x: T, s: seq<T>, rank: T -> nat, r: nat)
    requires SortedBy(s, rank)
    ensures OfRank(InsertBy(x, s, rank), rank, r) == (if rank(x) == r then [x] else []) + OfRank(s, rank, r)
    decreases |s|
  {
    if |s| == 0 {
      OfRankCons(x, [], rank, r);
    } else if rank(s[0]) >= rank(x) {
      OfRankCons(x, s, rank, r);
    } else {
      var t := InsertBy(x, s[1..], rank);
      assert SortedBy(s[1..], rank);
      InsertOfRank(x, s[1..], rank, r);
      assert InsertBy(x, s, rank) == [s[0]] + t;
      OfRankCons(s[0], t, rank, r);
      OfRankCons(s[0], s[1..], rank, r);
      assert [s[0]] + s[1..] == s;
      if rank(s[0]) == r {
        assert OfRank(t, rank, r) == OfRank(s[1..], rank, r);
      } else {
        assert OfRank(s, rank, r) == OfRank(s[1..], rank, r);
      }
    }
  }

  /** The sort is a permutation, ordered by rank, and stable: the elements of each rank keep their order. */
  lemma {:induction false} SortBySpec<T>(s: seq<T>, rank: T -> nat)
    ensures SortedBy(SortBy(s, rank), rank)
    ensures multiset(SortBy(s, rank)) == multiset(s)
    ensures forall r: nat :: OfRank(SortBy(s, rank), rank, r) == OfRank(s, rank, r)
    decreases |s|
  {
    if |s| > 0 {
      var rest := SortBy(s[1..], rank);
      SortBySpec(s[1..], rank);
      InsertSorted(s[0], rest, rank);
      InsertPermutes(s[0], rest, rank);
      assert s == [s[0]] + s[1..];
      forall r: nat ensures OfRank(SortBy(s, rank), rank, r) == OfRank(s, rank, r) {
        InsertOfRank(s[0], rest, rank, r);
        OfRankCons(s[0], s[1..], rank, r);
      }
    }
  }

  /**
   * The sorted questions are a permutation of the generated ones, ordered by
   * difficulty rank with unrecognised difficulties (rank 0) first, and
   * stable: the questions of each rank keep their generated order.
   */
  lemma SortByDifficultySpec(qs: seq<SkillQuestion>)
    ensures SortedBy(SortByDifficulty(qs), Rank)
    ensures multiset(SortByDifficulty(qs)) == multiset(qs)
    ensures forall r: nat :: OfRank(SortByDifficulty(qs), Rank, r) == OfRank(qs, Rank, r)
    ensures var out := SortByDifficulty(qs);
      forall i, j :: 0 <= i < |out| && 0 <= j < |out| && Rank(out[i]) == 0 && Rank(out[j]) > 0 ==> i < j
  {
    SortBySpec(qs, Rank);
  }

  // ---------------------------------------------------------------- the wizard

  /** How many psychometric questions there are. */
  const PsychCount: nat := 10

  /** The psychometric questions, asked in this order. */
  const PsychQuestions: seq<string> := [
    "When solving a problem, do you prefer:",
    "Your ideal work environment is:",
    "Which project role fits you best?",
    "How do you handle deadlines?",
    "You encounter a new tech tool. You:",
    "What motivates you most?",
    "Do you prefer working with:",
    "In a team conflict, you:",
    "Your learning style is:",
    "Risk tolerance level:"]

  datatype PsychAnswer = PsychAnswer(question: string, answer: string)

  datatype Mode = AnalysisMode | SearchMode

  datatype QuizStatus = QuizLoading | QuizActive | QuizFailed | QuizCompleted

  /** What `onComplete` receives. */
  datatype Completion = Completion(career: CareerOption, eduYear: string, targetDate: string, level: Level, focusAreas: string)

  /** `careers.filter(c => c.id !== id)`. */
  function WithoutOption(careers: seq<CareerOption>, id: string): seq<CareerOption>
    decreases |careers|
  {
    if |careers| == 0 then []
    else (if careers[0].id != id then [careers[0]] else []) + WithoutOption(careers[1..], id)
  }

  /** The filter keeps exactly the suggestions with another id. */
  lemma {:induction false} WithoutOptionSpec(careers: seq<CareerOption>, id: string)
    ensures forall c :: c in WithoutOption(careers, id) <==> c in careers && c.id != id
    decreases |careers|
  {
    if |careers| > 0 {
      WithoutOptionSpec(careers[1..], id);
      assert careers == [careers[0]] + careers[1..];
    }
  }

  /** The filter distributes over concatenation, and keeps a single suggestion exactly when its id differs. */
  lemma {:induction false} WithoutOptionAppend(a: seq<CareerOption>, b: seq<CareerOption>, id: string)
    ensures WithoutOption(a + b, id) == WithoutOption(a, id) + WithoutOption(b, id)
    ensures |a| == 1 ==> WithoutOption(a, id) == (if a[0].id != id then a else [])
    decreases |a|
  {
    if |a| == 0 {
      assert a + b == b;
    } else {
      assert (a + b)[0] == a[0] && (a + b)[1..] == a[1..] + b;
      calc {
        WithoutOption(a + b, id);
        (if a[0].id != id then [a[0]] else []) + WithoutOption(a[1..] + b, id);
        { WithoutOptionAppend(a[1..], b, id); }
        (if a[0].id != id then [a[0]] else []) + (WithoutOption(a[1..], id) + WithoutOption(b, id));
        WithoutOption(a, id) + WithoutOption(b, id);
      }
    }
  }

  /** The date handed on: the user's own date for a custom goal, else the computed one. */
  function FinalDate(selectedGoal: Option<string>, targetDate: string, calculatedTargetDate: string): string {
    if selectedGoal == Some("Custom") then targetDate else calculatedTargetDate
  }

  class Wizard {
    var step: Step
    var psychIndex: nat
    var psychAnswers: seq<PsychAnswer>
    var isOtherSelected: bool
    var customAnswer: string
    var careers: seq<CareerOption>
    var rejectedCareers: seq<string>
    var selectedCareer: Option<CareerOption>
    var skillQuestions: seq<SkillQuestion>
    var skillIndex: nat
    var quizStatus: QuizStatus
    var detectedLevel: Level
    var userSelectedLevel: Level
    var statusRole: string
    var focusAreas: string
    var selectedGoal: Option<string>
    var targetDate: string

    /** The indices point into their question lists (an empty calibration list has index 0). */
    predicate Valid()
      reads this
    {
      psychIndex < PsychCount && (skillIndex == 0 || skillIndex < |skillQuestions|)
    }


    /** A new user in analysis mode starts at the intro, search mode at the career selection, otherwise at the questionnaire. */
    constructor(isNewUser: bool, mode: Mode)
      ensures Valid()
      ensures step == (if isNewUser && mode == AnalysisMode then Intro else if mode == SearchMode then Selection else Psychometric)
      ensures psychIndex == 0 && psychAnswers == [] && careers == [] && rejectedCareers == [] && selectedCareer.None?
      ensures skillQuestions == [] && skillIndex == 0 && quizStatus == QuizLoading
      ensures detectedLevel == Beginner && userSelectedLevel == Beginner && selectedGoal.None? && targetDate == ""
      ensures !isOtherSelected && customAnswer == "" && statusRole == "" && focusAreas == ""
    {
      step := if isNewUser && mode == AnalysisMode then Intro else if mode == SearchMode then Selection else Psychometric;
      psychIndex := 0;
      psychAnswers := [];
      isOtherSelected := false;
      customAnswer := "";
      careers := [];
      rejectedCareers := [];
      selectedCareer := None;
      skillQuestions := [];
      skillIndex := 0;
      quizStatus := QuizLoading;
      detectedLevel := Beginner;
      userSelectedLevel := Beginner;
      statusRole := "";
      focusAreas := "";
      selectedGoal := None;
      targetDate := "";
    }

    method GoBack()
      modifies this
      ensures step == Back(old(step))
      ensures unchanged(this`psychIndex, this`psychAnswers, this`isOtherSelected, this`customAnswer, this`careers,
        this`rejectedCareers, this`selectedCareer, this`skillQuestions, this`skillIndex, this`quizStatus,
        this`detectedLevel, this`userSelectedLevel, this`statusRole, this`focusAreas, this`selectedGoal, this`targetDate)
    {
      step := Back(step);
    }

    /**
     * `savePsychAnswer`: record the answer to the current question; move to
     * the next question, or to the comment step after the last one.
     */
    method SavePsychAnswer(answer: string)
      requires Valid()
      modifies this
      ensures Valid()
      ensures psychAnswers == old(psychAnswers) + [PsychAnswer(PsychQuestions[old(psychIndex)], answer)]
      ensures old(psychIndex) < |PsychQuestions| - 1 ==> psychIndex == old(psychIndex) + 1 && step == old(step)
      ensures old(psychIndex) == |PsychQuestions| - 1 ==> psychIndex == old(psychIndex) && step == Comment
      ensures !isOtherSelected && customAnswer == ""
      ensures unchanged(this`careers, this`rejectedCareers, this`selectedCareer, this`skillQuestions, this`skillIndex,
        this`quizStatus, this`detectedLevel, this`userSelectedLevel, this`statusRole, this`focusAreas,
        this`selectedGoal, this`targetDate)
    {
      psychAnswers := psychAnswers + [PsychAnswer(PsychQuestions[psychIndex], answer)];
      isOtherSelected := false;
      customAnswer := "";
      if psychIndex < |PsychQuestions| - 1 {
        psychIndex := psychIndex + 1;
      } else {
        step := Comment;
      }
    }

    /** `handlePsychOptionSelect`: "Other" opens the free-text answer, any other option is saved. */
    method SelectPsychOption(option: string)
      requires Valid()
      modifies this
      ensures Valid()
      ensures option == "Other" ==>
        isOtherSelected && customAnswer == "" && unchanged(this`step, this`psychIndex, this`psychAnswers)
      ensures option != "Other" ==>
        && psychAnswers == old(psychAnswers) + [PsychAnswer(PsychQuestions[old(psychIndex)], option)]
        && (old(psychIndex) < |PsychQuestions| - 1 ==> psychIndex == old(psychIndex) + 1 && step == old(step))
        && (old(psychIndex) == |PsychQuestions| - 1 ==> psychIndex == old(psychIndex) && step == Comment)
        && !isOtherSelected && customAnswer == ""
      ensures unchanged(this`careers, this`rejectedCareers, this`selectedCareer, this`skillQuestions, this`skillIndex,
        this`quizStatus, this`detectedLevel, this`userSelectedLevel, this`statusRole, this`focusAreas,
        this`selectedGoal, this`targetDate)
    {
      if option == "Other" {
        isOtherSelected := true;
        customAnswer := "";
        return;
      }
      SavePsychAnswer(option);
    }

    /**
     * `handleCareerSelect`: `generated` is the list the quiz generator
     * returns. The generator answers a failed call with an empty list, which
     * gives an active calibration step without questions. `None` stands for
     * an exception inside the `try` (a reply that is not a list, a
     * difficulty that is not a string): the catch skips to level
     * verification as a beginner. Questions are sorted by difficulty.
     */
    method SelectCareer(career: CareerOption, generated: Option<seq<SkillQuestion>>)
      requires Valid()
      modifies this
      ensures Valid()
      ensures selectedCareer == Some(career)
      ensures generated.Some? ==>
        && step == SkillQuiz && skillQuestions == SortByDifficulty(generated.value) && quizStatus == QuizActive && skillIndex == 0
        && unchanged(this`detectedLevel, this`userSelectedLevel)
      ensures generated == Some([]) ==> step == SkillQuiz && skillQuestions == [] && quizStatus == QuizActive
      ensures generated.None? ==>
        && step == LevelVerification && detectedLevel == Beginner && userSelectedLevel == Beginner
        && quizStatus == QuizLoading && unchanged(this`skillQuestions, this`skillIndex)
      ensures unchanged(this`psychIndex, this`psychAnswers, this`isOtherSelected, this`customAnswer, this`careers,
        this`rejectedCareers, this`statusRole, this`focusAreas, this`selectedGoal, this`targetDate)
    {
      selectedCareer := Some(career);
      if generated.Some? {
        StartSkillQuiz(SortByDifficulty(generated.value));
      } else {
        SkipSkillQuiz();
      }
    }

    /** The calibration quiz arrived: its questions are shown from the first. */
    method StartSkillQuiz(questions: seq<SkillQuestion>)
      modifies this
      ensures step == SkillQuiz && skillQuestions == questions && quizStatus == QuizActive && skillIndex == 0
      ensures unchanged(this`psychIndex, this`psychAnswers, this`isOtherSelected, this`customAnswer, this`careers,
        this`rejectedCareers, this`selectedCareer, this`detectedLevel, this`userSelectedLevel, this`statusRole,
        this`focusAreas, this`selectedGoal, this`targetDate)
    {
      step := SkillQuiz;
      skillQuestions := questions;
      quizStatus := QuizActive;
      skillIndex := 0;
    }

    /** The `catch` of `handleCareerSelect`: the level is set to beginner for verification. */
    method SkipSkillQuiz()
      modifies this
      ensures step == LevelVerification && detectedLevel == Beginner && userSelectedLevel == Beginner
      ensures quizStatus == QuizLoading
      ensures unchanged(this`psychIndex, this`psychAnswers, this`isOtherSelected, this`customAnswer, this`careers,
        this`rejectedCareers, this`selectedCareer, this`skillQuestions, this`skillIndex, this`statusRole,
        this`focusAreas, this`selectedGoal, this`targetDate)
    {
      quizStatus := QuizLoading;
      detectedLevel := Beginner;
      userSelectedLevel := Beginner;
      step := LevelVerification;
    }

    /**
     * The calibration `handleQuizAnswer`: a wrong answer ends the quiz with
     * the level of the question's position; a right answer moves on, and a
     * right answer to the last question means advanced. The delayed step
     * change is applied at once.
     */
    method AnswerSkillQuestion(optionIndex: int)
      requires Valid() && skillIndex < |skillQuestions|
      modifies this
      ensures Valid()
      ensures optionIndex != old(skillQuestions[skillIndex].correctIndex) ==>
        && quizStatus == QuizFailed && detectedLevel == LevelForWrongAnswer(old(skillIndex))
        && userSelectedLevel == detectedLevel && step == LevelVerification && skillIndex == old(skillIndex)
      ensures optionIndex == old(skillQuestions[skillIndex].correctIndex) && old(skillIndex) < |skillQuestions| - 1 ==>
        && skillIndex == old(skillIndex) + 1 && step == old(step) && quizStatus == old(quizStatus)
        && detectedLevel == old(detectedLevel) && userSelectedLevel == old(userSelectedLevel)
      ensures optionIndex == old(skillQuestions[skillIndex].correctIndex) && old(skillIndex) == |skillQuestions| - 1 ==>
        && quizStatus == QuizCompleted && detectedLevel == Advanced && userSelectedLevel == Advanced
        && step == LevelVerification && skillIndex == old(skillIndex)
      ensures unchanged(this`psychIndex, this`psychAnswers, this`isOtherSelected, this`customAnswer, this`careers,
        this`rejectedCareers, this`selectedCareer, this`skillQuestions, this`statusRole, this`focusAreas,
        this`selectedGoal, this`targetDate)
    {
      var current := skillQuestions[skillIndex];
      if optionIndex != current.correctIndex {
        quizStatus := QuizFailed;
        var level := LevelForWrongAnswer(skillIndex);
        detectedLevel := level;
        userSelectedLevel := level;
        step := LevelVerification;
      } else if skillIndex < |skillQuestions| - 1 {
        skillIndex := skillIndex + 1;
      } else {
        quizStatus := QuizCompleted;
        detectedLevel := Advanced;
        userSelectedLevel := Advanced;
        step := LevelVerification;
      }
    }

    /**
     * `handleDismissCareer`: drop the suggestions with the id and remember
     * the title as rejected. When two or fewer suggestions were showing,
     * `more` (what the generator adds, possibly nothing) is appended.
     */
    method DismissCareer(id: string, title: string, more: seq<CareerOption>)
      requires Valid()
      modifies this
      ensures Valid()
      ensures careers == WithoutOption(old(careers), id) + (if |old(careers)| <= 2 then more else [])
      ensures rejectedCareers == old(rejectedCareers) + [title]
      ensures unchanged(this`step, this`psychIndex, this`psychAnswers, this`isOtherSelected, this`customAnswer,
        this`selectedCareer, this`skillQuestions, this`skillIndex, this`quizStatus, this`detectedLevel,
        this`userSelectedLevel, this`statusRole, this`focusAreas, this`selectedGoal, this`targetDate)
    {
      var remaining := WithoutOption(careers, id);
      if |careers| <= 2 {
        remaining := remaining + more;
      }
      careers := remaining;
      rejectedCareers := rejectedCareers + [title];
    }

    /** `handleGoalSelect`. */
    method SelectGoal(goalId: string)
      requires Valid()
      modifies this
      ensures Valid()
      ensures selectedGoal == Some(goalId) && step == GoalConfirmation
      ensures unchanged(this`psychIndex, this`psychAnswers, this`isOtherSelected, this`customAnswer, this`careers,
        this`rejectedCareers, this`selectedCareer, this`skillQuestions, this`skillIndex, this`quizStatus,
        this`detectedLevel, this`userSelectedLevel, this`statusRole, this`focusAreas, this`targetDate)
    {
      selectedGoal := Some(goalId);
      step := GoalConfirmation;
    }

    /**
     * `handleFinalSubmit`: nothing without a selected career; otherwise the
     * career, role, level and focus areas, with the user's own date for a
     * custom goal and the computed date (from `estimatedDays`) otherwise.
     */
    method FinalSubmit(calculatedTargetDate: string) returns (completion: Option<Completion>)
      ensures completion.None? <==> selectedCareer.None?
      ensures completion.Some? ==>
        && completion.value.career == selectedCareer.value
        && completion.value.eduYear == statusRole
        && completion.value.level == userSelectedLevel
        && completion.value.focusAreas == focusAreas
        && (selectedGoal == Some("Custom") ==> completion.value.targetDate == targetDate)
        && (selectedGoal != Some("Custom") ==> completion.value.targetDate == calculatedTargetDate)
    {
      if selectedCareer.Some? {
        var finalDate := FinalDate(selectedGoal, targetDate, calculatedTargetDate);
        completion := Some(Completion(selectedCareer.value, statusRole, finalDate, userSelectedLevel, focusAreas));
      } else {
        completion := None;
      }
    }
  }
}
