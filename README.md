# PathFindr career-guidance logic in Dafny

PathFindr is a browser app that suggests careers and turns a chosen career
into a roadmap of phases and tasks. It tracks progress, pacing and a daily
challenge, and keeps everything in the browser's local storage. This project
models the deterministic logic of that app and proves what it guarantees.

- `types.dfy` (`Types`) — the record shapes the logic passes around.
- `strings.dfy` (`Strings`) — the JavaScript string primitives the code relies on: `trim`, ASCII `toLowerCase`, `includes`, `startsWith`, `split` at one character, `parseInt` without a radix, and the `${n}` rendering of a number, and `length` in UTF-16 code units.
- `roadmap.dfy` (`Roadmap`) — the roadmap screen:
  - the flattened task list and the day number of each task;
  - the sequential lock and the current task;
  - the completion percentage and the phase opened on load;
  - what a click on a task does, and the title search.
- `dashboard.dfy` (`Dashboard`) — the dashboard:
  - whole and single-phase reset, and the completion toggle;
  - the progress counters and the per-career statistics;
  - the calendar days left and the pacing verdict;
  - the daily-challenge gate and scoring, as a class;
  - deleting a career, editing a target date, and the practice and interview filters.
- `store.dfy` (`Store`) — `localStorage` as a class over a string-keyed map of typed records, with:
  - users and the current user;
  - the cascading user deletion;
  - career and roadmap records, with the legacy-roadmap migration;
  - the six-hour news cache and the dated daily-quiz cache;
  - the practice-bank merge.
- `gemini.dfy` (`Gemini`) — the service layer around the model calls:
  - `cleanJsonString` and `parseDurationInDays`;
  - `calculateRemainingDays`;
  - `generateRoadmap`'s length in days and its post-processing of the generated phases;
  - the defaults applied to generated interview questions.
- `onboarding.dfy` (`Onboarding`) — the onboarding wizard, as a class:
  - the ten-step sequence and back navigation;
  - psychometric answers and skill-calibration levels;
  - the stable difficulty sort, dismissing suggestions;
  - the duration estimate and the final submission.

Code that updates state step by step is imperative Dafny. This covers the store's methods, the wizard and daily-challenge classes, and the loops (`itemStartDays`, the first-pending-phase effect, the progress and statistics counters, `calculateRemainingDays`, the post-processing counter, the `deleteUser` key scan, the interview merge). Each loop is proved equal to a pure function, and the properties are lemmas about those functions. The store's methods state the new map in terms of the old one, and the daily-challenge gate's new state is given by pure functions of the stored state. The wizard's methods and the daily-challenge answer state each changed field's new value directly and name every field they leave unchanged.

Calendar dates are day numbers: the calendar itself is a parameter `civilDay(year, monthIndex, day)`, and the current day or time is a parameter. Stored values are typed records rather than JSON text. `None` stands for JavaScript's `NaN` where a number can fail to parse. Strings are sequences of Unicode characters. The one place the code measures a string, the title-length test of the onboarding estimate (components/Onboarding.tsx:80), counts UTF-16 code units as JavaScript does.

Two details of the code that are easy to misread, modelled as written:

- The pacing figure for remaining work sums the parsed durations of the unfinished items (services/gemini.ts:212-225). It does not count the unfinished items.
- `savePracticeData` replaces the stored topics and questions whenever the update carries them, even as empty lists (services/store.ts:106). Empty lists in the update do not keep the stored ones.

## Model

| member | source | states |
|---|---|---|
| Roadmap.Flatten | components/Roadmap.tsx:37-38 | the flattened list is as long as all phases' items together |
| Roadmap.FlattenAppend | components/Roadmap.tsx:38 | flattening distributes over concatenation of phase lists |
| Roadmap.FlattenAt | components/Roadmap.tsx:38 | item k of phase p sits at flattened position offset(p) + k |
| Roadmap.FlattenLocate | components/Roadmap.tsx:38 | every flattened position belongs to one phase and one index in it |
| Roadmap.OffsetMonotone | components/Roadmap.tsx:38 | a later phase starts after every item of an earlier one |
| Roadmap.ItemStartDays | components/Roadmap.tsx:43-49 | the forEach loop builds exactly the id-to-day map, later duplicates overwriting |
| Roadmap.StartDaysKeys | components/Roadmap.tsx:43-49 | exactly the ids that occur get a day number |
| Roadmap.StartDaysLastOccurrence | components/Roadmap.tsx:45-47 | an id's day is 1 + the position of its last occurrence, for any ids |
| Roadmap.StartDaysBijection | components/Roadmap.tsx:43-49 | with distinct ids, day = 1 + flattened index, strictly increasing, values exactly 1..N |
| Roadmap.FindIndex | components/Roadmap.tsx:53 | findIndex: the first position holding the id, or -1 when none does |
| Roadmap.LockRule | components/Roadmap.tsx:51-57 | completed, first and unknown items are never locked; otherwise (distinct ids) locked iff it and its predecessor are pending |
| Roadmap.FirstPending | components/Roadmap.tsx:40 | the first pending position: everything before it completed; -1 iff nothing pending |
| Roadmap.CurrentTask | components/Roadmap.tsx:40 | absent iff no item is pending, else the first pending item |
| Roadmap.CurrentTaskUnlocked | components/Roadmap.tsx:40-57 | the current task is never locked, whatever the ids |
| Roadmap.CompletedCount | components/Roadmap.tsx:75 | the completed count is at most the item count |
| Roadmap.CompletedCountAppend | components/Roadmap.tsx:75 | completed counts add up over concatenation |
| Roadmap.RoundPercentSpec | components/Roadmap.tsx:75 | Math.round(100c/t) is within one half of 100c/t, ties up, in 0..100, exact at 0 and 100 |
| Roadmap.CompletionPercentageBounds | components/Roadmap.tsx:75 | the percentage is in 0..100, 0 for an empty or untouched roadmap, 100 when all are done |
| Roadmap.RoundPercentExamples | components/Roadmap.tsx:75 | 1/3 gives 33, 2/3 gives 67, 1/2 gives 50, 1/8 gives 13 |
| Roadmap.FirstPendingPhase | components/Roadmap.tsx:59-69 | the loop gives the first phase with an unfinished item, or 0 when there is none |
| Roadmap.ClickRules | components/Roadmap.tsx:77-81 | a completed item is toggled, a pending one is ignored or confirmed, the current task asks for confirmation; with distinct ids a pending item k is ignored iff item k-1 is pending, else confirmed |
| Roadmap.FilterRules | components/Roadmap.tsx:91-94 | the empty query keeps all, ASCII case is ignored, a title finds itself, a match is no longer than the title |
| Dashboard.EditItems | components/Dashboard.tsx:193 | the item map keeps the length |
| Dashboard.EditPhases | components/Dashboard.tsx:191-194 | the phase map keeps the phase count |
| Dashboard.FlattenEdit | components/Dashboard.tsx:191-194 | editing every phase then flattening equals flattening then editing every item |
| Dashboard.ResetCounts | components/Dashboard.tsx:193 | after a reset nothing is completed and all work is pending |
| Dashboard.ResetRoadmapShape | components/Dashboard.tsx:189-195 | a reset keeps phase count, names, item counts and recommendation lists |
| Dashboard.ResetRoadmapItems | components/Dashboard.tsx:189-195 | every item stays in place with its id and content, pending, completedAt cleared; progress 0 |
| Dashboard.ResetRoadmapIdempotent | components/Dashboard.tsx:189-195 | resetting twice equals resetting once |
| Dashboard.ResetPhaseSpec | components/Dashboard.tsx:201-208 | only the chosen phase changes: same name, count and ids, all pending; idempotent |
| Dashboard.HandleProgressInvolution | components/Dashboard.tsx:380-386 | toggling the same id twice restores the roadmap |
| Dashboard.HandleProgressSpec | components/Dashboard.tsx:380-386 | exactly the items with the id flip status and nothing else changes: same phases, names and item counts, same rest of the roadmap |
| Dashboard.HandleProgressIgnoresLock | components/Dashboard.tsx:380-386 | a locked item is completed by a toggle and completedAt is not stamped |
| Dashboard.ToggleAbsent | components/Dashboard.tsx:384 | an id no item carries changes nothing |
| Dashboard.ToggleCount | components/Dashboard.tsx:384 | with a unique id, the completed count moves by exactly one in the right direction |
| Dashboard.CountProgress | components/Dashboard.tsx:279-284 | the nested counting loops give the completion percentage of the flattened roadmap |
| Dashboard.CareerStats | components/Dashboard.tsx:286-298 | the per-career loop builds exactly the statistics map of the active careers |
| Dashboard.StatsOfSpec | components/Dashboard.tsx:288-295 | one entry per distinct career id with that career's stored progress (0..100); no roadmap gives 0 and 0 |
| Dashboard.StatOfSpec | components/Dashboard.tsx:290-294 | one career's progress is in 0..100, and 0 and 0 without a stored roadmap |
| Dashboard.FindEnrollment | components/Dashboard.tsx:178 | find: none iff no entry has the id, else the first entry with the id |
| Dashboard.CalendarDaysRemaining | components/Dashboard.tsx:405-411 | 0 without a target date; never negative |
| Dashboard.CalendarVersusTotalDays | components/Dashboard.tsx:405-411 | for a date diff days ahead (diff >= 0) both the calendar count and the generator's length are diff + 1; for a past date the calendar gives 0 and the generator 1 |
| Dashboard.PacingSpec | components/Dashboard.tsx:413-418 | ahead by d iff calendar exceeds work by d > 0, behind by d iff it falls short by d, else on track |
| Dashboard.PacingExamples | components/Dashboard.tsx:413-418 | 15 vs 10 is ahead by 5, 10 vs 10 on track, 4 vs 10 behind by 6, NaN on track |
| Dashboard.WithoutCareerSpec | components/Dashboard.tsx:234 | the filter keeps exactly the entries with another id |
| Dashboard.WithoutCareerAppend | components/Dashboard.tsx:234 | the filter distributes over concatenation and keeps one entry iff its id differs, so it keeps order |
| Dashboard.WithoutCareerFirst | components/Dashboard.tsx:234-237 | the first entry kept is the first entry with another id |
| Dashboard.DeleteCareerSpec | components/Dashboard.tsx:232-239 | removes exactly that id; when it was current, the first entry with another id becomes current (none if all had the id); otherwise current is kept; rest unchanged |
| Dashboard.UpdateTargetDateSpec | components/Dashboard.tsx:222-226 | only the career's target date changes, and the career's details then show the new date |
| Dashboard.FilterPractice | components/Dashboard.tsx:420-425 | the filtered list is no longer than the bank |
| Dashboard.FilterPracticeSpec | components/Dashboard.tsx:420-425 | keeps exactly the bank's questions of the topic matching the search; no filters keep all; case ignored |
| Dashboard.FilterPracticeAppend | components/Dashboard.tsx:420-425 | the filter distributes over concatenation and keeps one question iff it matches, so it keeps order |
| Dashboard.FilterInterviews | components/Dashboard.tsx:429 | keeps exactly the questions whose lower-cased text contains the lower-cased search |
| Dashboard.FilterInterviewsAppend | components/Dashboard.tsx:429 | the search distributes over concatenation and keeps one question iff it matches, so it keeps order |
| Dashboard.AllInterviews | components/Dashboard.tsx:428 | the flattening holds exactly the questions of every company |
| Dashboard.FilteredInterviews | components/Dashboard.tsx:427-431 | "All" searches every company, another filter only that company's list (none if unknown) |
| Dashboard.ToggleAnswerRevealSpec | components/Dashboard.tsx:214-220 | the toggle flips the id, leaves the others, and undoes itself |
| Dashboard.GateStateSpec | components/Dashboard.tsx:337-351 | the quiz is active iff not answered today and a cached or generated quiz exists; failure is like no quiz |
| Dashboard.StampQuizDate | components/Dashboard.tsx:360 | stamping keeps the number of entries |
| Dashboard.AnsweredUserSpec | components/Dashboard.tsx:357-368 | right: streak + 1 and xp + 10; wrong: streak 0, xp kept; only the career's lastQuizDate becomes today |
| Dashboard.AnswerThenGate | components/Dashboard.tsx:340-360 | after answering, the same day's gate reports already done |
| Dashboard.StampThenFind | components/Dashboard.tsx:360 | after stamping, the career's entry carries today's date |
| Dashboard.DailyChallenge.constructor | components/Dashboard.tsx:337-344 | a challenge starts loading with no quiz and no answer |
| Dashboard.DailyChallenge.Gate | components/Dashboard.tsx:337-352 | the gate state, the quiz shown and the cache write as the effect performs them |
| Dashboard.DailyChallenge.Answer | components/Dashboard.tsx:354-371 | ignored without a quiz or after a choice; else records, scores and saves the profile |
| Store.KeysCollide | services/store.ts:47-58 | ("a", "b_c") and ("a_b", "c") share one career key and one roadmap key |
| Store.PairKeyInjective | services/store.ts:48 | with '_'-free ids the key determines the id pair |
| Store.WithUserSpec | services/store.ts:13-22 | after saveUser the table has the user under its id, others unchanged, no other key changes |
| Store.CurrentUserRoundTrip | services/store.ts:24-31 | the current user reads back as set; null or "" reads back as none |
| Store.LocalStore.DeleteUser | services/store.ts:33-45 | the key-scan loop performs exactly the deletion transition |
| Store.DeleteUnknownUser | services/store.ts:35 | an unknown user id changes nothing |
| Store.AfterDeleteUserKeys | services/store.ts:33-45 | the survivors are exactly the keys not containing the id, minus the current-user key |
| Store.AfterDeleteUserValues | services/store.ts:33-45 | every surviving key other than the table keeps its value |
| Store.AfterDeleteUserTable | services/store.ts:34-37 | unless the table key contains the id, the table loses exactly that user |
| Store.TableSurvives | services/store.ts:37-42 | the table key survives when it does not contain the id |
| Store.DeleteUserTakesOtherUsersRecords | services/store.ts:38-42 | deleting u removes the records of any user whose id contains u |
| Store.DeleteUserExample | services/store.ts:38-42 | deleting "ab" removes the roadmap of user "xaby" |
| Store.DeleteUserWipesTable | services/store.ts:37-42 | deleting a user whose id occurs in "pathfinder_users" empties the table |
| Store.DeleteUsersExample | services/store.ts:37-42 | deleting user "users" empties the table |
| Store.AfterDeleteUserScopedSpec | services/store.ts:33-45 | the scoped cascade removes the user's records and keeps the table minus the user and every other user's records |
| Store.Migrate | services/store.ts:64-71 | the migrated roadmap always has an internships list |
| Store.MigrateSpec | services/store.ts:60-72 | legacy lists gain two empty lists, a complete record is unchanged, phases are kept, idempotent |
| Store.CareerRoadmapRoundTrip | services/store.ts:47-72 | save-then-get returns what was saved (missing internships read back as []) and the two kinds are independent |
| Store.CareerIsolated | services/store.ts:48 | with '_'-free ids, saving one pair's career leaves every other pair's alone |
| Store.NewsFreshness | services/store.ts:74-85 | news saved at t is returned at now iff now - t is at most six hours |
| Store.NewsFreshnessExamples | services/store.ts:83 | exactly six hours is fresh, one millisecond more is stale |
| Store.QuizByDate | services/store.ts:87-96 | a quiz saved on d is read on d; a read on another date sees what it saw before |
| Store.MergeInterviewsInto | services/store.ts:109-114 | the copy loop gives the per-company merge |
| Store.MergePracticeFields | services/store.ts:104-107 | given topics and questions replace the stored ones even when empty; absent ones are kept; empty base |
| Store.MergeInterviewsSpec | services/store.ts:109-114 | companies are stored union incoming; incoming take new lists, others keep theirs |
| Store.InterviewsAccumulate | services/store.ts:104-117 | saving Google's list and then Amazon's keeps both |
| Store.LocalStore.constructor | services/store.ts:3-11 | the store starts with the given contents |
| Store.LocalStore.SaveUser | services/store.ts:13-17 | performs the saveUser transition |
| Store.LocalStore.SetCurrentUser | services/store.ts:24-27 | performs the setCurrentUser transition |
| Store.LocalStore.SaveCareerData | services/store.ts:47-49 | performs the career write |
| Store.LocalStore.SaveRoadmap | services/store.ts:56-58 | performs the roadmap write |
| Store.LocalStore.SaveNewsCache | services/store.ts:74-77 | performs the news write with its timestamp |
| Store.LocalStore.SaveDailyQuizCache | services/store.ts:87-90 | performs the dated quiz write |
| Store.LocalStore.SavePracticeData | services/store.ts:104-117 | performs the practice merge and write |
| Gemini.StripFences | services/gemini.ts:5 | stripping never lengthens the text |
| Gemini.StripFencesNoFence | services/gemini.ts:5 | no "```" survives, even one formed by joining pieces |
| Gemini.StripFencesNoBacktick | services/gemini.ts:5 | text without a backtick is unchanged |
| Gemini.StripFencesPlainPrefix | services/gemini.ts:5 | text before the first backtick is copied as it is |
| Gemini.CleanJsonStringSpec | services/gemini.ts:4-6 | no fence, no leading or trailing white space; plain trim when there is no backtick |
| Gemini.CleanJsonFenced | services/gemini.ts:4-6 | a body without backticks, fenced with "```json\n" or "```json" and "```", or unfenced, cleans to the trimmed body |
| Gemini.FencedBody | services/gemini.ts:5 | stripping a fenced body leaves the body |
| Gemini.CleanJsonStringExample | services/gemini.ts:4-6 | "```json\n[1]\n```" cleans to "[1]" |
| Gemini.ParseDurationInDays | services/gemini.ts:204-210 | the day count is never 0 |
| Gemini.ParseDurationIgnoresCase | services/gemini.ts:205 | a text and its lower-cased form read alike |
| Gemini.ReadDuration | services/gemini.ts:204-210 | for lower-case text whose parseInt is n (a 0 counted as 1): 7n if it contains "week", else 30n if it contains "month", else n |
| Gemini.ParseDurationWithUnit | services/gemini.ts:204-210 | a rendered count followed by a unit text reads as count times 7, 30 or 1 |
| Gemini.ParseDurationUnits | services/gemini.ts:204-210 | "n day(s)" is n, "n week(s)" 7n, "n months" 30n |
| Gemini.ParseDurationNoNumber | services/gemini.ts:206 | a text with no leading number counts one unit: 1, 7 or 30 |
| Gemini.PendingWorkAppend | services/gemini.ts:212-225 | the remaining work adds up over concatenation |
| Gemini.PendingWorkAllCompleted | services/gemini.ts:218 | no work remains when every item is completed (or there are none) |
| Gemini.PendingWorkComplete | services/gemini.ts:218-219 | completing a pending item lowers the work by its parsed duration |
| Gemini.CalculateRemainingDays | services/gemini.ts:212-225 | the nested loops sum the parsed durations of the items not completed |
| Gemini.TotalDays | services/gemini.ts:110-118 | 30 without a date or without three parts; never below 1 |
| Gemini.DaysOfParts | services/gemini.ts:113-117 | 30 unless there are three parts; never below 1 |
| Gemini.TotalDaysOfParts | services/gemini.ts:110-118 | three numeric parts give the inclusive day count to that date |
| Gemini.TotalDaysOfIsoDate | services/gemini.ts:110-118 | an ISO date "y-m-d" gives the inclusive day count to that date |
| Gemini.DateNumbersOfDecimals | services/gemini.ts:114 | parseInt reads back the three numbers of a rendered date |
| Gemini.IsoDateSplit | services/gemini.ts:112 | splitting "y-m-d" at '-' gives the three rendered numbers |
| Gemini.DefaultDurationDays | services/gemini.ts:161 | the default duration reads as 7 days on a long roadmap and 1 otherwise |
| Gemini.TaskIdInjective | services/gemini.ts:159 | two task ids of one generation are equal only for equal phase index and counter |
| Gemini.PhaseItems | services/gemini.ts:157-163 | a phase gets as many tasks as it has generated items |
| Gemini.PostProcessed | services/gemini.ts:155-164 | the output has as many phases as the reply |
| Gemini.PostProcess | services/gemini.ts:152-164 | the nested maps with the shared counter produce exactly the post-processed roadmap |
| Gemini.PostProcessedShape | services/gemini.ts:155-164 | phases, names, item counts and titles follow the reply in order |
| Gemini.PostProcessedTasks | services/gemini.ts:152-164 | every task is pending with a duration and no completion time; all ids are distinct |
| Gemini.PostProcessedAt | services/gemini.ts:152-164 | the item at flattened position i carries counter i + 1 in its id |
| Gemini.PostProcessedDurations | services/gemini.ts:161-162 | a non-empty duration is kept, else the default; a non-array resource list becomes [] |
| Gemini.NormalizedDuration | services/gemini.ts:157-163 | one task's duration and resources normalise as above |
| Gemini.InterviewDefaults | services/gemini.ts:324-328 | the mapping keeps the number of questions |
| Gemini.InterviewDefaultsSpec | services/gemini.ts:324-328 | one question per result, in order, text kept; ids non-empty, a present id kept, default ids pairwise distinct; a present company kept, and no company empty when the filter is not |
| Onboarding.NoTie | components/Onboarding.tsx:77-81 | no reachable product ends in exactly half a day |
| Onboarding.EstimatedDaysSpec | components/Onboarding.tsx:75-82 | 0 iff goal or career missing or the goal has no base; else the nearest integer to base · level · difficulty, which lies in 9..252, so the floor of 7 never applies |
| Onboarding.EstimatedDaysExamples | components/Onboarding.tsx:75-82 | Basics/beginner/short 30, Basics/advanced/long 13, Mastery/intermediate/long 151, Custom 0 |
| Onboarding.EstimatedDaysAstralTitle | components/Onboarding.tsx:80 | a 20-character title ending above U+FFFF is 21 UTF-16 units long, so Basics/beginner gives 42, not 30 |
| Onboarding.CalculatedTargetDaySpec | components/Onboarding.tsx:84-89 | a goal with a base and a career gives a date 9..252 days after today; no goal, no career or Custom gives none |
| Onboarding.StepIndex | components/Onboarding.tsx:94-95 | indexOf finds the step's position in the sequence |
| Onboarding.SequenceDistinct | components/Onboarding.tsx:94 | the sequence lists every step once |
| Onboarding.BackSpec | components/Onboarding.tsx:93-97 | back stays at intro and otherwise moves exactly one position earlier |
| Onboarding.BackOfPosition | components/Onboarding.tsx:93-97 | back from position i > 0 is the step at i - 1 |
| Onboarding.LevelForWrongAnswerMonotone | components/Onboarding.tsx:205 | failing later never gives a lower level; 0, 2 and 4 give the three levels |
| Onboarding.InsertPermutes | components/Onboarding.tsx:187-190 | an insertion adds exactly the element |
| Onboarding.InsertSorted | components/Onboarding.tsx:187-190 | an insertion keeps the list ordered |
| Onboarding.InsertOfRank | components/Onboarding.tsx:187-190 | an insertion goes first among the elements of its rank |
| Onboarding.SortBySpec | components/Onboarding.tsx:187-190 | the sort is ordered, a permutation, and stable within each rank |
| Onboarding.SortByDifficultySpec | components/Onboarding.tsx:187-190 | questions ordered beginner < intermediate < advanced, unrecognised first, permutation, stable |
| Onboarding.WithoutOptionSpec | components/Onboarding.tsx:147 | the filter keeps exactly the suggestions with another id |
| Onboarding.WithoutOptionAppend | components/Onboarding.tsx:147 | the filter distributes over concatenation and keeps one suggestion iff its id differs, so it keeps order |
| Onboarding.Wizard.constructor | components/Onboarding.tsx:39-71 | the first step depends on new user and mode; every other field starts empty |
| Onboarding.Wizard.GoBack | components/Onboarding.tsx:93-97 | the step becomes the previous one; every other field is unchanged |
| Onboarding.Wizard.SavePsychAnswer | components/Onboarding.tsx:104-111 | appends one answer for the current question; advances, or goes to the comment step after the last; clears the free-text field; every other field is unchanged |
| Onboarding.Wizard.SelectPsychOption | components/Onboarding.tsx:99-102 | "Other" opens an empty free-text field and changes nothing else; any other option is saved as by SavePsychAnswer; the career, quiz, level and goal fields are unchanged |
| Onboarding.Wizard.SelectCareer | components/Onboarding.tsx:181-198 | selects the career; the returned questions sorted, active from index 0, so an empty list (a failed generation) gives an active step without questions; an exception gives beginner and level verification with the questions kept; every other field is unchanged |
| Onboarding.Wizard.StartSkillQuiz | components/Onboarding.tsx:183-192 | the quiz is shown from its first question, active; every other field is unchanged |
| Onboarding.Wizard.SkipSkillQuiz | components/Onboarding.tsx:184-196 | the catch branch: beginner level and level verification, the quiz left loading; every other field is unchanged |
| Onboarding.Wizard.AnswerSkillQuestion | components/Onboarding.tsx:201-216 | wrong answer gives the level of its index; right answer advances and changes nothing else, or gives advanced at the end; answers, careers and goal are unchanged |
| Onboarding.Wizard.DismissCareer | components/Onboarding.tsx:146-153 | removes the id, records the title, appends more suggestions when at most two were shown; every other field is unchanged |
| Onboarding.Wizard.SelectGoal | components/Onboarding.tsx:220-223 | records the goal and moves to goal confirmation; every other field is unchanged |
| Onboarding.Wizard.FinalSubmit | components/Onboarding.tsx:226-236 | nothing without a career; else the user's date for Custom, the computed one otherwise |
| Strings.TrimStart | services/gemini.ts:5 | drops exactly the leading white space |
| Strings.TrimEnd | services/gemini.ts:5 | drops exactly the trailing white space |
| Strings.TrimIsFramedSlice | services/gemini.ts:5 | the trimmed text is a slice framed only by white space, starting and ending with a non-space |
| Strings.Utf16Length | components/Onboarding.tsx:80 | `length` counts UTF-16 units: at least one and at most two per character |
| Strings.Utf16LengthBmp | components/Onboarding.tsx:80 | without characters above U+FFFF the length is the number of characters |
| Strings.Utf16LengthAstral | components/Onboarding.tsx:80 | one character above U+FFFF makes the length exceed the number of characters |
| Strings.LowerIdempotent | components/Roadmap.tsx:92 | lower-casing twice is lower-casing once |
| Strings.LowerAppend | components/Roadmap.tsx:92 | lower-casing distributes over concatenation |
| Strings.ContainsLength | components/Roadmap.tsx:92 | a contained text is no longer than its container |
| Strings.ContainsSelf | components/Roadmap.tsx:92 | every text contains itself |
| Strings.Decimal | services/gemini.ts:159 | the rendering of a number is a non-empty string of digits |
| Strings.DecimalValue | services/gemini.ts:159 | reading the rendering back gives the number |
| Strings.DecimalInjective | services/gemini.ts:159 | different numbers render differently |
| Strings.LeadingZero | services/gemini.ts:159 | a number of two or more digits does not render with a leading 0 |
| Strings.LeadingDigits | services/gemini.ts:206 | parseInt's digit run is the longest digit prefix |
| Strings.ParseIntNoDigit | services/gemini.ts:206 | text starting with no space, sign or digit reads as NaN |
| Strings.ParseIntDecimal | services/gemini.ts:206 | parseInt reads a rendered number back when it is followed by nothing or by a character that is neither a digit nor x or X |
| Strings.ParseIntOfDecimal | services/gemini.ts:114 | parseInt reads a rendered number back |
| Strings.Split | services/gemini.ts:112 | split always gives at least one piece |
| Strings.SplitCount | services/gemini.ts:112-113 | one more piece than separators |
| Strings.SplitPiecesFree | services/gemini.ts:112 | no piece holds the separator |
| Strings.SplitJoin | services/gemini.ts:112 | when a holds no separator, splitting a + separator + b gives a, then b's pieces |

## Left out

- The calls to the generative model, their prompts, `JSON.parse` of the replies, the API-key check and the timeouts. Their results are inputs to the pure transitions (`generated` in `DailyChallenge.Gate` and `Wizard.SelectCareer`, `more` in `Wizard.DismissCareer`, the raw phases in `Gemini.PostProcess`).
- The JavaScript `Date` library and time zones. Dates are day numbers and the calendar is the parameter `civilDay`. The day-number difference replaces both `Math.round` at services/gemini.ts:116 and `Math.ceil` at components/Dashboard.tsx:410, which is exact for two noon instants away from daylight-saving changes. `toISOString` dates (the quiz key, `lastQuizDate`, `calculatedTargetDate`'s text) are given as strings.
- Floating point. `Math.round(100·c/t)` and the onboarding estimate are computed exactly in integers. `Onboarding.NoTie` shows the estimate never meets a half, but float ties in `c/t*100` are not modelled.
- `toLowerCase` is modelled for ASCII letters only. Non-ASCII case mapping is left out.
- JSON serialisation and the browser storage API. Values are typed records, and `Object.keys(localStorage)` is a set, so the scan order of `deleteUser` is not modelled (the outcome does not depend on it).
- UI delays (five-second quiz transition, 2 s and 1.5 s calibration delays, toasts, confetti) are collapsed into the final state.
- React rendering, themes, subscriptions, chat, `fetchTechNews`, `handleRefineSuggestions`, `handleCareerSearch`, `submitAnalysis` and the intro, comment, status and level screens' buttons, which only set a field.
- Onboarding.EstimatedDays: `!userSelectedLevel` is never true, because the level always holds one of the three values, so the level is not optional in the model.
- Dashboard.ResetPhase: requires a phase index inside the roadmap. The source crashes on an out-of-range index, and the screen only passes existing indices.
- Dashboard.DailyChallenge.Answer: `user.streak || 0` and `user.xp || 0` are modelled with streak and xp always present.
- Dashboard.AllInterviews: `Object.values` lists the companies in the bank's insertion order; the bank is a map here, so the model takes the companies in any order and states only which questions the list holds.
- Dashboard.FilteredInterviews: for "All", inherits the lost company order of `Dashboard.AllInterviews` and states only which questions the list holds.
- Gemini.InterviewDefaults: one clock reading `ts` serves every defaulted id, where the source reads `Date.now()` per element (services/gemini.ts:326); readings that differ between elements are not modelled.
- Store.LocalStore.DeleteUser: follows the code as written, so it models the substring match rather than the scoped deletion of the Findings row.

## Findings

| source | as written | input that shows it | evidently intended | confidence | as-written member | corrected member |
|---|---|---|---|---|---|---|
| services/store.ts:38-42 | `deleteUser` removes every key that contains the user id as a substring, including other users' records and the users table key | deleting user "ab" removes the roadmap of user "xaby"; deleting user "users" empties "pathfinder_users" | remove only the keys `prefix + userId + "_" + …` of the deleted user, keep the table minus that user | not executed | Store.DeleteUserTakesOtherUsersRecords | Store.AfterDeleteUserScopedSpec |
