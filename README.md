# warm-habits: a verified model of the habit-tracking core

warm-habits is a habit tracker. The user keeps a list of habits, checks each one off day by day, watches streaks and completion rates, collects badges, and browses a month calendar. This project models that core in Dafny and proves what it promises:

- **Habit store** (`Habits`): the `useHabits` hook as a class over a `seq<Habit>`.
  - `addHabit`, `toggleHabit` and `deleteHabit` replace the list.
  - `isHabitCompleted` is a function.
  - `getCompletionRate` and `getStreak` are methods with the hook's loops. Each is proved equal to a specification function of module `Metrics`, whose properties are proved separately.
- **Shared toggle** (`ListToggle`): "remove every copy, or append at the end". It is used by `toggleHabit` and by the questionnaire's `toggleGoal`.
- **Dates** (`Dates`, `DateFormat`):
  - Gregorian calendar arithmetic over day numbers, where day 0 is 1970-01-01 and 1970-01-01 was a Thursday.
  - The `YYYY-MM-DD` formatting of `formatDateLocal`.
  - A parser that reads a key back, from which the formatting is shown to be injective.
- **Totals** (`Aggregates`): the totals shared by `useAchievements`, `StatsOverview` and the profile page. These are total check-ins, the longest streak, the distinct active days and the habits done on a day.
- **Badges** (`Achievements`): the catalogue of twelve badges and its evaluation.
- **Stats and profile** (`StatsOverview`, `Profile`): the four figures of the stats panel, and the profile page's partition into unlocked and locked badges with its level arithmetic.
- **Calendar** (`HabitCalendar`): month navigation, the month grid (two loops in a method), the per-day completion share, today/selected/future, date clicks, and the day cell's classes.
- **Forms** (`JsText`, `AddHabitDialog`, `Onboarding`, `Questionnaire`):
  - JavaScript's `String.prototype.trim` and the add-habit dialog.
  - The five-step onboarding tour.
  - The three-question onboarding questionnaire.

The clock, `Date.now()` ids and `Math.random()` colours are parameters:

- "today" is a day number, or a civil date in the calendar;
- the new habit's id and creation time are strings passed to `AddHabit`;
- the colour is an index into the three-colour palette.

**How days are keyed.** `useHabits` and `StatsOverview` key a day by `date.toISOString().split('T')[0]`, the UTC date of a local time. The calendar keys a day by `formatDateLocal`, the local date.

- The two agree only when the local offset from UTC puts both instants on the same date.
- The metrics (`Metrics.Streak`, `Metrics.CompletionRate`, `Aggregates.LongestStreak`, `StatsOverview.StatsOf`, ...) therefore take the way of writing a day as a parameter `key: int -> string`.
- Their lemmas require only that `key` is injective. Any fixed time-zone offset keeps that true.
- `Habits.KeyIsInjective` proves it for the local key `DateFormat.Key`, which is the day written as `formatDateLocal` writes it.

## Model

| member | source | states |
|---|---|---|
| Habits.DefaultHabits | src/hooks/useHabits.ts:6-31 | three seed habits with ids "1", "2", "3", no completions, colours primary/accent/success, created at the given time |
| Habits.HabitStore.constructor | src/hooks/useHabits.ts:34-38 | the store starts with the stored list when there is one, else with the three seed habits |
| Habits.HabitStore.AddHabit | src/hooks/useHabits.ts:44-54 | the new list is the old list with exactly one habit appended: the given name and emoji untrimmed, no completions, a palette colour |
| Habits.AddThenDelete | src/hooks/useHabits.ts:44-54 | deleting a freshly added habit by its unused id restores the list before the add |
| Habits.HabitStore.DeleteHabit | src/hooks/useHabits.ts:71-73 | the new list is the old one filtered by `DeleteIn`: exactly the habits with other ids remain, in order |
| Habits.Find | src/hooks/useHabits.ts:76 | `find` is None exactly when no habit has the id, otherwise it is the first habit with that id |
| Habits.ToggleIn | src/hooks/useHabits.ts:57-67 | same length; habits with other ids unchanged; every habit with the id has `date` toggled in its `completedDates` |
| Habits.HabitStore.ToggleHabit | src/hooks/useHabits.ts:56-69 | the new list is `ToggleIn` of the old; for a known id it flips `isHabitCompleted(id, date)`; for an unknown id nothing changes |
| Habits.ToggleInUnknownId | src/hooks/useHabits.ts:58-59 | toggling an id no habit has leaves the collection equal to what it was |
| Habits.ToggleInTwice | src/hooks/useHabits.ts:56-69 | toggling twice restores every record's other fields and which dates each holds, though not necessarily their order |
| Habits.ToggleInDates | src/hooks/useHabits.ts:60-65 | toggling flips membership of `date` only, and keeps a duplicate-free `completedDates` duplicate-free |
| Habits.ToggleFindsFirst | src/hooks/useHabits.ts:56-78 | after a toggle the first habit with the id still exists and has `date` done exactly when it did not before |
| Habits.DeleteIn | src/hooks/useHabits.ts:71-73 | a habit survives exactly when it was present and has a different id; the list never grows |
| Habits.DeleteInAppend | src/hooks/useHabits.ts:72 | the filter distributes over concatenation, so survivors keep their relative order |
| Habits.DeleteInUnknownId | src/hooks/useHabits.ts:72 | deleting an unknown id changes nothing |
| Habits.HabitStore.IsHabitCompleted | src/hooks/useHabits.ts:75-78 | true exactly when the first habit with the id has `date` among its completed dates; false for an unknown id |
| Habits.HabitStore.GetCompletionRate | src/hooks/useHabits.ts:80-95 | the loop over the `days` days ending today returns `HabitCompletionRate`: 0 for an unknown id, otherwise `Metrics.CompletionRate` of the habit's dates |
| Habits.HabitStore.GetStreak | src/hooks/useHabits.ts:97-116 | the loop, with its `break`, returns `HabitStreak`: 0 for an unknown id, otherwise `Metrics.Streak` of the habit's dates |
| Habits.HabitStreak | src/hooks/useHabits.ts:97-116 | at most 365; 0 for an unknown id; otherwise the streak of the first habit with the id |
| Habits.HabitCompletionRate | src/hooks/useHabits.ts:80-95 | 0 for an unknown id; `NaN` exactly for a known id and an empty window; otherwise a percentage in 0..100 |
| Habits.HabitStreakBounds | src/hooks/useHabits.ts:97-116 | a streak is at most 365; it is 0 for an unknown id and for a habit with no completions |
| Habits.KeyIsInjective | src/components/HabitCalendar.tsx:8-13 | different days have different `YYYY-MM-DD` keys |
| Metrics.RunFromSpan | src/hooks/useHabits.ts:104-113 | the run counted from an offset covers only done days, and stops at a missing day unless the 365-day window ends first |
| Metrics.RunFromUnique | src/hooks/useHabits.ts:104-113 | conversely, any run of done days ending at a gap or at the window's end is what the streak counts |
| Metrics.RunFromSameDays | src/hooks/useHabits.ts:104-113 | the streak depends only on which days of the window are done |
| Metrics.RunFrom | src/hooks/useHabits.ts:104-113 | the run counted from an offset never passes the end of the 365-day window |
| Metrics.Streak | src/hooks/useHabits.ts:97-116 | the streak never exceeds the 365-day window |
| Metrics.StreakEmpty | src/hooks/useHabits.ts:101-115 | a habit with no completed dates has streak 0 |
| Metrics.StreakThreeDays | src/hooks/useHabits.ts:104-113 | today and the two days before done gives a streak of 3 |
| Metrics.StreakTodayPending | src/hooks/useHabits.ts:108-112 | a missing today does not end the streak: yesterday and the day before give 2 |
| Metrics.StreakGapYesterday | src/hooks/useHabits.ts:110-111 | a missing yesterday ends the streak: today alone gives 1 |
| Metrics.StreakCheckToday | src/hooks/useHabits.ts:108-109 | checking off today when it was not done raises the streak by exactly one |
| Metrics.CountDone | src/hooks/useHabits.ts:85-92 | the count of done days in a window never exceeds the window's length |
| Metrics.CountDoneAll | src/hooks/useHabits.ts:87-92 | with every day of the window done, the count is the window's length |
| Metrics.CountDoneNone | src/hooks/useHabits.ts:87-92 | with no day of the window done, the count is 0 |
| Metrics.RoundedPercent | src/hooks/useHabits.ts:94 | `Math.round(c / d * 100)` exactly: the integer p with `p <= 100c/d + 1/2 < p + 1` |
| Metrics.RoundedPercentBounds | src/hooks/useHabits.ts:94 | the rounded share lies in 0..100; it is 100 exactly from 99.5% up and 0 exactly below 0.5% |
| Metrics.CompletionRate | src/hooks/useHabits.ts:80-95 | `NaN` exactly for a window of 0 days; otherwise a percentage in 0..100 |
| Metrics.CompletionRateBounds | src/hooks/useHabits.ts:80-95 | for a positive window the rate is a percentage in 0..100; 100 with every day done, 0 with none |
| Metrics.CompletionRateThreeOfSeven | src/hooks/useHabits.ts:80-95 | three of the last seven days done gives 43 |
| ListToggle.RemoveAll | src/hooks/useHabits.ts:64 | `filter(d => d !== x)` keeps exactly the items other than x and never grows the list |
| ListToggle.RemoveAllAppend | src/hooks/useHabits.ts:64 | the filter keeps the relative order of what it keeps |
| ListToggle.RemoveAllNoDuplicates | src/hooks/useHabits.ts:64 | filtering a duplicate-free list leaves it duplicate-free |
| ListToggle.Toggle | src/hooks/useHabits.ts:60-65 | x is in the result exactly when it was not in the list; every other item's membership is unchanged |
| ListToggle.ToggleTwiceMembership | src/hooks/useHabits.ts:56-69 | toggling twice restores membership of every item |
| ListToggle.ToggleTwiceAbsent | src/components/OnboardingQuestionnaire.tsx:40-46 | toggling an absent item twice restores the list exactly |
| ListToggle.TogglePresentTwice | src/hooks/useHabits.ts:60-65 | toggling a present item twice removes all its copies and puts one back at the end |
| ListToggle.ToggleNoDuplicates | src/components/OnboardingQuestionnaire.tsx:40-46 | toggling never creates a duplicate |
| Aggregates.TotalCompletions | src/hooks/useAchievements.ts:22 | the total is 0 exactly when no habit has a completion, and is at least every habit's count, duplicates included |
| Aggregates.TotalCompletionsAppend | src/hooks/useAchievements.ts:22 | the total of a concatenation is the sum of the totals |
| Aggregates.MaxStreakOver | src/hooks/useAchievements.ts:23 | the maximum is at least every habit's streak and is one of them, or 0 |
| Aggregates.LongestStreakIsMax | src/hooks/useAchievements.ts:23 | the longest streak bounds every habit's streak, is 0 without habits, and is at most 365 |
| Aggregates.LongestStreak | src/hooks/useAchievements.ts:23 | at least every habit's streak, and either 0 or one of them |
| Aggregates.AllDates | src/hooks/useAchievements.ts:27 | a date is in the set exactly when some habit has it |
| Aggregates.DistinctDatesAtMostTotal | src/hooks/useAchievements.ts:22-28 | the distinct active days never outnumber the total check-ins |
| Aggregates.ActiveDays | src/hooks/useAchievements.ts:27-28 | never more than the total check-ins, and 0 exactly when there are none |
| Aggregates.SomeDateIsActive | src/hooks/useAchievements.ts:27-28 | a single check-in anywhere makes the set of active dates non-empty |
| Aggregates.HabitsDoneOn | src/components/StatsOverview.tsx:12-14 | the count is at most the number of habits; it is 0 exactly when none has the day, and all of them exactly when all have it |
| Achievements.Evaluate | src/hooks/useAchievements.ts:36-38 | unlocked exactly when the measured total reaches the threshold, which is exactly when progress equals maxProgress; progress never exceeds maxProgress and is the total while locked |
| Achievements.EvaluateAll | src/hooks/useAchievements.ts:30-151 | exactly 12 entries in catalogue order with the catalogue's ids, thresholds and categories, each evaluated as above |
| Achievements.TotalsOf | src/hooks/useAchievements.ts:22-28 | the habit count is the list's length; active days at most total check-ins; longest streak at most 365; all zero without habits |
| Achievements.UseAchievements | src/hooks/useAchievements.ts:20-154 | twelve badges in catalogue order with the catalogue's ids and thresholds, each unlocked exactly when its total over the habits reaches the threshold |
| Achievements.UnlockedInOrder | src/hooks/useAchievements.ts:31-150 | of two badges on the same total, the harder one unlocked implies the easier one is |
| Achievements.CatalogChains | src/hooks/useAchievements.ts:31-150 | along the catalogue, thresholds on the same total strictly increase, so each badge unlocked implies the earlier ones on its total are |
| Achievements.FirstStepUnlocked | src/hooks/useAchievements.ts:31-40 | "first-step" is unlocked exactly when there is at least one check-in |
| Achievements.DedicatedNeedsSevenCheckIns | src/hooks/useAchievements.ts:131-140 | "dedicated" unlocked implies at least seven check-ins |
| Achievements.NothingUnlockedWithoutHabits | src/hooks/useAchievements.ts:20-151 | with no habits no badge is unlocked |
| StatsOverview.StatsOf | src/components/StatsOverview.tsx:10-47 | completedToday is at most the habit count; habit count and active habits are both the list's length; the longest streak bounds every habit's streak and is at most 365; the total bounds every habit's count; all zero without habits |
| StatsOverview.DoneOnAfterToggle | src/components/StatsOverview.tsx:12-14 | checking off a habit with a unique id for a day raises that day's count by one |
| Profile.Unlocked | src/pages/Profile.tsx:16 | exactly the unlocked achievements |
| Profile.Locked | src/pages/Profile.tsx:156 | exactly the locked achievements |
| Profile.PartitionSizes | src/pages/Profile.tsx:16 | the two lists' lengths add up to the number of achievements |
| Profile.UnlockedAppend | src/pages/Profile.tsx:16 | the unlocked list keeps catalogue order |
| Profile.LockedAppend | src/pages/Profile.tsx:162 | the locked list keeps catalogue order |
| Profile.Level | src/pages/Profile.tsx:21 | the level l is at least 1, and level l covers 3(l-1) to 3l-1 unlocked badges |
| Profile.LevelMonotone | src/pages/Profile.tsx:21 | more unlocked badges never lower the level |
| Profile.LevelProgress | src/pages/Profile.tsx:22 | the progress lies in [0, 100) and is a third of 100 per badge earned within the current level |
| Profile.RemainingToLevelUp | src/pages/Profile.tsx:96 | 1 to 3 more badges; exactly that many reach the next level, and fewer stay at this one |
| Profile.ProfileOf | src/pages/Profile.tsx:13-22 | the two lists hold 12 badges in all, unlocked ones complete and locked ones not; level at least 1, 1 to 3 remaining, progress in [0, 100) |
| Dates.DaysInMonth | src/components/HabitCalendar.tsx:27 | 28 to 31 days; 29 exactly for February of a leap year |
| Dates.CivilOf | src/components/HabitCalendar.tsx:9-11 | every day number is the day number of exactly one valid calendar date |
| Dates.DayNumberInjective | src/components/HabitCalendar.tsx:72-77 | different valid dates have different day numbers |
| Dates.CivilOfDayNumber | src/components/HabitCalendar.tsx:9-11 | the date of a date's day number is that date |
| Dates.Weekday | src/components/HabitCalendar.tsx:28 | `getDay()` is a weekday in 0..6 |
| Dates.WeekdayShift | src/components/HabitCalendar.tsx:28 | k days later the weekday has advanced by k modulo 7 |
| DateFormat.Digits | src/components/HabitCalendar.tsx:10-11 | `String(n)` of a natural number is a non-empty string of digits, one long exactly below 10 |
| DateFormat.IntToString | src/components/HabitCalendar.tsx:9-12 | the year as `${year}` writes it is non-empty and reads back as the year, negative years included |
| DateFormat.ParseNatural | src/components/HabitCalendar.tsx:9-12 | the digits of a natural number read back as that number |
| DateFormat.ParseNegative | src/components/HabitCalendar.tsx:9-12 | a minus sign before the digits of n reads back as -n |
| DateFormat.DigitsRoundTrip | src/components/HabitCalendar.tsx:9-12 | reading the digits back gives the number |
| DateFormat.PadStart2 | src/components/HabitCalendar.tsx:10-11 | `padStart(2, '0')` ends with the string, is at least two long, and pads with '0' only |
| DateFormat.TwoDigits | src/components/HabitCalendar.tsx:10-11 | a month or day padded to two characters is two digits that read back as the number |
| DateFormat.FormatDate | src/components/HabitCalendar.tsx:8-13 | the `YYYY-MM-DD` key of a valid date parses back to that date |
| DateFormat.FormatDateInjective | src/components/HabitCalendar.tsx:8-13 | different valid dates format differently |
| DateFormat.FormatDateShape | src/components/HabitCalendar.tsx:8-13 | for a four-digit year the key is ten characters, `-` at positions 4 and 7, digits elsewhere |
| DateFormat.Key | src/components/HabitCalendar.tsx:8-13 | a day's key parses back to the date of that day |
| DateFormat.KeyOfDate | src/components/HabitCalendar.tsx:8-13 | the key of a date's day number is the formatted date |
| HabitCalendar.MonthView.constructor | src/components/HabitCalendar.tsx:23 | the calendar opens on today's year and month |
| HabitCalendar.ShiftMonth | src/components/HabitCalendar.tsx:50-54 | `new Date(year, month + delta)` gives a month in 0..11, counted from year 0 it is `delta` months after the given month, where a year 0 to 99 is read as 1900 to 1999 as `Date` reads it |
| HabitCalendar.MonthView.PrevMonth | src/components/HabitCalendar.tsx:49-51 | the shown month becomes the one before, wrapping into the previous year |
| HabitCalendar.MonthView.NextMonth | src/components/HabitCalendar.tsx:53-55 | the shown month becomes the one after, wrapping into the next year |
| HabitCalendar.ShiftMonthRoundTrip | src/components/HabitCalendar.tsx:49-55 | next then previous, or previous then next, returns to the same month, for years whose neighbours are not read as 19yy |
| HabitCalendar.ShiftMonthCenturyJump | src/components/HabitCalendar.tsx:49-55 | at the edge of year 100 the round trip fails: January 100 steps back to December 99, which then steps forward to January 2000 |
| HabitCalendar.ShiftMonthWraps | src/components/HabitCalendar.tsx:49-55 | December steps into January of the next year, January back into December of the year before (years as `Date` reads them) |
| HabitCalendar.StartPadding | src/components/HabitCalendar.tsx:26-28 | the padding is the weekday of the 1st, in 0..6 with Sunday 0 |
| HabitCalendar.DayColumn | src/components/HabitCalendar.tsx:28-40 | day d of the month falls on weekday (padding + d - 1) mod 7 |
| HabitCalendar.MonthView.Days | src/components/HabitCalendar.tsx:25-47 | the grid is `padding` empty cells, then days 1 to the month's length in order, each a valid date in the column of its weekday; at most 37 cells; a year 0 to 99 is shown as 1900 to 1999 |
| HabitCalendar.IsToday | src/components/HabitCalendar.tsx:63-66 | a cell is today exactly when its date is today's date |
| HabitCalendar.IsSelected | src/components/HabitCalendar.tsx:68-70 | a selected cell's date is the date the selected key parses to |
| HabitCalendar.SelectedIsUnique | src/components/HabitCalendar.tsx:68-70 | at most one date is selected |
| HabitCalendar.LaterDayNumber | src/components/HabitCalendar.tsx:72-78 | a later day number is exactly a later date in year, month, day order |
| HabitCalendar.IsFuture | src/components/HabitCalendar.tsx:72-78 | a date is in the future exactly when it comes after today in year, month, day order |
| HabitCalendar.HandleDateClick | src/components/HabitCalendar.tsx:80-84 | a date is selected exactly when it is not in the future, and its selected key parses back to the date |
| HabitCalendar.Share | src/components/HabitCalendar.tsx:60 | a share of a non-empty whole lies in [0, 1], is 1 only for all of it, positive for any of it |
| HabitCalendar.CompletionForDate | src/components/HabitCalendar.tsx:57-61 | in [0, 1]; 0 without habits; 1 exactly when every habit has the date; positive exactly when some habit has it |
| HabitCalendar.CellStyleOf | src/components/HabitCalendar.tsx:132-156 | ring exactly on today; selected border exactly on the selected date; disabled exactly in the future; success tint exactly when there are habits and every one is done; accent tint exactly when some but not all are done and the cell is not selected; no dot exactly without habits, a full dot exactly when all are done, a partial one exactly when some but not all are, an empty one exactly when none is |
| JsText.TrimStart | src/components/AddHabitDialog.tsx:29 | a suffix that does not start with white space, with only white space cut |
| JsText.TrimEnd | src/components/AddHabitDialog.tsx:29 | a prefix that does not end with white space, with only white space cut |
| JsText.Trim | src/components/AddHabitDialog.tsx:29-30 | a slice with only white space cut on either side, neither starting nor ending with white space |
| JsText.TrimEmpty | src/components/AddHabitDialog.tsx:29 | the trimmed name is empty exactly when the name is all white space |
| JsText.TrimIdempotent | src/components/AddHabitDialog.tsx:30 | trimming twice is trimming once |
| AddHabitDialog.Dialog.constructor | src/components/AddHabitDialog.tsx:23-25 | closed, empty name, the running emoji selected |
| AddHabitDialog.Dialog.SetOpen | src/components/AddHabitDialog.tsx:38 | only `open` changes |
| AddHabitDialog.Dialog.SetName | src/components/AddHabitDialog.tsx:60 | only the name changes |
| AddHabitDialog.Dialog.SelectEmoji | src/components/AddHabitDialog.tsx:68-72 | the selected emoji becomes one of the twelve options, nothing else changes |
| AddHabitDialog.Dialog.SubmitEnabled | src/components/AddHabitDialog.tsx:89 | the button is enabled exactly when the name has a character that is not white space |
| AddHabitDialog.Dialog.HandleSubmit | src/components/AddHabitDialog.tsx:27-35 | a request is made exactly when submit is enabled, carrying the trimmed name and selected emoji, after which the dialog is reset and closed; otherwise nothing changes |
| AddHabitDialog.RequestedNameIsTrimmed | src/components/AddHabitDialog.tsx:29-30 | a requested name is not blank, starts and ends with non-white space, and is its own trim |
| Onboarding.Tour.constructor | src/hooks/useOnboarding.ts:52-54 | hidden, at step 0, not ready, with the stored completion flag |
| Onboarding.Tour.Start | src/hooks/useOnboarding.ts:56-67 | the tour shows and becomes ready exactly when it was never completed; otherwise nothing changes |
| Onboarding.Tour.Complete | src/hooks/useOnboarding.ts:87-90 | the flag is set and the tour hidden; the step stays |
| Onboarding.Tour.NextStep | src/hooks/useOnboarding.ts:69-75 | below the last step the step goes up by one; at the last it completes and keeps the step |
| Onboarding.Tour.PrevStep | src/hooks/useOnboarding.ts:77-81 | the step goes down by one, and stays at 0 on the first |
| Onboarding.Tour.Skip | src/hooks/useOnboarding.ts:83-85 | has the same effect as completing |
| Onboarding.Tour.Reset | src/hooks/useOnboarding.ts:92-96 | the flag is cleared and the tour shown from step 0 |
| Onboarding.Tour.CurrentStepData | src/hooks/useOnboarding.ts:101 | the current step's data is always one of the five steps |
| Questionnaire.Form.constructor | src/components/OnboardingQuestionnaire.tsx:35-38 | step 0, no goals, no experience, no reminder |
| Questionnaire.Form.ToggleGoal | src/components/OnboardingQuestionnaire.tsx:40-46 | on the first question only (its buttons are rendered only there), the goals become the toggle of the clicked goal and stay duplicate-free; nothing else changes |
| Questionnaire.Form.SelectExperience | src/components/OnboardingQuestionnaire.tsx:145-150 | on the second question only, only the experience changes, to the clicked option |
| Questionnaire.Form.SelectReminder | src/components/OnboardingQuestionnaire.tsx:170-175 | on the third question only, only the reminder changes, to the clicked option |
| Questionnaire.Form.Continue | src/components/OnboardingQuestionnaire.tsx:205-214 | nothing happens when the current question is unanswered; otherwise it moves to the next step, or on the last step completes with the answers; answers unchanged; whatever it completes with has a goal, an experience and a reminder time |
| Questionnaire.Form.Back | src/components/OnboardingQuestionnaire.tsx:195-198 | the step goes down by one, and only when it is above 0 |
| Questionnaire.Form.Skip | src/components/OnboardingQuestionnaire.tsx:228-232 | completes with the current answers whether or not they are complete; each answer is an option or empty, goals without duplicates, and the questions before the current step are answered |
| Questionnaire.SkipUnanswered | src/components/OnboardingQuestionnaire.tsx:228-232 | skipping on a fresh questionnaire completes with no goals, no experience and no reminder, which Continue never does |

## Left out

- Persistence: the load and save through `localStorage` (src/hooks/useHabits.ts:34-42) and the onboarding flag (src/hooks/useOnboarding.ts:58,88,93) are outside the model. The habit list is passed to the constructor as `Option<seq<Habit>>`, and the onboarding flag is a boolean field.
- Malformed stored habits: `JSON.parse` (src/hooks/useHabits.ts:37) has no `try`/`catch`, so such data makes the hook throw; there is no quiet fallback to the seed habits. The model follows the code: the constructor takes the stored list when there is one.
- Any non-empty stored onboarding flag counts as completed. Its string encoding is not modelled.
- Clocks and randomness: `Date.now()` ids, `Math.random()` colours and `new Date()` for "today" are parameters.
- `createdAt` is an opaque string. The `toISOString` representation is not modelled.
- Time zones: the difference between `toISOString` keys (UTC) and `formatDateLocal` keys (local time) is not modelled.
  - The metrics take the key function as a parameter, and the lemmas require only that it is injective.
  - The calendar compares dates through `FormatDate` on civil dates.
  - So the model does not show which UTC date a local midnight falls on.
- Daylight-saving changes and `setDate`'s normalisation of local times are not modelled. A day is a day number.
- The 500 ms `setTimeout` before the tour appears (src/hooks/useOnboarding.ts:61-64) is not modelled. `Onboarding.Tour.Start` is the effect after the delay, and clearing the timer on unmount is left out.
- Floating point: `Metrics.RoundedPercent` is the exact rounding of the rational `100c/d`. It does not model binary-floating-point error in `completed / days * 100`. `HabitCalendar.CompletionForDate` and `Profile.LevelProgress` are exact reals.
- `Habits.HabitStore.GetCompletionRate` with a negative `days` returns `Percent(0)`. JavaScript returns `-0`, which prints as 0.
- `Math.max(...spread)`: its argument-count limit for very long lists is not modelled.
- The home page mounts `HabitCalendar` without `selectedDate` or `onSelectDate` (src/pages/Index.tsx:98-101), while the click handler calls `onSelectDate` unconditionally (src/components/HabitCalendar.tsx:82). `HabitCalendar.HandleDateClick` and `HabitCalendar.IsSelected` model the component as written, with the selection as a parameter. As mounted there (a reading of the code, not executed), no border shows and a click on a day not in the future calls an undefined function.
- Rendering: locale month names (src/components/HabitCalendar.tsx:44), JSX markup, animations, icons and the `value` strings of the stats panel (src/components/StatsOverview.tsx:26,33,40,47) are not modelled. The stats are modelled as numbers.
- HabitCalendar.CellStyleOf: the future opacity and the hover classes are not stated separately. They follow directly from `IsFuture`.
- `new Date(...)` is valid only within 8.64e15 ms of 1970 (about 275,760 years either way). Beyond that it is an Invalid Date, and the model does not capture it: dates, months and day numbers are unbounded integers.
- HabitCalendar.ShiftMonthRoundTrip: is proved only for years below -1 or above 100; it fails for every month of the years 0 to 99, for January of 100 and for December of -1. `new Date(y, m)` reads a year 0 to 99 as 1900 to 1999, so stepping back from January 100 lands in December 99, and stepping forward again gives January 2000. `HabitCalendar.ShiftMonthCenturyJump` exhibits this.
- `getCompletionRate`'s default `days = 7` (src/hooks/useHabits.ts:80) is not modelled: callers of `Habits.HabitStore.GetCompletionRate` and `Metrics.CompletionRate` always pass the window length.
- Onboarding.Tour.CurrentStepData: states only that the step is one of the five catalogue steps. It does not restate which index it is.
- `Profile.ProfileOf` records total check-ins and longest streak (src/pages/Profile.tsx:17-18) with the same functions as `Aggregates`. Their properties are stated there, not again on the profile.
- Habits.HabitStore.IsHabitCompleted, Habits.HabitStreak and the loop methods: like `find`, they see only the first habit with a given id, and duplicate ids are not ruled out. `Habits.ToggleIn` toggles every habit with the id, as `map` does.
