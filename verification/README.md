# FME study cycle — a verified model

The FME study cycle is a browser app for working through the eleven volumes
of *Fundamentos de Matemática Elementar*. This project models its logic in
Dafny. It has seven parts:

- **Study planner.** It turns the curriculum (volumes → chapters → topics with durations) into a day-by-day
  schedule with a two-hour daily budget. Topics that do not fit are split over
  two days. Five spaced reviews (1, 7, 14, 30 and 90 days) follow every study entry of a completed topic,
  and the result is sorted by date. The planner also groups the schedule per volume, computes progress and
  statistics, exports CSV and toggles completed topics, completed reviews and expanded volumes.
- **Study log (`Schedule`).** It has a timer, study sessions with their spaced reviews and whole-volume
  completion with a duplicate guard. It also handles deleting sessions and reviews, marking reviews done, the
  review counters and the upcoming/future lists.
- **Guide.** It keeps a completion record per topic, with volume and overall progress percentages.
- **Calendar.** It builds a month grid with `YYYY-MM-DD` keys, adds and deletes events, truncates each day cell
  to two events and shows a side list of the five earliest events.
- **Dashboard.** It computes the total-time split, per-volume time and progress bars, a twelve-month chart, the
  overall progress and the advice shown under it.
- **Strategic schedule.** It dedupes the phases, groups weeks by phase, computes hour and question totals, and
  starts a week, which fills the preselection and marks the week active.
- **Catalogue (`fmeVolumes`).** It holds the static volume data and its lookups.

The modules follow the source files. Each file's own form is kept:

| module | file | form |
|---|---|---|
| `StudyPlanner` (generator) | `study_planner.dfy` | the generator as methods with loops over a growing sequence, each proved equal to a specification function |
| `StudyPlannerProperties` | `study_planner_properties.dfy` | what those specification functions guarantee |
| `PlannerSummary` | `planner_summary.dfy` | the planner's grouping, progress, statistics, CSV and the `PlannerState` class of the three toggled sets |
| `SchedulePage` | `schedule_page.dfy` | the `ScheduleState` class whose handlers update sessions, reviews, completed volumes and the timer |
| `GuidePage` | `guide_page.dfy` | the `GuideState` class and the pure progress functions |
| `CalendarPage` | `calendar_page.dfy` | the `CalendarState` class, the grid-building loop and the in-place sort of the side list |
| `CalendarDates` | `calendar_dates.dfy` | the Gregorian calendar arithmetic that `new Date(...)` performs, and the date keys |
| `DashboardPage` | `dashboard_page.dfy` | pure aggregations |
| `StrategicSchedulePage` | `strategic_schedule.dfy` | pure grouping and the `StrategicState` class |
| `FmeVolumes` | `fme_volumes.dfy` | the catalogue data and its lookups |
| `Curriculum` | `curriculum.dfy` | the chaptered curriculum the planner and the guide read |

The shared helpers are in `Text`, `Collections`, `Rounding` and `Wrappers`:

- **`Text`** holds the JavaScript string built-ins in use: `String(n)`, `padStart`, `indexOf`, `replace`, `split` and `join`.
- **`Collections`** holds `filter`, `reduce` and a stable `sort`.
- **`Rounding`** holds `Math.round` and `Math.ceil` of a quotient.

Some conventions apply throughout:

- Dates in the planner are day numbers, so `setDate(getDate() + n)` is `+ n`. The study log's dates are
  milliseconds, because its filters compare with `now + 86400000`.
- "Now" is always a parameter.
- Saved storage contents enter as constructor parameters (`Option` for a missing key). The
  persistence effects are not modelled.
- A handler that returns early returns `Refused(reason)` and leaves the state as it was.

Some behaviours of the source are modelled as written and proved as such:

- A topic longer than the rest of the day plus a whole day overruns the budget
  (`StudyPlannerProperties.LongTopicOverrunsDay`).
- A topic key that itself contains `_part` loses its reviews (`StudyPlannerProperties.PartInKeyLosesReviews`).
- A completed split topic gets ten reviews with five duplicated ids (`StudyPlannerProperties.SplitTopicReviewedTwice`).
- A comma inside a topic name adds a CSV column (`PlannerSummary.CommaInTopicShiftsColumns`).
- Sessions saved by the study log carry neither `volumeId` nor `date`, so the dashboard charts none of them
  (`DashboardPage.TimerSessionsUncharted`).

## Model

| member | source | states |
|---|---|---|
| StudyPlanner.VolumesToStudy | client/src/pages/StudyPlanner.tsx:66-69 | with `includeComplementary` every volume is kept; otherwise exactly the non-complementary volumes, each one a member of the input |
| StudyPlanner.VolumesToStudyOrder | client/src/pages/StudyPlanner.tsx:66-69 | the filter distributes over concatenation, so the kept volumes stay in curriculum order |
| StudyPlanner.ChapterSlots | client/src/pages/StudyPlanner.tsx:73-76 | one slot per topic of the chapter, in order, carrying the key `<volume>_<chapter>_<topic>` and the duration (60 when absent) |
| StudyPlanner.ChaptersSlotsSnoc | client/src/pages/StudyPlanner.tsx:73-76 | the topic walk of a volume extends chapter by chapter |
| StudyPlanner.CurriculumSlotsSnoc | client/src/pages/StudyPlanner.tsx:72-76 | the topic walk of the curriculum extends volume by volume |
| StudyPlanner.RunSnoc | client/src/pages/StudyPlanner.tsx:72-135 | placing one more topic is one more placement step on the state reached so far |
| StudyPlanner.ReviewsForSnoc | client/src/pages/StudyPlanner.tsx:141-168 | the reviews of a list of study entries extend entry by entry |
| StudyPlanner.PlaceTopic | client/src/pages/StudyPlanner.tsx:75-132 | the loop body (day rollover, fit or split) leaves items, date and budget equal to one placement step of the specification |
| StudyPlanner.PlanStudy | client/src/pages/StudyPlanner.tsx:60-135 | the three nested loops produce exactly the study plan of the specification |
| StudyPlanner.PushReviews | client/src/pages/StudyPlanner.tsx:141-166 | the loop over the review days appends exactly that entry's reviews |
| StudyPlanner.AddReviews | client/src/pages/StudyPlanner.tsx:137-168 | the items become the study entries followed by the reviews of every study entry, in order |
| StudyPlanner.GenerateSchedule | client/src/pages/StudyPlanner.tsx:60-172 | the schedule is sorted by date and is a permutation of the generated entries |
| StudyPlannerProperties.PlaceAppends | client/src/pages/StudyPlanner.tsx:87-132 | a placement step only appends entries |
| StudyPlannerProperties.PlaceShape | client/src/pages/StudyPlanner.tsx:79-132 | the day rolls over exactly when the budget is 0. A fitting topic gives one `study_<key>` entry on the start day. A larger one gives `_part1`, holding the whole remaining budget, and `_part2` the next day with the rest and " (continuação)". The two durations sum to the topic's. Entries keep the completion flag and the original study date |
| StudyPlannerProperties.RunOrder | client/src/pages/StudyPlanner.tsx:62-135 | the first entry falls on start + 1. Every entry lies between start + 1 and the current date, entry dates never decrease, and each topic gives one or two entries. Each entry is dated on its original study date or the next day |
| StudyPlannerProperties.EntriesInOrder | client/src/pages/StudyPlanner.tsx:79-132 | the entries of one step are ordered, start on the step's start day and stay within one day of it |
| StudyPlannerProperties.PlaceKeepsOrder | client/src/pages/StudyPlanner.tsx:79-132 | a placement step preserves the ordered-run invariant |
| StudyPlannerProperties.RunBudget | client/src/pages/StudyPlanner.tsx:79-131 | when every duration is between 1 and 120, the budget stays within 0..120 and no day holds more than 120 minutes |
| StudyPlannerProperties.ScheduleBudget | client/src/pages/StudyPlanner.tsx:60-135 | under the same condition on the curriculum, every study day of the plan holds at most 120 minutes |
| StudyPlannerProperties.LongTopicOverrunsDay | client/src/pages/StudyPlanner.tsx:101-131 | a 300-minute first topic is split 120 + 180, puts 180 minutes on its second day and drives the budget to −60 |
| StudyPlannerProperties.RecoverStudyKey | client/src/pages/StudyPlanner.tsx:142 | for a key free of `_part`, stripping `study_` and cutting at `_part` gives the key back from `study_<key>`, `_part1` and `_part2` ids |
| StudyPlannerProperties.RunCompletion | client/src/pages/StudyPlanner.tsx:76-143 | for keys free of `_part`, an entry is marked completed exactly when its recovered key is in the completed set |
| StudyPlannerProperties.EntriesCompletion | client/src/pages/StudyPlanner.tsx:87-143 | every entry of one step recovers the slot's key and carries its completion |
| StudyPlannerProperties.PartInKeyLosesReviews | client/src/pages/StudyPlanner.tsx:142 | an id whose key contains `_part` is cut short, so the recovered key differs from the key |
| StudyPlannerProperties.ReviewsOfShape | client/src/pages/StudyPlanner.tsx:141-166 | an uncompleted entry gets no reviews. A completed one gets five, with ids `review_<key>_<d>d` dated original study date + d for d in 1, 7, 14, 30, 90. Each takes ceil(duration / 2) minutes, is not completed and keeps the entry's volume and chapter |
| StudyPlannerProperties.ReviewsOfCount | client/src/pages/StudyPlanner.tsx:145-166 | an entry yields 5 reviews when its key is completed, else none |
| StudyPlannerProperties.ReviewsForCount | client/src/pages/StudyPlanner.tsx:139-168 | the number of reviews is 5 times the number of completed study entries |
| StudyPlannerProperties.ReviewsForPending | client/src/pages/StudyPlanner.tsx:149-165 | every review is of kind review, not completed, and dated its original study date plus its review day, one of 1, 7, 14, 30, 90 |
| StudyPlannerProperties.SplitEntries | client/src/pages/StudyPlanner.tsx:101-130 | both fragments of a split topic recover the topic's key and share the original study date |
| StudyPlannerProperties.SplitTopicReviewedTwice | client/src/pages/StudyPlanner.tsx:101-166 | a completed split topic gets ten reviews whose ids and dates come in five identical pairs |
| StudyPlannerProperties.TwinReviews | client/src/pages/StudyPlanner.tsx:149-166 | two entries with one key and one original date get pairwise identical review ids and dates |
| StudyPlannerProperties.CurriculumSlotsMembers | client/src/pages/StudyPlanner.tsx:72-76 | every slot comes from a topic of a chapter of a volume of the curriculum, with that volume's number and title |
| StudyPlannerProperties.ChaptersSlotsMembers | client/src/pages/StudyPlanner.tsx:73-76 | every slot of a volume comes from one of its chapters' topics |
| StudyPlannerProperties.ScheduleContents | client/src/pages/StudyPlanner.tsx:60-172 | the schedule is sorted, holds exactly the study entries plus their reviews, and has |study| + 5·completed items. On each date the study entries come first, in generation order, then the reviews (stability) |
| StudyPlannerProperties.SplitExample | client/src/pages/StudyPlanner.tsx:79-132 | two 90-minute topics: the first fills day 1 with 90 minutes and the second is split 30 on day 1, with only its completion flag set |
| StudyPlannerProperties.SplitExampleSecondPart | client/src/pages/StudyPlanner.tsx:116-131 | the same run puts the 60-minute `_part2` "(continuação)" on day 2 with original date day 1 |
| StudyPlannerProperties.SplitExampleFirstDay | client/src/pages/StudyPlanner.tsx:79-100 | after the first topic, day 1 has 30 minutes left |
| PlannerSummary.StudyReviewPartition | client/src/pages/StudyPlanner.tsx:243-244 | study and review entries together count every item |
| PlannerSummary.OfVolume | client/src/pages/StudyPlanner.tsx:185 | the items of a volume are exactly the members with that volume number |
| PlannerSummary.FirstOfVolume | client/src/pages/StudyPlanner.tsx:179-184 | the first item of a volume, which gives the group its title; none exactly when the volume is absent |
| PlannerSummary.GroupByVolume | client/src/pages/StudyPlanner.tsx:175-189 | the loop builds one group per volume present, holding that volume's items in schedule order, titled by its first item |
| PlannerSummary.PushToGroup | client/src/pages/StudyPlanner.tsx:179-185 | one iteration: create the group titled by the item when missing, then append the item |
| PlannerSummary.GroupMembership | client/src/pages/StudyPlanner.tsx:175-189 | every item is in the group of its volume and in no other |
| PlannerSummary.OfVolumeSorted | client/src/pages/StudyPlanner.tsx:171-189 | each group of the sorted schedule is sorted by date |
| PlannerSummary.ProgressOf | client/src/pages/StudyPlanner.tsx:195-202 | total counts the study entries and completed the completed study entries among them. The percentage is 0 without entries, else the nearest integer to 100·completed/total, so it is within 0..100 |
| PlannerSummary.VolumeProgress | client/src/pages/StudyPlanner.tsx:192-206 | one entry per group, under the same volume number, and each entry is that group's progress (completed study entries over study entries, rounded), within 0..100 |
| PlannerSummary.VolumeProgressTotals | client/src/pages/StudyPlanner.tsx:195-200 | a volume's total is the number of that volume's study entries in the schedule, and its completed count the number of those that are completed |
| PlannerSummary.DatesBound | client/src/pages/StudyPlanner.tsx:255 | the distinct dates number at most the items, and at least one when there are items |
| PlannerSummary.ComputeStats | client/src/pages/StudyPlanner.tsx:242-274 | each count is the size of its filter: study entries, reviews, completed study entries, and reviews whose id is in the completed-review set. The minutes sum the study entries and the completed study entries. The day count is the number of distinct dates, between 1 and the item count. The end date is the last item's date, or today when the schedule is empty. The percentage is the rounded completed share of study entries |
| PlannerSummary.StatsMinutes | client/src/pages/StudyPlanner.tsx:249-254 | with non-negative durations, 0 ≤ completed minutes ≤ total minutes |
| PlannerSummary.StatsOfSchedule | client/src/pages/StudyPlanner.tsx:242-254 | on a generated schedule the counts are |study| and 5·completed, and the total minutes sum the study entries only, never the reviews |
| PlannerSummary.StudyOnly | client/src/pages/StudyPlanner.tsx:243 | the plan before reviews holds only study entries |
| PlannerSummary.CsvReadsBack | client/src/pages/StudyPlanner.tsx:277-291 | when no field holds a comma or newline, the export splits back into a header line and one line per item, each line splitting into exactly its seven fields |
| PlannerSummary.RowReadsBack | client/src/pages/StudyPlanner.tsx:280-290 | a row with safe fields splits back into its seven fields |
| PlannerSummary.HeaderReadsBack | client/src/pages/StudyPlanner.tsx:279 | the header splits back into its seven column names |
| PlannerSummary.CommaInTopicShiftsColumns | client/src/pages/StudyPlanner.tsx:285-289 | a topic "Funções, parte A" makes the row split into eight fields |
| PlannerSummary.Toggle | client/src/pages/StudyPlanner.tsx:209-217 | the toggled key changes membership; every other key keeps it |
| PlannerSummary.ToggleTwice | client/src/pages/StudyPlanner.tsx:209-239 | toggling the same key twice restores the set |
| PlannerSummary.PlannerState.constructor | client/src/pages/StudyPlanner.tsx:29-42 | the saved sets, or empty sets and {1} expanded when nothing is saved |
| PlannerSummary.PlannerState.ToggleTopicCompletion | client/src/pages/StudyPlanner.tsx:209-217 | only the completed topics change, by a toggle of the key |
| PlannerSummary.PlannerState.ToggleReviewCompletion | client/src/pages/StudyPlanner.tsx:220-228 | only the completed reviews change, by a toggle of the id |
| PlannerSummary.PlannerState.ToggleVolumeExpansion | client/src/pages/StudyPlanner.tsx:231-239 | only the expanded volumes change, by a toggle of the number |
| PlannerSummary.PlannerState.CurrentSchedule | client/src/pages/StudyPlanner.tsx:60-172 | the schedule of the current completed topics, sorted by date |
| PlannerSummary.PlannerState.CurrentStats | client/src/pages/StudyPlanner.tsx:242-274 | the statistics of the schedule under the page's current completed reviews: completed reviews ≤ reviews, and the counts add up |
| Rounding.RoundDiv | client/src/pages/StudyPlanner.tsx:201 | the nearest integer to the quotient, halves rounded up (`Math.round`) |
| Rounding.CeilDiv | client/src/pages/Schedule.tsx:131 | the least integer not below the quotient (`Math.ceil`) |
| Rounding.Percentage | client/src/pages/StudyPlanner.tsx:257-259 | 0 without a total, else the nearest integer to 100·part/total, which is in 0..100 for 0 ≤ part ≤ total, 0 for no part and 100 for all |
| Rounding.PercentageBounds | client/src/pages/Guide.tsx:70 | any integer within half a unit of 100·part/total is in 0..100, 0 for no part and 100 for all |
| Text.NatToString | client/src/pages/Calendar.tsx:88 | `String(n)`: at least one digit, all digits, no leading zero |
| Text.PadStart | client/src/pages/Calendar.tsx:88 | `padStart`: the string is kept at the end, preceded by exactly enough fill characters to reach the width |
| Text.IndexOf | client/src/pages/StudyPlanner.tsx:142 | `indexOf`: none exactly when the pattern does not occur, else the position of its first occurrence |
| Text.ReplaceFirst | client/src/pages/StudyPlanner.tsx:142 | `replace` with a string pattern: a string without the pattern is unchanged; otherwise the first occurrence, and only it, is replaced |
| Text.Pad2 | client/src/pages/Calendar.tsx:88 | `String(n).padStart(2, "0")` is all digits, reads back as n and has exactly two characters below 100 |
| Text.PaddedRoundTrip | client/src/pages/Schedule.tsx:106 | a zero-padded numeral reads back as its number |
| Text.NatToStringRoundTrip | client/src/pages/Calendar.tsx:292 | `String(n)` reads back as n |
| Text.ReplaceLeading | client/src/pages/StudyPlanner.tsx:142 | `replace` with a pattern at the start strips exactly that prefix |
| Text.BeforeFirst | client/src/pages/StudyPlanner.tsx:142 | `split(pat)[0]` is the whole string without the pattern, else the prefix before its first occurrence |
| Text.FirstOccurrenceAtSeam | client/src/pages/StudyPlanner.tsx:142 | cutting `key + "_part…"` at `_part` gives the key when the key holds no `_part` |
| Text.SplitJoin | client/src/pages/StudyPlanner.tsx:291 | splitting a join by the same separator gives the parts back when no part holds it |
| Collections.Filter | client/src/pages/StudyPlanner.tsx:139 | `filter`: every kept element satisfies the predicate, and the result is a sub-multiset of the input |
| Collections.SortBy | client/src/pages/StudyPlanner.tsx:171 | the sort is a permutation and is sorted by the key |
| Collections.SortByStable | client/src/pages/StudyPlanner.tsx:171 | elements with equal keys keep their relative order |
| SchedulePage.FormatTimeReadsBack | client/src/pages/Schedule.tsx:102-107 | the text has three colon-separated numerals, of at least 2, exactly 2 and exactly 2 digits. Minutes and seconds are below 60 and hours·3600 + minutes·60 + seconds gives back the input |
| SchedulePage.SpacedReviews | client/src/pages/Schedule.tsx:139-152 | one review per review day |
| SchedulePage.SpacedReviewsShape | client/src/pages/Schedule.tsx:139-152 | review i has id `<session>-<d>`, the session's id, volume and topic, d = 1, 7, 14, 30, 90, date now + d days and is not completed. Dates strictly increase and ids are distinct |
| SchedulePage.FindTopic | client/src/pages/Schedule.tsx:114 | the first topic with that id, none exactly when no topic has it |
| SchedulePage.ReviewCounts | client/src/pages/Schedule.tsx:242-247 | completed + pending = all reviews, and overdue ≤ pending |
| SchedulePage.Upcoming | client/src/pages/Schedule.tsx:415-418 | the pending reviews due within a day, sorted by date |
| SchedulePage.Future | client/src/pages/Schedule.tsx:459-462 | the pending reviews due later than a day, sorted by date |
| SchedulePage.UpcomingFuturePartition | client/src/pages/Schedule.tsx:411-462 | the two lists together are exactly the pending reviews, split at now + 86400000 ms |
| SchedulePage.SessionsWithout | client/src/pages/Schedule.tsx:223 | exactly the sessions with another id remain |
| SchedulePage.ReviewsWithoutSession | client/src/pages/Schedule.tsx:224 | exactly the reviews of other sessions remain |
| SchedulePage.ReviewsWithoutId | client/src/pages/Schedule.tsx:238 | exactly the reviews with another id remain |
| SchedulePage.MarkComplete | client/src/pages/Schedule.tsx:228-235 | same length and order. Only the completion flag may change, and it is set exactly on the reviews with that id |
| SchedulePage.MarkCompleteIdempotent | client/src/pages/Schedule.tsx:228-235 | marking twice equals marking once |
| SchedulePage.MarkCompletePending | client/src/pages/Schedule.tsx:228-235 | marking never raises the pending count, and the marked reviews are completed |
| SchedulePage.VolumeRecord | client/src/pages/Schedule.tsx:177-198 | the completion record names the volume and holds five uncompleted reviews of pseudo-session `volume-<id>` |
| SchedulePage.DeleteSessionKeepsVolumeReviews | client/src/pages/Schedule.tsx:222-226 | deleting a session never removes a volume review |
| SchedulePage.ScheduleState.constructor | client/src/pages/Schedule.tsx:47-75 | the saved lists or empty ones, with the timer stopped at 0 and nothing selected |
| SchedulePage.ScheduleState.SelectVolume | client/src/pages/Schedule.tsx:321 | only the selected volume changes |
| SchedulePage.ScheduleState.SelectTopic | client/src/pages/Schedule.tsx:337 | only the selected topic changes |
| SchedulePage.ScheduleState.Tick | client/src/pages/Schedule.tsx:80-88 | one second is added exactly while the timer runs |
| SchedulePage.ScheduleState.StartSession | client/src/pages/Schedule.tsx:109-117 | refused, with the timer untouched, unless a catalogue volume and a topic are selected; otherwise the timer starts |
| SchedulePage.ScheduleState.PauseSession | client/src/pages/Schedule.tsx:210-213 | the timer stops and nothing else changes |
| SchedulePage.ScheduleState.ResetTimer | client/src/pages/Schedule.tsx:215-220 | the timer stops at 0 and the topic is cleared |
| SchedulePage.ScheduleState.EndSession | client/src/pages/Schedule.tsx:119-161 | with no time recorded nothing changes; with no volume selected the handler fails and nothing changes. Otherwise exactly one session of ceil(seconds/60) minutes and its five reviews are appended, the timer stops at 0 and the topic is cleared |
| SchedulePage.ScheduleState.CompleteVolume | client/src/pages/Schedule.tsx:163-208 | refused with no volume or an already completed one. Otherwise one completion record is appended and its five reviews join the review list, and the selection and seconds are cleared, but the timer keeps running. At most one record per volume is kept |
| SchedulePage.ScheduleState.CompleteVolumeStoppingTimer | client/src/pages/Schedule.tsx:163-208 | the same as `completeVolume`, and the timer is stopped, so a running timer always has a volume |
| SchedulePage.ScheduleState.DeleteSession | client/src/pages/Schedule.tsx:222-226 | the session and exactly the reviews of that session go |
| SchedulePage.ScheduleState.MarkReviewComplete | client/src/pages/Schedule.tsx:228-235 | only the reviews change, by marking that id complete |
| SchedulePage.ScheduleState.DeleteReview | client/src/pages/Schedule.tsx:237-240 | only the reviews change, by dropping that id |
| SchedulePage.ScheduleState.ShowHistory | client/src/pages/Schedule.tsx:503-505 | the history sorts the sessions in place, newest end time first, as a permutation |
| SchedulePage.CompleteVolumeLeavesTimerRunning | client/src/pages/Schedule.tsx:203-205 | completing a volume while the timer runs, then one tick, makes `endSession` fail on the missing volume |
| GuidePage.IsTopicCompleted | client/src/pages/Guide.tsx:53-57 | true exactly when some record names both the volume and the topic |
| GuidePage.ToggleFlips | client/src/pages/Guide.tsx:32-51 | the topic's completion flips and every other topic reads as before. Records of other topics stay, and an open topic gains exactly one record with its ids, appended |
| GuidePage.ToggleKeepsAtMostOnce | client/src/pages/Guide.tsx:32-51 | at most one record per (volume, topic) is preserved |
| GuidePage.ToggleTwiceRestores | client/src/pages/Guide.tsx:32-51 | toggling an open topic twice restores the list |
| GuidePage.ToggleTwiceCompletion | client/src/pages/Guide.tsx:32-57 | toggling twice restores every topic's completion |
| GuidePage.FindVolume | client/src/pages/Guide.tsx:60 | the first curriculum volume with that id, none exactly when there is none |
| GuidePage.CalculateVolumeProgress | client/src/pages/Guide.tsx:59-71 | 0 for an unknown volume or one without topics, else the nearest integer to 100·records of the volume / its topics |
| GuidePage.CalculateOverallProgress | client/src/pages/Guide.tsx:73-80 | 0 without topics, else the nearest integer to 100·records / all topics |
| GuidePage.OverallProgressBounded | client/src/pages/Guide.tsx:73-80 | with at most one record per topic, each naming a curriculum topic, the overall progress is within 0..100 |
| GuidePage.VolumeProgressBounded | client/src/pages/Guide.tsx:59-71 | under the same conditions and distinct volume ids, a volume's progress is within 0..100 |
| GuidePage.GuideState.constructor | client/src/pages/Guide.tsx:15-22 | the saved records or none, and no volume expanded |
| GuidePage.GuideState.ToggleVolume | client/src/pages/Guide.tsx:28-30 | the volume collapses when expanded, else becomes the one expanded |
| GuidePage.GuideState.ToggleTopicComplete | client/src/pages/Guide.tsx:32-51 | the records are toggled, the topic's completion flips and at most one record per topic is preserved |
| CalendarDates.DaysInMonth | client/src/pages/Calendar.tsx:50-52 | between 28 and 31 |
| CalendarDates.DaysBeforeMonth | client/src/pages/Calendar.tsx:50-52 | the days before month m of a year lie between 28·m and 31·m |
| CalendarDates.YearLength | client/src/pages/Calendar.tsx:50-52 | the months add up to 366 days in leap years and 365 otherwise |
| CalendarDates.LastDayOfMonth | client/src/pages/Calendar.tsx:50-52 | day 0 of the next month is the last day of this month, which is how the page reads the month length |
| CalendarDates.Weekday | client/src/pages/Calendar.tsx:54-56 | within 0..6 |
| CalendarDates.KnownDates | client/src/pages/Calendar.tsx:26 | 1 January 1970 is day 0, a Thursday, and 23 January 2026 is a Friday |
| CalendarDates.FirstDayOfMonth | client/src/pages/Calendar.tsx:54-56 | within 0..6 |
| CalendarDates.WeekdayOfDay | client/src/pages/Calendar.tsx:54-56 | day d of a month falls on (first weekday + d − 1) mod 7 |
| CalendarDates.MakeMonth | client/src/pages/Calendar.tsx:58-64 | `new Date(year, month)` with an out-of-range month normalises to the month at the same position in the month count |
| CalendarDates.NextMonth | client/src/pages/Calendar.tsx:62-64 | one month later, the year rolling over after December |
| CalendarDates.PrevMonth | client/src/pages/Calendar.tsx:58-60 | one month earlier, the year rolling back before January |
| CalendarDates.NavigationRoundTrip | client/src/pages/Calendar.tsx:58-64 | next then previous, and previous then next, return the same month |
| CalendarDates.MonthIndexInjective | client/src/pages/Calendar.tsx:58-64 | a month is determined by its position in the month count |
| CalendarDates.ParseDateKey | client/src/pages/Calendar.tsx:327 | a key of three digit groups reads as a non-negative year, a zero-based month of at least −1 (a month field "00" gives −1) and a non-negative day |
| CalendarDates.DateKeyRoundTrip | client/src/pages/Calendar.tsx:88 | the `YYYY-MM-DD` key reads back as its year, month and day |
| CalendarDates.DateKeyInjective | client/src/pages/Calendar.tsx:88 | distinct days give distinct keys |
| CalendarDates.KeyDayOfKey | client/src/pages/Calendar.tsx:327 | `new Date(key)` of a page-built key is the day it names |
| CalendarDates.KeyDayOrder | client/src/pages/Calendar.tsx:326-328 | keys of an earlier month name earlier days |
| CalendarDates.DaysOrdered | client/src/pages/Calendar.tsx:327 | every day of an earlier month precedes every day of a later one |
| CalendarDates.MonthsOrdered | client/src/pages/Calendar.tsx:327 | the last day of a month precedes the first day of any later month |
| CalendarPage.EventsOnKey | client/src/pages/Calendar.tsx:95 | exactly the events stored under the key |
| CalendarPage.EventsOn | client/src/pages/Calendar.tsx:93-96 | exactly the events stored under the day's key |
| CalendarPage.EventInOneCell | client/src/pages/Calendar.tsx:93-96 | no event shows in two day cells of the same month |
| CalendarPage.BuildDays | client/src/pages/Calendar.tsx:100-110 | the two loops give `firstDay` blanks and then 1..daysInMonth |
| CalendarPage.MonthGrid | client/src/pages/Calendar.tsx:98-110 | day d sits at cell first + d − 1, in the column of its weekday, and at most 37 cells are built |
| CalendarPage.GridColumns | client/src/pages/Calendar.tsx:164-165 | every day cell lies in its weekday's column and holds a day of the month |
| CalendarPage.DayCell | client/src/pages/Calendar.tsx:192-208 | shows the first min(2, n) events, and "+(n − 2) mais" exactly when n > 2 |
| CalendarPage.ParseVolume | client/src/pages/Calendar.tsx:74 | no volume for the empty option |
| CalendarPage.VolumeOptionRoundTrip | client/src/pages/Calendar.tsx:291-292 | every volume option reads back as its number |
| CalendarPage.NewEvent | client/src/pages/Calendar.tsx:69-76 | the event takes the form's title, type and notes, the selected date, the parsed volume and `Date.now()` as id |
| CalendarPage.EventsWithout | client/src/pages/Calendar.tsx:84 | exactly the events with another id remain |
| CalendarPage.DeleteUndoesAdd | client/src/pages/Calendar.tsx:78-84 | deleting an event just added under a fresh id gives back the earlier list |
| CalendarPage.AddedEventShown | client/src/pages/Calendar.tsx:66-96 | an event added for a day shows in that day's cell |
| CalendarPage.CalendarState.constructor | client/src/pages/Calendar.tsx:26-35 | January 2026, no events, dialog closed, empty form |
| CalendarPage.CalendarState.RestoreEvents | client/src/pages/Calendar.tsx:38-43 | saved events replace the list; otherwise nothing changes |
| CalendarPage.CalendarState.ShowPrevMonth | client/src/pages/Calendar.tsx:58-60 | the month goes back one, nothing else changes |
| CalendarPage.CalendarState.ShowNextMonth | client/src/pages/Calendar.tsx:62-64 | the month goes forward one, nothing else changes |
| CalendarPage.CalendarState.DateClick | client/src/pages/Calendar.tsx:87-91 | the dialog opens on the clicked day's key of the shown month |
| CalendarPage.CalendarState.OpenDialogOn | client/src/pages/Calendar.tsx:225-230 | the dialog opens on today's key |
| CalendarPage.CalendarState.OpenDialog | client/src/pages/Calendar.tsx:221 | the dialog opens on the given date, nothing else changes |
| CalendarPage.CalendarState.EditForm | client/src/pages/Calendar.tsx:247-306 | the form and the date take the typed values |
| CalendarPage.CalendarState.AddEvent | client/src/pages/Calendar.tsx:66-81 | nothing changes when the title or date is empty. Otherwise exactly the new event is appended, the form is reset and the dialog closes |
| CalendarPage.CalendarState.DeleteEvent | client/src/pages/Calendar.tsx:83-85 | exactly the events with that id go |
| CalendarPage.CalendarState.Upcoming | client/src/pages/Calendar.tsx:326-328 | the events are sorted in place by their date (stably, a permutation). The side list is the first min(5, n) of them, no later than any event left out |
| DashboardPage.JsRem | client/src/pages/Dashboard.tsx:65 | JavaScript's remainder: Euclidean for non-negative dividends, in (−d, 0] for negative ones |
| DashboardPage.SplitMinutes | client/src/pages/Dashboard.tsx:63-65 | hours·60 + minutes = total, with 0 ≤ minutes < 60 |
| DashboardPage.SplitRoundTrip | client/src/pages/Dashboard.tsx:63-65 | hours and minutes below 60 are split back exactly |
| DashboardPage.VolumeTimeOf | client/src/pages/Dashboard.tsx:68-77 | the bar is labelled `Vol <n>` with the volume title. Its minutes are exactly the sum over the sessions naming the volume, so they lie between 0 and the total, and are 0 when no session names it |
| DashboardPage.VolumeBarsAddUp | client/src/pages/Dashboard.tsx:68-77 | over a catalogue with distinct ids, the bars together hold exactly the minutes of the sessions naming a catalogue volume, each counted once, and so never more than the total study time |
| DashboardPage.TimeByVolume | client/src/pages/Dashboard.tsx:68-77 | one bar per catalogue volume, in catalogue order |
| DashboardPage.FilterNoneWhenAbsent | client/src/pages/Dashboard.tsx:69-70 | a volume that no session names has no sessions |
| DashboardPage.ProgressOf | client/src/pages/Dashboard.tsx:80-90 | 0 without topics, else the nearest integer to 100·records of the volume / topics, within 0..100 when the records do not outnumber the topics |
| DashboardPage.ProgressByVolume | client/src/pages/Dashboard.tsx:80-90 | one bar per catalogue volume, in catalogue order |
| DashboardPage.MonthlyProgress | client/src/pages/Dashboard.tsx:104-118 | twelve points. The point of month m counts and sums exactly the sessions dated in m |
| DashboardPage.MonthlyProgressAddsUp | client/src/pages/Dashboard.tsx:104-118 | over the twelve points, sessions and minutes add up to those of the dated sessions, so each session is counted once |
| DashboardPage.SessionInItsMonth | client/src/pages/Dashboard.tsx:107-110 | a session is in month m's point exactly when it is dated in m |
| DashboardPage.TotalTopics | client/src/pages/Dashboard.tsx:125 | positive once the first volume has topics |
| DashboardPage.OverallProgress | client/src/pages/Dashboard.tsx:121-126 | 0 without topics, else the nearest integer to 100·done / topics: 100 when all are done, 0 when none is |
| DashboardPage.TipFor | client/src/pages/Dashboard.tsx:292-315 | exactly one of the four tips applies to any progress (thresholds 25, 50, 75) |
| DashboardPage.TipMonotone | client/src/pages/Dashboard.tsx:292-315 | more progress never shows an earlier tip |
| DashboardPage.Insights | client/src/pages/Dashboard.tsx:291-327 | the tip first, then the pending-review reminder exactly when reviews are pending, then the study advice exactly when fewer than 10 hours are studied |
| DashboardPage.FromTimerSession | client/src/pages/Dashboard.tsx:40-48 | a session saved by the study log reads with no volume and no month |
| DashboardPage.FromTimerSessions | client/src/pages/Dashboard.tsx:40-48 | each saved session is read in order |
| DashboardPage.TimerSessionsUncharted | client/src/pages/Dashboard.tsx:63-118 | the study log's sessions count in the total time but in no volume bar and no month point |
| DashboardPage.TimerTotals | client/src/pages/Dashboard.tsx:63 | the dashboard's total time equals the study log's |
| StrategicSchedulePage.UniqueInOrder | client/src/pages/StrategicSchedule.tsx:27 | the same members, without duplicates |
| StrategicSchedulePage.UniqueInOrderIsFirstOccurrenceOrder | client/src/pages/StrategicSchedule.tsx:27 | the members keep the order of their first occurrences |
| StrategicSchedulePage.Phases | client/src/pages/StrategicSchedule.tsx:26-29 | no duplicates, and exactly the weeks' phases |
| StrategicSchedulePage.PhaseColumn | client/src/pages/StrategicSchedule.tsx:27 | the phase of every week, in order |
| StrategicSchedulePage.WeeksByPhase | client/src/pages/StrategicSchedule.tsx:31-36 | one group per phase, holding that phase's weeks in schedule order |
| StrategicSchedulePage.WeekInItsGroup | client/src/pages/StrategicSchedule.tsx:33 | a week is in a group exactly when it has that phase |
| StrategicSchedulePage.GroupNonEmpty | client/src/pages/StrategicSchedule.tsx:182 | every group has a first week |
| StrategicSchedulePage.GroupStart | client/src/pages/StrategicSchedule.tsx:180-183 | a group's first week is a week of the schedule with that phase |
| StrategicSchedulePage.GroupsInWeekOrder | client/src/pages/StrategicSchedule.tsx:31-36 | groups of a plan sorted by week are sorted by week |
| StrategicSchedulePage.MissingCountsAsZero | client/src/pages/StrategicSchedule.tsx:68-74 | a topic without hours or questions adds nothing to either total |
| StrategicSchedulePage.PhaseTotalsOverTopics | client/src/pages/StrategicSchedule.tsx:173-174 | summing week totals is summing over all their topics |
| StrategicSchedulePage.PhaseTotalCons | client/src/pages/StrategicSchedule.tsx:173-174 | a week adds to its own phase's total only |
| StrategicSchedulePage.PhaseTotalsPartition | client/src/pages/StrategicSchedule.tsx:171-174 | over distinct phases that cover every week, the phase totals add up to the total over the weeks |
| StrategicSchedulePage.PhaseCardsAddUp | client/src/pages/StrategicSchedule.tsx:171-174 | the phase cards' hours and questions add up to the plan's |
| StrategicSchedulePage.WeekIndex | client/src/pages/StrategicSchedule.tsx:38 | the first position of the week number, none exactly when absent |
| StrategicSchedulePage.FindWeek | client/src/pages/StrategicSchedule.tsx:38 | the first week with that number, none exactly when absent |
| StrategicSchedulePage.FirstTopicPreselection | client/src/pages/StrategicSchedule.tsx:95-109 | the volume, chapter and topic ids of the week's first topic |
| StrategicSchedulePage.Summaries | client/src/pages/StrategicSchedule.tsx:83-89 | one summary per topic, with its id and volume |
| StrategicSchedulePage.ParseWeekNumber | client/src/pages/StrategicSchedule.tsx:22 | a parsed week number is non-negative |
| StrategicSchedulePage.WeekNumberRoundTrip | client/src/pages/StrategicSchedule.tsx:22 | a saved week number reads back as itself |
| StrategicSchedulePage.StrategicState.constructor | client/src/pages/StrategicSchedule.tsx:12-24 | week 1 of "FASE 1: Fundamentos", the active week read back from local storage |
| StrategicSchedulePage.StrategicState.SelectWeek | client/src/pages/StrategicSchedule.tsx:216-218 | only the selected week changes |
| StrategicSchedulePage.StrategicState.SelectPhase | client/src/pages/StrategicSchedule.tsx:180-183 | the phase is selected together with its first week |
| StrategicSchedulePage.StrategicState.StartWeek | client/src/pages/StrategicSchedule.tsx:80-117 | starts exactly when the selected week exists and has topics. Then the preselection (shared and saved) becomes its first topic and the week becomes active. Its number, title and topics go to session storage and the page navigates to `/schedule`; otherwise nothing changes |
| StrategicSchedulePage.StrategicState.StartWeekRemembered | client/src/pages/StrategicSchedule.tsx:80-117 | the same start, with the week number saved where the page reads it back |
| StrategicSchedulePage.ActiveWeekLostOnReturn | client/src/pages/StrategicSchedule.tsx:19-24 | after a week is started, reopening the page shows no active week |
| StrategicSchedulePage.ActiveWeekKeptOnReturn | client/src/pages/StrategicSchedule.tsx:19-24 | with the corrected start, reopening the page shows the started week as active |
| FmeVolumes.VolumeById | client/src/data/fmeVolumes.ts:228-230 | the first volume with that id, none exactly when no volume has it |
| FmeVolumes.FindVolumeIndex | client/src/data/fmeVolumes.ts:229 | the first position of the id, none exactly when absent |
| FmeVolumes.GetVolumeById | client/src/data/fmeVolumes.ts:228-230 | a catalogue volume with that id, undefined exactly when none has it |
| FmeVolumes.GetVolumeByIdExact | client/src/data/fmeVolumes.ts:228-230 | each catalogue volume is found by its own id |
| FmeVolumes.EmptyIdUnknown | client/src/data/fmeVolumes.ts:228-230 | the empty selection names no volume |
| FmeVolumes.TopicsById | client/src/data/fmeVolumes.ts:232-235 | the volume's topics, or none for an unknown id |
| FmeVolumes.GetTopicsByVolume | client/src/data/fmeVolumes.ts:232-235 | the catalogue volume's topics, or none for an unknown id |
| FmeVolumes.GetAllTopics | client/src/data/fmeVolumes.ts:237-243 | one entry per volume, in order, with its number, title and topics |
| FmeVolumes.Volume1Shape | client/src/data/fmeVolumes.ts:17-35 | id `vol1`, number 1, ten topics prefixed `vol1-` |
| FmeVolumes.Volume2Shape | client/src/data/fmeVolumes.ts:36-54 | id `vol2`, number 2, ten topics prefixed `vol2-` |
| FmeVolumes.Volume3Shape | client/src/data/fmeVolumes.ts:55-73 | id `vol3`, number 3, ten topics prefixed `vol3-` |
| FmeVolumes.Volume4Shape | client/src/data/fmeVolumes.ts:74-92 | id `vol4`, number 4, ten topics prefixed `vol4-` |
| FmeVolumes.Volume5Shape | client/src/data/fmeVolumes.ts:93-111 | id `vol5`, number 5, ten topics prefixed `vol5-` |
| FmeVolumes.Volume6Shape | client/src/data/fmeVolumes.ts:112-130 | id `vol6`, number 6, ten topics prefixed `vol6-` |
| FmeVolumes.Volume7Shape | client/src/data/fmeVolumes.ts:131-149 | id `vol7`, number 7, ten topics prefixed `vol7-` |
| FmeVolumes.Volume8Shape | client/src/data/fmeVolumes.ts:150-168 | id `vol8`, number 8, ten topics prefixed `vol8-` |
| FmeVolumes.Volume9Shape | client/src/data/fmeVolumes.ts:169-187 | id `vol9`, number 9, ten topics prefixed `vol9-` |
| FmeVolumes.Volume10Shape | client/src/data/fmeVolumes.ts:188-206 | id `vol10`, number 10, ten topics prefixed `vol10-` |
| FmeVolumes.Volume11Shape | client/src/data/fmeVolumes.ts:207-225 | id `vol11`, number 11, ten topics prefixed `vol11-` |
| FmeVolumes.CatalogueNumbered | client/src/data/fmeVolumes.ts:16-226 | eleven volumes numbered 1..11 in order, each well shaped |
| FmeVolumes.NumberedDistinct | client/src/data/fmeVolumes.ts:16-226 | well-numbered volumes have distinct ids |
| FmeVolumes.CatalogueShape | client/src/data/fmeVolumes.ts:16-226 | eleven well-shaped volumes with distinct ids, and exactly volumes 8, 9 and 10 complementary |

## Left out

- Storage. Reads and writes of `localStorage` and `sessionStorage`, and the `useEffect` hooks that persist
  state, are not modelled. Loaded values are constructor parameters; the strategic page's storage is a `map` field.
- The `setInterval` timer. Time passing is `SchedulePage.ScheduleState.Tick`, one call per second.
- `Date`. `Date.now()`, `new Date()` and time zones are left out, and so is daylight saving in `setDate`. The planner's dates are day
  numbers, the study log's are milliseconds, and "now" and "today" are parameters. The dashboard reads each session's month
  as a parameter (`DashboardSession.month`), because it depends on the local time zone.
- CalendarDates.Weekday: it uses the proleptic Gregorian calendar for every year. JavaScript maps the years 0–99 to 1900–1999
  when building a `Date` from parts; the model does not.
- CalendarDates.KeyDay: text that does not name a calendar date orders as day 0. `new Date` gives `NaN`, which makes the
  comparator of `events.sort` inconsistent; the model does not capture that.
- CalendarPage.ParseVolume: only the digit strings the volume select offers are read as numbers. `parseInt` prefix parsing of
  other text is not modelled.
- StrategicSchedulePage.ParseWeekNumber: the same limit on `parseInt` applies to the saved week number.
- The "today" highlight of the calendar grid (`isToday`) is display only.
- Locale formatting (`toLocaleDateString`, `toLocaleString`). The CSV's date column is the function parameter `formatDate`.
- PlannerSummary.ComputeStats: `totalHours` and `completedHours` (rounded to one decimal) are floating-point displays and are not
  modelled; the minutes they come from are.
- DashboardPage.VolumeTimeOf: the bar is kept in whole minutes. The page shows `Math.round(minutes / 60 * 10) / 10` hours, a
  floating-point value.
- DashboardPage.MonthlyProgress: the monthly minutes are likewise kept unrounded in minutes.
- Floating-point artefacts of `Math.round(x / y * 100)` are not modelled; the percentage is the exact nearest integer, halves up.
- CSV quoting. The export does not quote, and `PlannerSummary.CommaInTopicShiftsColumns` shows the effect. The Blob, the
  object URL and the download anchor are browser APIs and are left out.
- The curriculum the planner and the guide read (`volume.chapters[].topics[].durationMinutes`) is a parameter of type
  `seq<StudyVolume>`. The catalogue in `fmeVolumes.ts` has no chapters, so that data is not part of this model.
- The `strategicSchedule` data module is not part of this model; the plan is a parameter.
- SchedulePage.ScheduleState.SelectVolume: it requires a catalogue volume id, because the select offers only those.
- Rendering, toasts, colour and badge helpers, and the recharts charts are left out. The pages `Home`, `Sidebar`, `App` and the
  preselection context are pure UI or routing.

## Findings

| source | as written | input that shows it | evidently intended | confidence | as-written member | corrected member |
|---|---|---|---|---|---|---|
| client/src/pages/Schedule.tsx:203-205 | `completeVolume` clears the selected volume and the seconds but leaves `timerActive` true | start a session, complete the volume while the timer runs, wait one second, end the session: `selectedVolume!` is undefined and `endSession` throws | stop the timer when the volume is completed | not executed | SchedulePage.CompleteVolumeLeavesTimerRunning | SchedulePage.ScheduleState.CompleteVolumeStoppingTimer |
| client/src/pages/StrategicSchedule.tsx:19-24 | `handleStartWeek` saves `currentWeekNumber` to session storage (line 91), but the page reads it back from local storage | start week 1 with an empty local storage and reopen the page: no week is shown active | save the week number where the page reads it | not executed | StrategicSchedulePage.ActiveWeekLostOnReturn | StrategicSchedulePage.ActiveWeekKeptOnReturn |
