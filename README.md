# EduTaskAI task engine, modelled in Dafny

EduTaskAI is a study planner. A student keeps subjects and tasks. Each task has a deadline, a
time estimate in minutes, a priority (low, medium or high), a type and a completion flag. The
server keeps everything in an in-memory store (`MemStorage`). That store answers these queries:

- the tasks due on a day, most urgent first;
- the upcoming tasks;
- a suggested next task, with a reason text;
- a day plan that lays the day's tasks out from 10:00 with 30-minute breaks;
- each subject's share of the tasks;
- a seven-day progress rollup.

A second suggestion service asks a language model for the next task. When that call fails, it
falls back to a fixed rule: earliest deadline first, then priority. The client formats
statuses, labels, durations, clock times and badge tables.

This project models those parts:

- `schema.dfy` (`Schema`): the shared record types, the priority, task-type and status
  enums, and the insert and update field sets.
- `storage.dfy` (`Storage`): the store as a class. Its fields are three maps, a key-order
  sequence for each map (a JavaScript `Map` iterates in insertion order) and three id
  counters.
  - Creation, update and deletion are methods. Each one states the whole new state.
  - The queries are functions of that state, or methods where the source loops.
- `ranking.dfy` (`Ranking`): the store's suggestion order, and the day view's priority sort.
- `reasons.dfy` (`Reasons`): the reason texts, with a strict reader as their partner.
- `schedule.dfy` (`Schedule`): the day plan's layout loop, in whole minutes after midnight,
  and its clock strings.
- `analytics.dfy` (`Analytics`): the subject distribution and the weekly rollup, including
  the rollup's reversed weekday labels.
- `suggestion.dfy` (`Suggestion`): `generateTaskSuggestion`. This covers its two guards, the
  model's reply as an opaque outcome, and the fallback.
- `display.dfy` (`Display`): the client helpers.
- Supporting modules:
  - `clock.dfy` (`Clock`): time as integer milliseconds and calendar days as floor
    division by 86 400 000. The current time `now` is a parameter.
  - `decimal.dfy` (`Decimal`): number rendering and reading.
  - `stable_sort.dfy` (`StableSort`): a stable sort, standing for `Array.prototype.sort`.
  - `seqs.dfy` (`Seqs`): filter, find and sum.
  - `wrappers.dfy` (`Wrappers`): `Option` and `Result`.

Each text the system builds has a strict reader beside it. Round-trip lemmas prove that the
text reads back as what it was built from. Examples are "Due in 1 day" against "Due in 2
days", "1 hour 5 min", and "9:05 AM". An expression like `Array.prototype.sort(cmp)[0]` is
modelled as a selection loop. The loop returns the first element that nothing ranks ahead of.
A stable sort by a strict weak order puts exactly that element first. The comparators are
proved to be strict weak orders, and `FirstBestUnique` and `FirstEarliestUnique` prove that
only one element fits. That the loop's pick is element 0 of a sort rests on these lemmas; it
is not proved against a sort function, because `StableSort.Sort` sorts by an integer key.

In two places the code does not do what it evidently means to; the model follows the code:

- The comparator at server/storage.ts:206 (and again at 256, 266 and 273) is meant to order
  tasks by deadline. It compares `parseISO(date.toString())` values, and that text is not
  ISO 8601, so the comparison is always NaN and the sort keeps store order. The model
  therefore lists these tasks in store order.
- The comment at server/storage.ts:311 announces the last 7 days. The loop labels entry `k`
  with the weekday of `today - (6 - k)`, but the lookup puts a task due `k` days ago in
  entry `k`. The model keeps this reversal, and `Analytics.WeekLabelsReversed` states it.

## Model

| member | source | states |
|---|---|---|
| Schema.PriorityNamesExact | shared/schema.ts:25-25 | a string names a priority exactly when it is "low", "medium" or "high", and each name stands for exactly one priority |
| Schema.TaskTypeNamesExact | shared/schema.ts:22-22 | the task-type enum is exactly {"assignment", "project", "exam", "study"}, one type per name |
| Schema.StatusNamesExact | shared/schema.ts:90-90 | the status type is exactly {"completed", "in_progress", "not_started", "overdue"}, one status per name |
| Storage.MemStorage.constructor | server/storage.ts:48-164 | a new store holds the demo user, four subjects and four tasks in seeding order, each stored under its own id; the counters are 2, 5 and 5, one past the seeded ids |
| Storage.DemoUserStore | server/storage.ts:60-69 | the seeded user map is a consistent ledger (keys in order, all below the counter), listing the demo user under id 1 |
| Storage.DemoSubjectStore | server/storage.ts:72-99 | the four seeded subjects form a ledger with ids 1 to 4 and are listed in seeding order |
| Storage.DemoTaskStore | server/storage.ts:102-163 | the four seeded tasks form a ledger with ids 1 to 4 and are listed in seeding order |
| Storage.DemoSuggestion | server/storage.ts:108-161 | right after seeding, the ranker's choice among the demo tasks is the high-priority task due today |
| Storage.SeededLedger | server/storage.ts:163-163 | storing a list under ids 1..n, one at a time with `set`, gives a ledger whose values in order are the list |
| Storage.LedgerInsert | server/storage.ts:221-221 | `set` under the counter's fresh id appends that id to the iteration order and keeps the ledger consistent |
| Storage.LedgerReplace | server/storage.ts:234-234 | `set` on an existing id keeps the id's place in the iteration order |
| Storage.LedgerRemove | server/storage.ts:239-239 | `delete` removes the id from the iteration order and keeps the ledger consistent |
| Storage.ValuesAfterRemove | server/storage.ts:239-239 | after `delete`, the listed values are the old ones with that id's value filtered out, in the same order |
| Storage.MemStorage.GetUser | server/storage.ts:167-169 | is a user exactly when the id is stored, and then it is the user stored under that id |
| Storage.MemStorage.GetUserByUsername | server/storage.ts:171-175 | none exactly when no listed user has the name; otherwise the first such user in insertion order |
| Storage.MemStorage.CreateUser | server/storage.ts:177-182 | the new user takes the old counter as id; the counter goes up by one; the user is appended to the listing; subjects and tasks are unchanged |
| Storage.MemStorage.GetSubjects | server/storage.ts:185-189 | exactly the listed subjects owned by the user |
| Storage.MemStorage.GetSubject | server/storage.ts:191-193 | the subject stored under the id, or none exactly when there is no such id |
| Storage.MemStorage.CreateSubject | server/storage.ts:195-200 | the new subject takes the old counter as id and is appended to the listing; the counter goes up by one; users and tasks are unchanged |
| Storage.MemStorage.GetTasks | server/storage.ts:203-207 | exactly the listed tasks owned by the user |
| Storage.MemStorage.TaskListIsStore | server/storage.ts:203-207 | a task is listed exactly when it is stored under its own id |
| Storage.MemStorage.GetTask | server/storage.ts:209-211 | the task stored under the id, or none exactly when there is no such id |
| Storage.MemStorage.CreateTask | server/storage.ts:213-223 | the new task takes the old counter as id, is not completed, is created at `now` and copies every supplied field; the counter goes up by one; the task is appended; no other task, user or subject changes |
| Storage.Merge | server/storage.ts:229-232 | the merged task keeps the stored id, owner and creation time, because an update cannot supply them |
| Storage.MergeLaws | server/storage.ts:229-232 | the empty update changes nothing; applying an update twice is applying it once; two updates in a row equal one update with the later fields winning |
| Storage.CompleteOnly | server/storage.ts:229-232 | supplying only `completed: true` changes the completion flag and nothing else |
| Storage.MemStorage.UpdateTask | server/storage.ts:225-236 | none exactly when the id is missing, and then the store is unchanged; otherwise the merged task replaces the stored one at its place in the listing and nothing else changes |
| Storage.MemStorage.DeleteTask | server/storage.ts:238-240 | true exactly when the id was stored; afterwards the id is absent, the listing is the old one without that task, and nothing else changes |
| Storage.MemStorage.GetTasksByDate | server/storage.ts:243-258 | exactly the user's tasks whose deadline falls on the date's calendar day, high before medium before low, and within each priority in store order |
| Storage.ByUrgencyKeeps | server/storage.ts:252-257 | the day view's sort keeps every task, orders by priority rank, and keeps each priority's tasks in their original order |
| Storage.MemStorage.GetUpcomingTasks | server/storage.ts:260-268 | the store-order prefix of the user's incomplete tasks due after `now`; its length is the smaller of `limit` and their number, and for a negative limit their number less that many (not below 0); fewer than `limit` only when all of them are there; the limit defaults to 10 |
| Storage.MemStorage.GetTasksBySubject | server/storage.ts:270-274 | exactly the user's listed tasks whose subject id is the given one |
| Storage.CountSubjects | server/storage.ts:282-287 | the counting loop leaves, for every subject id, the number of tasks with that truthy id, and 0 for ids never seen |
| Storage.SubjectCountStep | server/storage.ts:283-287 | one more task adds one to its own subject's count, when it has a subject, and changes no other count |
| Storage.MemStorage.GetSubjectDistribution | server/storage.ts:277-305 | the result is the distribution of the user's subjects over all of the user's tasks, which `Analytics.DistributionShape` characterises |
| Storage.MemStorage.GetWeeklyProgress | server/storage.ts:307-343 | the two loops build exactly the week report of the user's tasks for today's calendar day |
| Storage.StorageReasonMeaning | server/storage.ts:378-391 | the reason is "Due today" exactly on today's date, even if that moment has passed; otherwise "Overdue" exactly for earlier days; otherwise "Due in N day(s)" with N the floor of the days left, at least 0; the high-priority suffix appears exactly for high priority; the reason reads back as that phrase and flag |
| Storage.DueInZeroDays | server/storage.ts:384-386 | the phrase is "Due in 0 days" exactly when the deadline is on a later day but less than 24 hours away, and that day is always tomorrow |
| Storage.StorageDue | server/storage.ts:378-387 | the deadline phrase; `Storage.StorageReasonMeaning` and `Storage.DueInZeroDays` give its meaning |
| Storage.StorageReason | server/storage.ts:378-391 | the reason text; `Storage.StorageReasonMeaning` reads it back |
| Storage.SuggestionFor | server/storage.ts:374-400 | the suggestion record; `Storage.MemStorage.GetSuggestedNextTask` states which task it is built from |
| Storage.MemStorage.GetSuggestedNextTask | server/storage.ts:346-401 | none exactly when all of the user's tasks are completed or there are none; otherwise the suggestion, with its reason and subject name, for the first incomplete task that no other incomplete task ranks ahead of |
| Ranking.DaysLeft | server/storage.ts:363-364 | whole days left are never negative, are 0 exactly when less than a day remains, and are otherwise the floor of the days left |
| Ranking.RanksAhead | server/storage.ts:355-369 | the suggestion comparator; `Ranking.RanksAheadStrictWeakOrder` and `Ranking.FirstBestDominates` give its meaning |
| Ranking.RanksAheadStrictWeakOrder | server/storage.ts:355-369 | the suggestion comparator is irreflexive and transitive, and incomparability is transitive, so the sort is well defined |
| Ranking.FirstBestUnique | server/storage.ts:355-371 | exactly one element can be first after the stable sort |
| Ranking.FirstBestDominates | server/storage.ts:355-371 | the chosen task has the greatest priority weight, and among tasks of that weight the fewest clamped days left |
| Ranking.PickNext | server/storage.ts:355-371 | the selection loop returns the index that sorting and taking element 0 picks |
| Ranking.ByUrgencyBlocks | server/storage.ts:252-257 | the day view's order is all high-priority tasks, then all medium, then all low, each block in store order |
| StableSort.Sort | server/storage.ts:304-304 | sorting returns a permutation of the input ordered by the key |
| StableSort.SortStable | server/storage.ts:304-304 | the sort is stable: elements sharing a key keep their original order |
| Reasons.ParseDueIn | server/storage.ts:386-386 | "Due in N day" with "s" exactly when N is not 1 reads back as N |
| Reasons.ParseDueText | server/storage.ts:380-387 | every deadline phrase reads back as itself |
| Reasons.NoSuffixInDue | server/storage.ts:389-391 | no deadline phrase ends with the high-priority suffix, so the suffix is unambiguous |
| Reasons.ReasonRoundTrip | server/storage.ts:378-391 | a deadline phrase, with or without the high-priority suffix, reads back as that phrase and that flag |
| Clock.StartOfDay | server/storage.ts:244-244 | the start of the day is at or before the moment, less than a day before it, and on the same day |
| Clock.AddDays | server/storage.ts:314-314 | adding n days moves the calendar day by n |
| Clock.HourOf | server/storage.ts:410-410 | the current hour is from 0 to 23 |
| Clock.FloorDaysBounds | server/storage.ts:385-385 | the floor day count puts the interval in that whole-day window |
| Clock.CeilDays | server/openai.ts:109-109 | the ceiling day count is the least whole number of days that covers the interval |
| Clock.IsoDate | server/storage.ts:444-444 | `format(date, 'yyyy-MM-dd')` through the civil calendar; `Clock.CivilFromDaysRange`, `Clock.CivilEpoch` and `Clock.CivilLeapDay` check that calendar |
| Clock.CivilFromDaysRange | server/storage.ts:444-444 | every day number has a month from 1 to 12 and a day of the month from 1 to 31 |
| Clock.CivilEpoch | server/storage.ts:444-444 | day 0 is 1970-01-01 |
| Clock.CivilLeapDay | server/storage.ts:444-444 | day 11016 is 2000-02-29, a leap day of a year divisible by 400 |
| Clock.JsRem | server/storage.ts:420-420 | JavaScript's `%` is less than the divisor in size, agrees with the Euclidean remainder on non-negative dividends, and takes the dividend's sign |
| Clock.WeekdayName | server/storage.ts:315-315 | a weekday label is three characters |
| Clock.WeekdayNamesDistinct | server/storage.ts:313-315 | seven consecutive days carry seven different labels |
| Schedule.SubjectNameIn | server/storage.ts:424-425 | "No Subject" for a falsy or unknown subject id, and otherwise the stored subject's name |
| Schedule.BlockTime | server/storage.ts:420-421 | the block clock text; `Schedule.BlockTimeRoundTrip`, `Schedule.BlockTimeParts` and `Schedule.AfternoonHour` give its meaning |
| Schedule.IsCurrentBlock | server/storage.ts:428-428 | the current-block test; `Schedule.NoCurrentWithinOneHour` states what it excludes |
| Schedule.BlockTimeRoundTrip | server/storage.ts:420-421 | every block time reads back as its minute: the unwrapped hour, then "00" or the unpadded minutes, then the period |
| Schedule.BlockTimeParts | server/storage.ts:420-420 | a block time is the floor hour, a colon, the minutes text and the period |
| Schedule.AfternoonHour | server/storage.ts:420-421 | the period is "PM" exactly from 12:00 on |
| Schedule.NoCurrentWithinOneHour | server/storage.ts:428-428 | a block that starts and ends within one clock hour is never current |
| Schedule.Layout | server/storage.ts:412-441 | one block per eligible task, in order, each carrying its task's id |
| Schedule.BlockStartStep | server/storage.ts:408-440 | the first block starts at 10:00, and each later one 30 minutes after the previous block ends |
| Schedule.BlocksDisjoint | server/storage.ts:416-440 | with positive estimates, every block ends after it starts and every later block starts at least 30 minutes after it ends |
| Schedule.NothingEligible | server/storage.ts:412-413 | when every task of the day is completed there are no blocks and nothing is allocated |
| Schedule.EligibleStep | server/storage.ts:413-413 | one more task becomes eligible exactly when it is not completed |
| Schedule.FillStateIsLayout | server/storage.ts:412-441 | after the first i tasks, the loop state is the layout of the eligible ones, the cursor where the next block starts, and their total estimate |
| Schedule.FillStateNext | server/storage.ts:412-441 | one step skips a completed task, and otherwise appends its block, adds its estimate and moves the cursor past a 30-minute break |
| Schedule.FillBlocks | server/storage.ts:412-441 | the `forEach` loop ends in the loop state after the last task, its blocks and its total |
| Schedule.FillStateComplete | server/storage.ts:407-441 | after the last task, the blocks are the layout of the incomplete tasks and the total is the sum of their estimates |
| Storage.MemStorage.GenerateDailySchedule | server/storage.ts:403-448 | the plan's date is the day's ISO date, its blocks are the layout of the day's incomplete tasks in the day view's order, and its total is the sum of their estimates |
| Analytics.Percentage | server/storage.ts:293-293 | the rounded share; `Analytics.PercentageBounds`, `Analytics.NoTasksNoShare` and `Analytics.SoleSubjectIsWhole` give its meaning |
| Analytics.Distribution | server/storage.ts:289-304 | the sorted distribution; `Analytics.DistributionShape` gives its meaning |
| Analytics.PercentageBounds | server/storage.ts:293-293 | a rounded share of at most the whole is from 0 to 100: 0 for no tasks and 100 for all of them |
| Analytics.Entries | server/storage.ts:291-301 | one entry per subject, before sorting |
| Analytics.DistributionShape | server/storage.ts:289-304 | one entry per subject, no more and no fewer, each percentage from 0 to 100, highest first |
| Analytics.NoTasksNoShare | server/storage.ts:293-293 | with no tasks every share is 0 |
| Analytics.SoleSubjectIsWhole | server/storage.ts:282-293 | a subject that all of a non-empty task list counts for gets 100 |
| Analytics.WeekReport | server/storage.ts:312-342 | the rollup always has seven entries |
| Analytics.WeekReportBounds | server/storage.ts:312-340 | in every entry, completed tasks are at most all tasks; study time is not negative for non-negative estimates; with no tasks each entry is its weekday label with zero counts |
| Analytics.WeekLabelsReversed | server/storage.ts:313-331 | entry k is labelled with the weekday of today − (6 − k) but counts the tasks due k days ago; for k other than 3 the label is not that day's weekday |
| Analytics.LabelIndexOf | server/storage.ts:329-329 | looking a label up in the week finds its own entry, because the seven labels differ |
| Analytics.WeekIndexArithmetic | server/storage.ts:328-331 | the lookup puts a task due k days ago (0 to 6) in entry k, and in no entry otherwise |
| Analytics.WeekEntryStep | server/storage.ts:326-340 | counting one more task tallies it in the entry for its day |
| Analytics.WeekStep | server/storage.ts:326-340 | counting one more task changes only its day's entry: one more task, plus one completion and its estimate when completed; a task outside the week changes nothing |
| Suggestion.RanksEarlier | server/openai.ts:91-102 | the fallback comparator; `Suggestion.RanksEarlierStrictWeakOrder` and `Suggestion.FirstEarliestSoonest` give its meaning |
| Suggestion.FallbackDue | server/openai.ts:109-113 | the fallback's deadline phrase; `Suggestion.FallbackReasonMeaning` gives its meaning |
| Suggestion.RanksEarlierStrictWeakOrder | server/openai.ts:91-102 | the fallback comparator is a strict weak order |
| Suggestion.FirstEarliestUnique | server/openai.ts:91-102 | exactly one element can be first after the fallback's sort |
| Suggestion.FirstEarliestSoonest | server/openai.ts:91-102 | the fallback's pick has the earliest deadline, and on equal deadlines the highest priority |
| Suggestion.PickEarliest | server/openai.ts:91-102 | the selection loop returns the index that sorting and taking element 0 picks |
| Suggestion.FallbackDays | server/openai.ts:109-109 | days left are never negative; 0 exactly when the deadline has been reached; otherwise the ceiling of the days left |
| Suggestion.SubjectNameFor | server/openai.ts:104-119 | "No Subject" when no listed subject matches; any other name is the name of a matching subject |
| Suggestion.Fallback | server/openai.ts:115-122 | the fallback copies the task's id, title, estimate and deadline, and names its subject |
| Suggestion.FallbackReasonMeaning | server/openai.ts:109-113 | the reason is "Due today and urgent" exactly when the deadline has been reached, and otherwise "Due in N day(s)" with N at least 1 covering the interval; it never carries the high-priority suffix |
| Suggestion.GenerateTaskSuggestion | server/openai.ts:8-123 | both guard errors, in that order; otherwise the model's reply unchanged, or, when the call failed, the fallback for the fallback sort's first incomplete task |
| Display.GetTaskStatus | client/src/lib/utils.ts:11-20 | "completed" exactly when the task is completed; otherwise "overdue" exactly when the deadline is past and not today; otherwise "not started"; never "in progress" |
| Display.TomorrowIsNotPast | client/src/lib/utils.ts:37-43 | a deadline tomorrow is not in the past, so the "Due Tomorrow" branch never hides an overdue task |
| Display.TaskLabels | client/src/lib/utils.ts:23-53 | the label list; `Display.TaskLabelsLayout`, `Display.DeadlineLabelsMeaning` and `Display.SizeLabelsMeaning` give its meaning |
| Display.GenerateTaskLabels | client/src/lib/utils.ts:23-53 | the pushes build exactly the task's label list |
| Display.TaskLabelsLayout | client/src/lib/utils.ts:23-53 | exactly one priority label, first; at most one deadline label, second; one to three labels |
| Display.DeadlineLabelsMeaning | client/src/lib/utils.ts:36-43 | "Due Today" exactly for today, "Due Tomorrow" exactly for tomorrow, "Overdue" exactly for a past deadline that is not today |
| Display.SizeLabelsMeaning | client/src/lib/utils.ts:45-50 | "Quick Task" exactly up to 30 minutes and "Long Project" exactly from 180 minutes |
| Display.OverdueLabelMatchesStatus | client/src/lib/utils.ts:11-43 | the overdue status and the "Overdue" label agree on every incomplete task |
| Display.FormatTimeEstimate | client/src/lib/utils.ts:56-69 | the duration text; `Display.TimeEstimateRoundTrip` reads it back |
| Display.LeftoverRoundTrip | client/src/lib/utils.ts:66-66 | "R min" reads back as R, for R from 1 to 59 |
| Display.AfterHoursRoundTrip | client/src/lib/utils.ts:66-66 | the hour word followed by " R min" reads back as 60H + R |
| Display.ShortEstimateRoundTrip | client/src/lib/utils.ts:57-58 | below an hour, "m minutes" reads back as m |
| Display.HoursRoundTrip | client/src/lib/utils.ts:59-67 | "H hour(s)", with " R min" when R is not 0, reads back as 60H + R; the "s" is present exactly when H is not 1 |
| Display.TimeEstimateRoundTrip | client/src/lib/utils.ts:56-69 | every duration text reads back as the minutes it was made from |
| Display.FormatTime | client/src/lib/utils.ts:143-151 | the clock text; `Display.FormatTimeRoundTrip` and `Display.FormatTimeWraps` give its meaning |
| Display.PaddedMinutes | client/src/lib/utils.ts:148-148 | the minutes always take two digits and read back as themselves |
| Display.DialHourBack | client/src/lib/utils.ts:146-147 | the dial hour is from 1 to 12, and with the period it gives the hour of the day back |
| Display.ClockTextRoundTrip | client/src/lib/utils.ts:143-151 | a dial hour, padded minutes and period read back as the hour and minute they were made from |
| Display.FormatTimeRoundTrip | client/src/lib/utils.ts:143-151 | every minute of the day formats as a clock text that reads back as that minute |
| Display.FormatTimeWraps | client/src/lib/utils.ts:144-147 | from noon on, a time one day later formats the same, because the dial wraps every 12 hours |
| Display.GetSubjectInfo | client/src/lib/utils.ts:170-182 | ("No Subject", gray) for a falsy subject id; ("Unknown Subject", gray) when no listed subject matches; otherwise the first matching subject's name and color |
| Display.SubjectNamesAgree | client/src/lib/utils.ts:170-182 | the task card and the fallback suggestion name the same subject when it is found and named |
| Display.GetPriorityColorClass | client/src/lib/utils.ts:83-94 | the gray border exactly for a string that is not a priority |
| Display.GetPriorityVariant | client/src/lib/utils.ts:97-108 | the variant is one of destructive, warning and success |
| Display.GetStatusVariant | client/src/lib/utils.ts:111-124 | the variant is one of default, warning, success and destructive |
| Display.GetStatusLabel | client/src/lib/utils.ts:127-140 | "Unknown" exactly for a string that is not a status |
| Display.GetTaskTypeIcon | client/src/lib/utils.ts:154-167 | the default icon exactly for a string that is not a task type |
| Display.PriorityTables | client/src/lib/utils.ts:83-108 | high, medium and low get destructive, warning and success; an unknown priority gets destructive, like high; the three border classes differ |
| Display.StatusTables | client/src/lib/utils.ts:111-140 | each status has its own label, none "Unknown"; the destructive variant exactly for overdue; any other string gets "Unknown" and the default variant |
| Display.TaskTypeIconsDistinct | client/src/lib/utils.ts:154-167 | the four types have four different icons, none the default |
| Display.TaskBadge | client/src/lib/utils.ts:111-140 | a task's badge never reads "In Progress", and is destructive exactly when the task is incomplete and overdue |

## Left out

- Time zones and locales. Calendar days, `startOfDay`, `isToday`, `isTomorrow` and the
  day-of-week label are day numbers in UTC, with every day 24 hours long.
- `WeekdayName`: the locale-dependent text of `format(date, 'EEE')` is not modelled. The
  label is a fixed three-letter name per day number.
- Floating point:
  - The schedule's fractional hours are modelled in whole minutes, and `(x % 1) * 60` as
    the exact remainder.
  - The schedule's float artefacts are not modelled. For example, 20-minute steps can print
    as 19.999… minutes.
  - `Math.round` of a float ratio is exact half-up rounding here.
- `Display.FormatTime` takes the time as whole minutes after midnight, not a fractional
  hour. The `Math.round` of the fractional part is therefore not modelled, and neither are
  negative times.
- How `Date` values are parsed from strings: a deadline is already a millisecond count.
- The deadline comparator of `getTasks`, `getUpcomingTasks` and `getTasksBySubject`, and
  the day view's deadline tie-break. The comparator yields NaN, so the order is store
  order, and no property is stated about deadline order.
- `async` and `Promise`: the store's methods are synchronous here, since nothing runs
  concurrently.
- The language-model call, its prompt and its JSON reply. These are one opaque outcome. A
  reply is taken as already coerced into a suggestion, so the `Number`/`new Date`
  coercions are not modelled, and neither is the fact that the reply's task id is never
  checked against the input.
- `console.error` in the fallback path.
- `cn` (a class-name joiner) and `formatDeadline`, which relies on locale text from
  `formatDistanceToNow`.
- The routes, the bundled `index.js`, the React pages and components, `export-project.js`
  and `constants.ts`.
- The client types take the priority as the shared enum, not a free string. The lookup
  tables alone accept any string.
- The color column's database default "#4338ca" is not modelled. The in-memory store never
  applies it, and an insert record here always carries a color.
- The `{ ...insertUser }` spread of fields the caller leaves undefined: the insert records
  have every field.
- `Clock.IsoDate`: the text is not proved to read back as its day. The calendar it uses is
  checked through `Clock.CivilFromDaysRange` and two known days.
- `Schedule.BlockTimeRoundTrip`: no concrete block texts (such as "10:00 AM" or "13:00 PM")
  are stated as separate lemmas. The general round trip and `Schedule.BlockTimeParts`
  state the format instead.
- `Schedule.FillBlocks` states its result through the loop-state function `FillState`. The
  link to the block layout (`Schedule.FillStateComplete`) is a separate lemma, which the
  caller `Storage.MemStorage.GenerateDailySchedule` applies.
