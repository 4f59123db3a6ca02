/** The client's display helpers: a task's status and labels, duration and clock-time
    text, the subject shown beside a task, and the badge and icon tables. */
module Display {
  import opened Wrappers
  import opened Clock
  import opened Schema
  import opened Seqs
  import opened Decimal
  import Suggestion

  // ---------------------------------------------------------------------------------
  // Status

  /** `getTaskStatus`. The status "in progress" is never derived. */
  function GetTaskStatus(t: Task, now: Time): (s: TaskStatus)
    ensures s == Completed <==> t.completed
    ensures s == Overdue <==> !t.completed && IsPast(t.deadline, now) && !IsToday(t.deadline, now)
    ensures s == NotStarted <==> !t.completed && !(IsPast(t.deadline, now) && !IsToday(t.deadline, now))
    ensures s != InProgress
  {
    if t.completed then Completed
    else if IsPast(t.deadline, now) && !IsToday(t.deadline, now) then Overdue
    else NotStarted
  }

  // ---------------------------------------------------------------------------------
  // Labels

  datatype TaskLabel = TaskLabel(text: string, color: string)

  const HIGH_PRIORITY_LABEL: TaskLabel := TaskLabel("High Priority", "red")
  const MEDIUM_PRIORITY_LABEL: TaskLabel := TaskLabel("Medium Priority", "yellow")
  const LOW_PRIORITY_LABEL: TaskLabel := TaskLabel("Low Priority", "green")
  const DUE_TODAY_LABEL: TaskLabel := TaskLabel("Due Today", "blue")
  const DUE_TOMORROW_LABEL: TaskLabel := TaskLabel("Due Tomorrow", "blue")
  const OVERDUE_LABEL: TaskLabel := TaskLabel("Overdue", "red")
  const QUICK_TASK_LABEL: TaskLabel := TaskLabel("Quick Task", "gray")
  const LONG_PROJECT_LABEL: TaskLabel := TaskLabel("Long Project", "purple")

  function PriorityLabel(p: Priority): TaskLabel {
    match p
    case High => HIGH_PRIORITY_LABEL
    case Medium => MEDIUM_PRIORITY_LABEL
    case Low => LOW_PRIORITY_LABEL
  }

  predicate IsPriorityLabel(l: TaskLabel) {
    l == HIGH_PRIORITY_LABEL || l == MEDIUM_PRIORITY_LABEL || l == LOW_PRIORITY_LABEL
  }

  predicate IsDeadlineLabel(l: TaskLabel) {
    l == DUE_TODAY_LABEL || l == DUE_TOMORROW_LABEL || l == OVERDUE_LABEL
  }

  /** A moment due tomorrow is not in the past, so "Overdue" is never hidden by
      "Due Tomorrow". */
  lemma TomorrowIsNotPast(deadline: Time, now: Time)
    ensures IsTomorrow(deadline, now) ==> !IsPast(deadline, now)
  {
    if deadline < now {
      DayOfMonotone(deadline, now);
    }
  }

  /** The deadline label: today before tomorrow before overdue, or none. */
  function DeadlineLabels(deadline: Time, now: Time): seq<TaskLabel> {
    if IsToday(deadline, now) then [DUE_TODAY_LABEL]
    else if IsTomorrow(deadline, now) then [DUE_TOMORROW_LABEL]
    else if IsPast(deadline, now) then [OVERDUE_LABEL]
    else []
  }

  /** The size label: quick up to 30 minutes, long from 180, or none. */
  function SizeLabels(minutes: int): seq<TaskLabel> {
    if minutes <= 30 then [QUICK_TASK_LABEL]
    else if minutes >= 180 then [LONG_PROJECT_LABEL]
    else []
  }

  /** The labels of a task, in the order they are pushed. */
  function TaskLabels(t: Task, now: Time): seq<TaskLabel> {
    [PriorityLabel(t.priority)] + DeadlineLabels(t.deadline, now) + SizeLabels(t.timeEstimate)
  }

  /** `generateTaskLabels`: pushes the priority label, then the deadline label if any,
      then the size label if any. */
  method GenerateTaskLabels(t: Task, now: Time) returns (labels: seq<TaskLabel>)
    ensures labels == TaskLabels(t, now)
  {
    labels := [];
    match t.priority {
      case High => labels := labels + [HIGH_PRIORITY_LABEL];
      case Medium => labels := labels + [MEDIUM_PRIORITY_LABEL];
      case Low => labels := labels + [LOW_PRIORITY_LABEL];
    }
    assert labels == [PriorityLabel(t.priority)];
    if IsToday(t.deadline, now) {
      labels := labels + [DUE_TODAY_LABEL];
    } else if IsTomorrow(t.deadline, now) {
      labels := labels + [DUE_TOMORROW_LABEL];
    } else if IsPast(t.deadline, now) {
      labels := labels + [OVERDUE_LABEL];
    }
    assert labels == [PriorityLabel(t.priority)] + DeadlineLabels(t.deadline, now);
    if t.timeEstimate <= 30 {
      labels := labels + [QUICK_TASK_LABEL];
    } else if t.timeEstimate >= 180 {
      labels := labels + [LONG_PROJECT_LABEL];
    }
  }

  /** One priority label first, then at most one deadline label, then at most one size
      label: one to three labels, and no priority label after the first. */
  lemma TaskLabelsLayout(t: Task, now: Time)
    ensures var labels := TaskLabels(t, now);
            1 <= |labels| <= 3
            && labels[0] == PriorityLabel(t.priority)
            && (forall i :: 0 < i < |labels| ==> !IsPriorityLabel(labels[i]))
            && (forall i :: 0 <= i < |labels| && IsDeadlineLabel(labels[i]) ==> i == 1)
            && |labels| == 1 + |DeadlineLabels(t.deadline, now)| + |SizeLabels(t.timeEstimate)|
  {
    var d, z := DeadlineLabels(t.deadline, now), SizeLabels(t.timeEstimate);
    assert forall i :: 0 <= i < |d| ==> IsDeadlineLabel(d[i]) && !IsPriorityLabel(d[i]);
    assert forall i :: 0 <= i < |z| ==> !IsDeadlineLabel(z[i]) && !IsPriorityLabel(z[i]);
  }

  /** Each deadline label appears exactly when its case holds; a task due tomorrow cannot
      be past, so "Overdue" stands for past and not today. */
  lemma DeadlineLabelsMeaning(t: Task, now: Time)
    ensures DUE_TODAY_LABEL in TaskLabels(t, now) <==> IsToday(t.deadline, now)
    ensures DUE_TOMORROW_LABEL in TaskLabels(t, now) <==> IsTomorrow(t.deadline, now)
    ensures OVERDUE_LABEL in TaskLabels(t, now) <==> IsPast(t.deadline, now) && !IsToday(t.deadline, now)
  {
    TomorrowIsNotPast(t.deadline, now);
    var d, z := DeadlineLabels(t.deadline, now), SizeLabels(t.timeEstimate);
    assert TaskLabels(t, now) == [PriorityLabel(t.priority)] + d + z;
    assert !IsDeadlineLabel(PriorityLabel(t.priority));
    assert forall i :: 0 <= i < |z| ==> !IsDeadlineLabel(z[i]);
  }

  /** "Quick Task" appears exactly up to 30 minutes and "Long Project" exactly from 180,
      so never both. */
  lemma SizeLabelsMeaning(t: Task, now: Time)
    ensures QUICK_TASK_LABEL in TaskLabels(t, now) <==> t.timeEstimate <= 30
    ensures LONG_PROJECT_LABEL in TaskLabels(t, now) <==> t.timeEstimate >= 180
  {
    var d, z := DeadlineLabels(t.deadline, now), SizeLabels(t.timeEstimate);
    assert TaskLabels(t, now) == [PriorityLabel(t.priority)] + d + z;
    assert PriorityLabel(t.priority).color != "gray" && PriorityLabel(t.priority).color != "purple";
    assert forall i :: 0 <= i < |d| ==> d[i].color == "blue" || d[i].color == "red";
  }

  /** The "Overdue" label and the overdue status agree on every incomplete task. */
  lemma OverdueLabelMatchesStatus(t: Task, now: Time)
    ensures GetTaskStatus(t, now) == Overdue <==> !t.completed && OVERDUE_LABEL in TaskLabels(t, now)
  {
    DeadlineLabelsMeaning(t, now);
  }

  // ---------------------------------------------------------------------------------
  // Durations

  /** " hour" with an "s" unless the count is exactly one. */
  function HourWord(h: int): string {
    " hour" + (if h != 1 then "s" else "")
  }

  /** `formatTimeEstimate`: minutes below an hour as "m minutes"; otherwise whole hours,
      and the leftover minutes when there are any. */
  function FormatTimeEstimate(m: int): string {
    if m < 60 then IntToString(m) + " minutes"
    else
      IntToString(m / 60) + HoursSuffix(m / 60, m % 60)
  }

  /** Everything after the hour count: the hour word, then the leftover minutes if any. */
  function HoursSuffix(h: int, r: int): string {
    if r == 0 then HourWord(h) else HourWord(h) + " " + IntToString(r) + " min"
  }

  /** Reads a duration in exactly the formats above: "m minutes" for m below 60, and
      "H hour(s)" or "H hour(s) R min" with H at least 1, "s" exactly when H is not 1, and
      R from 1 to 59. */
  function ParseTimeEstimate(s: string): Option<int> {
    match ParseIntPrefix(s)
    case None => None
    case Some((n, k)) => ParseAfterCount(n, s[k..])
  }

  /** The part after the leading number. */
  function ParseAfterCount(n: int, rest: string): Option<int> {
    if rest == " minutes" then
      if n < 60 then Some(n) else None
    else if n < 1 then None
    else ParseAfterHours(n, rest)
  }

  /** The reader starts by taking the number off the front. */
  lemma ParseTimeEstimateOf(n: int, rest: string)
    requires rest == [] || !IsDigit(rest[0])
    ensures ParseTimeEstimate(IntToString(n) + rest) == ParseAfterCount(n, rest)
  {
    IntPrefixOf(n, rest);
    assert (IntToString(n) + rest)[|IntToString(n)|..] == rest;
  }

  /** The part after the hour count: the hour word, then nothing or the leftover minutes. */
  function ParseAfterHours(n: int, rest: string): Option<int> {
    var w := HourWord(n);
    if rest == w then Some(60 * n)
    else if |rest| > |w| + 1 && rest[..|w| + 1] == w + " " then
      match ParseLeftover(rest[|w| + 1..])
      case None => None
      case Some(r) => Some(60 * n + r)
    else None
  }

  /** "R min" with R from 1 to 59. */
  function ParseLeftover(tail: string): Option<int> {
    match ParseIntPrefix(tail)
    case None => None
    case Some((r, j)) => if tail[j..] == " min" && 1 <= r < 60 then Some(r) else None
  }

  lemma LeftoverRoundTrip(r: int)
    requires 1 <= r < 60
    ensures ParseLeftover(IntToString(r) + " min") == Some(r)
  {
    IntPrefixOf(r, " min");
    assert (IntToString(r) + " min")[|IntToString(r)|..] == " min";
  }

  lemma AfterHoursRoundTrip(h: int, r: int, rest: string, v: int)
    requires 1 <= r < 60 && rest == HoursSuffix(h, r) && v == 60 * h + r
    ensures ParseAfterHours(h, rest) == Some(v)
  {
    var w := HourWord(h);
    var tail := IntToString(r) + " min";
    assert rest == w + " " + tail;
    assert rest != w by { assert |rest| > |w|; }
    assert rest[..|w| + 1] == w + " ";
    assert rest[|w| + 1..] == tail;
    LeftoverRoundTrip(r);
  }

  lemma ShortEstimateRoundTrip(m: int)
    requires m < 60
    ensures ParseTimeEstimate(FormatTimeEstimate(m)) == Some(m)
  {
    ParseTimeEstimateOf(m, " minutes");
  }

  lemma HoursRoundTrip(h: int, r: int, v: int)
    requires h >= 1 && 0 <= r < 60 && v == 60 * h + r
    ensures ParseTimeEstimate(IntToString(h) + HoursSuffix(h, r)) == Some(v)
  {
    var rest := HoursSuffix(h, r);
    assert rest[0] == ' ' && rest[1] == 'h';
    ParseTimeEstimateOf(h, rest);
    assert ParseAfterCount(h, rest) == ParseAfterHours(h, rest);
    if r == 0 {
      assert rest == HourWord(h);
      assert ParseAfterHours(h, rest) == Some(v);
    } else {
      AfterHoursRoundTrip(h, r, rest, v);
    }
  }

  /** Every duration text reads back as the minutes it was made from. */
  lemma TimeEstimateRoundTrip(m: int)
    ensures ParseTimeEstimate(FormatTimeEstimate(m)) == Some(m)
  {
    if m < 60 {
      ShortEstimateRoundTrip(m);
    } else {
      var h, r := m / 60, m % 60;
      assert m == 60 * h + r && h >= 1 && 0 <= r < 60;
      HoursRoundTrip(h, r, m);
    }
  }

  // ---------------------------------------------------------------------------------
  // Clock times

  /** The 12-hour dial's hour: `hours % 12 || 12`, with `%` taking the dividend's sign. */
  function DialHour(hours: int): int {
    var r := JsRem(hours, 12);
    if r == 0 then 12 else r
  }

  /** `formatTime` for a time of day given in whole minutes: the hour on the 12-hour dial,
      a colon, the minutes (a leading zero below 10) and the period. */
  function FormatTime(minutes: int): string {
    ClockText(minutes / 60, minutes % 60)
  }

  /** The text for a whole hour and a minute within it. */
  function ClockText(hours: int, mins: int): string {
    IntToString(DialHour(hours)) + ClockSuffix(PadMinutes(mins), Period(hours >= 12))
  }

  /** Everything after the dial hour. */
  function ClockSuffix(mm: string, period: string): string {
    ":" + mm + " " + period
  }

  function Period(pm: bool): string {
    if pm then "PM" else "AM"
  }

  /** `minutes < 10 ? `0${minutes}` : minutes`. */
  function PadMinutes(mins: int): string {
    if mins < 10 then "0" + IntToString(mins) else IntToString(mins)
  }

  /** Reads "H:MM AM" or "H:MM PM" with H from 1 to 12 and MM two digits below 60, as
      minutes after midnight (12 AM is midnight, 12 PM is noon). */
  function ParseClock(s: string): Option<int> {
    match ParseIntPrefix(s)
    case None => None
    case Some((h, k)) => ParseClockAfterHour(h, s[k..])
  }

  /** What must follow the dial hour: a colon, two minute digits, a space and the period. */
  function ParseClockAfterHour(h: int, rest: string): Option<int> {
    if 1 <= h <= 12 && |rest| == 6 && rest[0] == ':' && IsDigit(rest[1]) && IsDigit(rest[2])
       && rest[3] == ' ' && (rest[4..] == "AM" || rest[4..] == "PM") then
      var mm := 10 * DigitValue(rest[1]) + DigitValue(rest[2]);
      if mm < 60 then Some((h % 12 + (if rest[4..] == "PM" then 12 else 0)) * 60 + mm) else None
    else None
  }

  /** The minutes always take exactly two digits. */
  lemma PaddedMinutes(mins: int)
    requires 0 <= mins < 60
    ensures var t := PadMinutes(mins);
            |t| == 2 && IsDigit(t[0]) && IsDigit(t[1]) && 10 * DigitValue(t[0]) + DigitValue(t[1]) == mins
  {
    if mins >= 10 {
      TwoDigits(mins);
      assert IntToString(mins) == NatToString(mins / 10) + [DigitChar(mins % 10)];
    }
  }

  /** On a day's hours the dial hour and the period together give the hour back. */
  lemma DialHourBack(hours: int)
    requires 0 <= hours < 24
    ensures 1 <= DialHour(hours) <= 12
    ensures DialHour(hours) % 12 + (if hours >= 12 then 12 else 0) == hours
  {
  }

  /** The reader takes a dial hour, two minute digits and a period apart. */
  lemma ParseClockOf(h: int, mm: string, pm: bool, v: int)
    requires 1 <= h <= 12 && |mm| == 2 && IsDigit(mm[0]) && IsDigit(mm[1])
    requires 10 * DigitValue(mm[0]) + DigitValue(mm[1]) < 60
    requires v == (h % 12 + (if pm then 12 else 0)) * 60 + 10 * DigitValue(mm[0]) + DigitValue(mm[1])
    ensures ParseClock(IntToString(h) + ClockSuffix(mm, Period(pm))) == Some(v)
  {
    ClockHourPrefix(h, ClockSuffix(mm, Period(pm)));
    ClockAfterHourOf(h, mm, pm);
  }

  lemma ClockHourPrefix(h: int, rest: string)
    requires rest == [] || !IsDigit(rest[0])
    ensures ParseClock(IntToString(h) + rest) == ParseClockAfterHour(h, rest)
  {
    IntPrefixOf(h, rest);
    assert (IntToString(h) + rest)[|IntToString(h)|..] == rest;
  }

  lemma ClockAfterHourOf(h: int, mm: string, pm: bool)
    requires 1 <= h <= 12 && |mm| == 2 && IsDigit(mm[0]) && IsDigit(mm[1])
    requires 10 * DigitValue(mm[0]) + DigitValue(mm[1]) < 60
    ensures ParseClockAfterHour(h, ClockSuffix(mm, Period(pm)))
            == Some((h % 12 + (if pm then 12 else 0)) * 60 + 10 * DigitValue(mm[0]) + DigitValue(mm[1]))
  {
    var rest := ClockSuffix(mm, Period(pm));
    assert rest[1] == mm[0] && rest[2] == mm[1] && rest[3] == ' ';
    assert rest[4..] == Period(pm);
    assert (rest[4..] == "PM") == pm;
  }

  /** Within one day, every clock text reads back as the minute it was made from: the
      period is PM exactly from noon, the dial hour lies in 1..12 and the minutes are
      padded to two digits. */
  lemma FormatTimeRoundTrip(minutes: int)
    requires 0 <= minutes < 24 * 60
    ensures ParseClock(FormatTime(minutes)) == Some(minutes)
  {
    var hours, mins := minutes / 60, minutes % 60;
    assert minutes == hours * 60 + mins && 0 <= hours < 24 && 0 <= mins < 60;
    ClockTextRoundTrip(hours, mins);
  }

  lemma ClockTextRoundTrip(hours: int, mins: int)
    requires 0 <= hours < 24 && 0 <= mins < 60
    ensures ParseClock(ClockText(hours, mins)) == Some(hours * 60 + mins)
  {
    var h, mm, pm := DialHour(hours), PadMinutes(mins), hours >= 12;
    DialHourBack(hours);
    PaddedMinutes(mins);
    ParseClockOf(h, mm, pm, hours * 60 + mins);
  }

  /** Past the end of the day the text starts over: a time one day later reads the same as
      the afternoon time it extends. */
  lemma FormatTimeWraps(minutes: int)
    requires minutes >= 12 * 60
    ensures FormatTime(minutes + 24 * 60) == FormatTime(minutes)
  {
    var hours, mins := minutes / 60, minutes % 60;
    assert minutes == hours * 60 + mins && 0 <= mins < 60 && hours >= 12;
    assert minutes + 24 * 60 == (hours + 24) * 60 + mins;
    assert (minutes + 24 * 60) / 60 == hours + 24 && (minutes + 24 * 60) % 60 == mins;
    assert DialHour(hours + 24) == DialHour(hours);
  }

  // ---------------------------------------------------------------------------------
  // Subjects

  /** The gray shown for a task without a known subject. */
  const DEFAULT_SUBJECT_GRAY: string := "#718096"
  const UNKNOWN_SUBJECT: string := "Unknown Subject"

  datatype SubjectInfo = SubjectInfo(name: string, color: string)

  /** `getSubjectInfo`. */
  function GetSubjectInfo(t: Task, subjects: seq<Subject>): (info: SubjectInfo)
    ensures !HasSubject(t) ==> info == SubjectInfo(Suggestion.NO_SUBJECT, DEFAULT_SUBJECT_GRAY)
    ensures HasSubject(t) && (forall i :: 0 <= i < |subjects| ==> Some(subjects[i].id) != t.subjectId) ==>
              info == SubjectInfo(UNKNOWN_SUBJECT, DEFAULT_SUBJECT_GRAY)
    ensures HasSubject(t) && (exists i :: 0 <= i < |subjects| && Some(subjects[i].id) == t.subjectId) ==>
              exists i :: 0 <= i < |subjects| && Some(subjects[i].id) == t.subjectId
                          && (forall j :: 0 <= j < i ==> Some(subjects[j].id) != t.subjectId)
                          && info == SubjectInfo(subjects[i].name, subjects[i].color)
  {
    if !HasSubject(t) then SubjectInfo(Suggestion.NO_SUBJECT, DEFAULT_SUBJECT_GRAY)
    else
      match FindFirst(subjects, Suggestion.IdMatches(t.subjectId))
      case None => SubjectInfo(UNKNOWN_SUBJECT, DEFAULT_SUBJECT_GRAY)
      case Some(i) => SubjectInfo(subjects[i].name, subjects[i].color)
  }

  /** The card and the fallback suggestion name the same subject whenever the task has
      one, it is in the list and its name is not empty. */
  lemma SubjectNamesAgree(t: Task, subjects: seq<Subject>, i: int)
    requires HasSubject(t) && 0 <= i < |subjects| && Some(subjects[i].id) == t.subjectId
    requires forall j :: 0 <= j < i ==> Some(subjects[j].id) != t.subjectId
    requires subjects[i].name != ""
    ensures GetSubjectInfo(t, subjects).name == Suggestion.SubjectNameFor(subjects, t) == subjects[i].name
  {
    var f := FindFirst(subjects, Suggestion.IdMatches(t.subjectId));
    assert Suggestion.IdMatches(t.subjectId)(subjects[i]);
    assert f.Some? && f.value <= i;
  }

  // ---------------------------------------------------------------------------------
  // Badge and icon tables

  const DEFAULT_PRIORITY_BORDER: string := "border-gray-200 dark:border-gray-700"

  /** `getPriorityColorClass`. */
  function GetPriorityColorClass(priority: string): (c: string)
    ensures c == DEFAULT_PRIORITY_BORDER <==> PriorityFromName(priority).None?
  {
    if priority == "high" then "border-red-500 dark:border-red-700"
    else if priority == "medium" then "border-yellow-500 dark:border-yellow-700"
    else if priority == "low" then "border-green-500 dark:border-green-700"
    else DEFAULT_PRIORITY_BORDER
  }

  /** `getPriorityVariant`. */
  function GetPriorityVariant(priority: string): (v: string)
    ensures v in {"destructive", "warning", "success"}
  {
    if priority == "high" then "destructive"
    else if priority == "medium" then "warning"
    else if priority == "low" then "success"
    else "destructive"
  }

  /** `getStatusVariant`. */
  function GetStatusVariant(status: string): (v: string)
    ensures v in {"default", "warning", "success", "destructive"}
  {
    if status == "completed" then "success"
    else if status == "in_progress" then "warning"
    else if status == "not_started" then "default"
    else if status == "overdue" then "destructive"
    else "default"
  }

  /** `getStatusLabel`. */
  function GetStatusLabel(status: string): (l: string)
    ensures l == "Unknown" <==> StatusFromName(status).None?
  {
    if status == "completed" then "Completed"
    else if status == "in_progress" then "In Progress"
    else if status == "not_started" then "Not Started"
    else if status == "overdue" then "Overdue"
    else "Unknown"
  }

  const DEFAULT_TASK_ICON: string := "ri-task-line"

  /** `getTaskTypeIcon`. */
  function GetTaskTypeIcon(taskType: string): (icon: string)
    ensures icon == DEFAULT_TASK_ICON <==> TaskTypeFromName(taskType).None?
  {
    if taskType == "assignment" then "ri-file-list-line"
    else if taskType == "project" then "ri-folder-line"
    else if taskType == "exam" then "ri-exam-line"
    else if taskType == "study" then "ri-book-open-line"
    else DEFAULT_TASK_ICON
  }

  /** Priorities map to the destructive, warning and success badges in falling order; a
      string that is not a priority gets the high-priority badge; the three priorities
      get three different borders. */
  lemma PriorityTables(s: string, p: Priority, q: Priority)
    ensures GetPriorityVariant(PriorityName(p)) == (match p
                                                   case High => "destructive"
                                                   case Medium => "warning"
                                                   case Low => "success")
    ensures PriorityFromName(s).None? ==> GetPriorityVariant(s) == GetPriorityVariant(PriorityName(High))
    ensures GetPriorityColorClass(PriorityName(p)) == GetPriorityColorClass(PriorityName(q)) ==> p == q
  {
    PriorityNamesExact(s, High);
  }

  /** Each status has its own label and none is "Unknown"; any other string is labelled
      "Unknown" and gets the default badge. */
  lemma StatusTables(s: string, a: TaskStatus, b: TaskStatus)
    ensures GetStatusLabel(StatusName(a)) != "Unknown"
    ensures GetStatusLabel(StatusName(a)) == GetStatusLabel(StatusName(b)) ==> a == b
    ensures GetStatusVariant(StatusName(a)) == "destructive" <==> a == Overdue
    ensures StatusFromName(s).None? ==> GetStatusLabel(s) == "Unknown" && GetStatusVariant(s) == "default"
  {
    StatusNamesExact(s, a);
  }

  /** The four task types have four different icons, none of them the default. */
  lemma TaskTypeIconsDistinct(a: TaskType, b: TaskType)
    ensures GetTaskTypeIcon(TaskTypeName(a)) != DEFAULT_TASK_ICON
    ensures GetTaskTypeIcon(TaskTypeName(a)) == GetTaskTypeIcon(TaskTypeName(b)) ==> a == b
  {
  }

  /** The badge a task shows is never "In Progress", and it is the destructive one
      exactly when the task is incomplete and overdue. */
  lemma TaskBadge(t: Task, now: Time)
    ensures GetStatusLabel(StatusName(GetTaskStatus(t, now))) != "In Progress"
    ensures GetStatusVariant(StatusName(GetTaskStatus(t, now))) == "destructive" <==>
              !t.completed && IsPast(t.deadline, now) && !IsToday(t.deadline, now)
  {
  }
}
