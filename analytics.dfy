/** What the store's two analytics queries compute: each subject's share of a user's tasks,
    and a seven-entry rollup of the trailing week. */
module Analytics {
  import opened Wrappers
  import opened Clock
  import opened Schema
  import opened Seqs
  import opened StableSort

  /** The predicate "counted for subject `sid`": the counting loop skips a falsy
      `subjectId`, so a subject whose id is 0 is never counted. */
  function CountsFor(sid: int): Task -> bool {
    (t: Task) => HasSubject(t) && t.subjectId.value == sid
  }

  function SubjectCount(ts: seq<Task>, sid: int): nat {
    |Filter(ts, CountsFor(sid))|
  }

  /** `total > 0 ? Math.round((count / total) * 100) : 0`, rounding halves up, computed
      exactly. */
  function Percentage(count: int, total: int): int {
    if total > 0 then (200 * count + total) / (2 * total) else 0
  }

  /** A share of at most the whole is a percentage from 0 to 100: 0 for no task, 100 for all
      of them. */
  lemma PercentageBounds(count: int, total: int)
    requires 0 <= count <= total
    ensures 0 <= Percentage(count, total) <= 100
    ensures count == 0 ==> Percentage(count, total) == 0
    ensures 0 < count == total ==> Percentage(count, total) == 100
  {
    if total > 0 {
      var d := 2 * total;
      var n := 200 * count + total;
      if count == 0 {
        QuotientIn(n, d, 0, 0);
      } else if count == total {
        QuotientIn(n, d, 100, 100);
      } else {
        QuotientIn(n, d, 0, 100);
      }
    }
  }

  /** `lo <= n / d <= hi` whenever `d * lo <= n < d * (hi + 1)`. */
  lemma QuotientIn(n: int, d: int, lo: int, hi: int)
    requires d > 0 && d * lo <= n < d * (hi + 1)
    ensures lo <= n / d <= hi
  {
    var q, r := n / d, n % d;
    assert n == d * q + r && 0 <= r < d;
    assert d * (q + 1) == d * q + d;
    MulCancelLess(d, lo, q + 1);
    MulCancelLess(d, q, hi + 1);
  }

  /** Multiplying by a positive number keeps a strict order, so it can be cancelled. */
  lemma MulCancelLess(d: int, a: int, b: int)
    requires d > 0 && d * a < d * b
    ensures a < b
  {
    if a >= b {
      MulMonotone(d, b, a);
    }
  }

  lemma MulMonotone(d: int, a: int, b: int)
    requires d >= 0 && a <= b
    ensures d * a <= d * b
  {
    assert d * b - d * a == d * (b - a);
  }

  function Entry(s: Subject, ts: seq<Task>): SubjectDistribution {
    SubjectDistribution(s.id, s.name, s.color, Percentage(SubjectCount(ts, s.id), |ts|))
  }

  /** One entry per subject, in the subjects' order, before sorting. */
  function Entries(subjects: seq<Subject>, ts: seq<Task>): (r: seq<SubjectDistribution>)
    ensures |r| == |subjects|
  {
    seq(|subjects|, i requires 0 <= i < |subjects| => Entry(subjects[i], ts))
  }

  /** `b.percentage - a.percentage` orders by percentage, highest first. */
  function DescendingPercentage(d: SubjectDistribution): int {
    -d.percentage
  }

  function Distribution(subjects: seq<Subject>, ts: seq<Task>): seq<SubjectDistribution> {
    Sort(Entries(subjects, ts), DescendingPercentage)
  }

  /** The distribution has exactly one entry per subject (subjects without tasks
      included), every percentage is between 0 and 100, and the entries run from the
      highest percentage to the lowest. */
  lemma DistributionShape(subjects: seq<Subject>, ts: seq<Task>)
    ensures multiset(Distribution(subjects, ts)) == multiset(Entries(subjects, ts))
    ensures forall i :: 0 <= i < |Distribution(subjects, ts)| ==>
              0 <= Distribution(subjects, ts)[i].percentage <= 100
    ensures forall i, j :: 0 <= i < j < |Distribution(subjects, ts)| ==>
              Distribution(subjects, ts)[i].percentage >= Distribution(subjects, ts)[j].percentage
  {
    var e := Entries(subjects, ts);
    var r := Distribution(subjects, ts);
    forall i | 0 <= i < |e|
      ensures 0 <= e[i].percentage <= 100
    {
      PercentageBounds(SubjectCount(ts, subjects[i].id), |ts|);
    }
    forall i | 0 <= i < |r|
      ensures 0 <= r[i].percentage <= 100
    {
      assert r[i] in multiset(e);
      var k :| 0 <= k < |e| && e[k] == r[i];
    }
    assert SortedBy(r, DescendingPercentage);
  }

  /** With no task, every share is 0. */
  lemma NoTasksNoShare(subjects: seq<Subject>, i: int)
    requires 0 <= i < |subjects|
    ensures Entries(subjects, [])[i].percentage == 0
  {
  }

  /** A subject that every one of a non-empty task list is counted for has the share 100. */
  lemma SoleSubjectIsWhole(s: Subject, ts: seq<Task>)
    requires |ts| > 0
    requires forall i :: 0 <= i < |ts| ==> CountsFor(s.id)(ts[i])
    ensures Entry(s, ts).percentage == 100
  {
    FilterAll(ts, CountsFor(s.id));
    PercentageBounds(|ts|, |ts|);
  }

  // ---- Weekly progress ----

  /** The predicate "due on `day`". */
  function DueOn(day: int): Task -> bool {
    (t: Task) => DayOf(t.deadline) == day
  }

  /** The predicate "completed and due on `day`". */
  function DoneOn(day: int): Task -> bool {
    (t: Task) => DayOf(t.deadline) == day && t.completed
  }

  /** Entry `k` of the week: its label is the weekday of `today - (6 - k)`, and its counts
      are those of the tasks due on `today - k` (the source fills the entries in the
      opposite order to the one it labels them in). */
  function WeekEntry(ts: seq<Task>, today: int, k: int): WeeklyProgress {
    WeeklyProgress(WeekdayName(today - (6 - k)), |Filter(ts, DoneOn(today - k))|,
                   |Filter(ts, DueOn(today - k))|, Sum(Filter(ts, DoneOn(today - k)), Estimate))
  }

  function WeekReport(ts: seq<Task>, today: int): (r: seq<WeeklyProgress>)
    ensures |r| == 7
  {
    seq(7, k requires 0 <= k < 7 => WeekEntry(ts, today, k))
  }

  /** Every week entry counts no more completed tasks than tasks, its study time is zero or
      more when estimates are, and an empty task list gives seven all-zero entries. */
  lemma WeekReportBounds(ts: seq<Task>, today: int, k: int)
    requires 0 <= k < 7
    ensures WeekReport(ts, today)[k].tasksCompleted <= WeekReport(ts, today)[k].tasksTotal
    ensures (forall i :: 0 <= i < |ts| ==> ts[i].timeEstimate >= 0) ==> WeekReport(ts, today)[k].studyTime >= 0
    ensures ts == [] ==> WeekReport(ts, today)[k] == WeeklyProgress(WeekdayName(today - (6 - k)), 0, 0, 0)
  {
    FilterMonotone(ts, DoneOn(today - k), DueOn(today - k));
    var done := Filter(ts, DoneOn(today - k));
    if forall i :: 0 <= i < |ts| ==> ts[i].timeEstimate >= 0 {
      FilterMembers(ts, DoneOn(today - k));
      forall i | 0 <= i < |done|
        ensures Estimate(done[i]) >= 0
      {
        var j :| 0 <= j < |ts| && ts[j] == done[i];
      }
      SumNonNegative(done, Estimate);
    }
  }

  /** The entries are labelled in reverse: the entry that counts the tasks due `k` days ago
      carries the label of the day `6 - k` days ago; today's tasks sit under the label of six
      days ago. */
  lemma WeekLabelsReversed(ts: seq<Task>, today: int, k: int)
    requires 0 <= k < 7
    ensures WeekReport(ts, today)[k].day == WeekdayName(today - (6 - k))
    ensures WeekReport(ts, today)[k].tasksTotal == |Filter(ts, DueOn(today - k))|
    ensures k != 3 ==> WeekReport(ts, today)[k].day != WeekdayName(today - k)
  {
    var e := WeekReport(ts, today)[k];
    assert e == WeekEntry(ts, today, k);
    var labelled, counted := today - (6 - k), today - k;
    if k < 3 {
      WeekdayNamesDistinct(labelled, counted);
    } else if k > 3 {
      WeekdayNamesDistinct(counted, labelled);
    }
  }

  /** `days.findIndex(day => day.day === label)`, -1 when absent. */
  function LabelIndex(days: seq<WeeklyProgress>, name: string): int {
    match FindFirst(days, (d: WeeklyProgress) => d.day == name)
    case Some(j) => j
    case None => -1
  }

  /** The entry a task due on `taskDay` is counted in: the first entry `d` such that the day
      `today - LabelIndex(d.day)` is the task's day, or -1. */
  function WeekIndex(days: seq<WeeklyProgress>, today: int, taskDay: int): int {
    match FindFirst(days, (d: WeeklyProgress) => today - LabelIndex(days, d.day) == taskDay)
    case Some(j) => j
    case None => -1
  }

  predicate LabelledWeek(days: seq<WeeklyProgress>, today: int) {
    |days| == 7 && forall k :: 0 <= k < 7 ==> days[k].day == WeekdayName(today - (6 - k))
  }

  lemma LabelIndexOf(days: seq<WeeklyProgress>, today: int, k: int)
    requires LabelledWeek(days, today) && 0 <= k < 7
    ensures LabelIndex(days, days[k].day) == k
  {
    var p := (d: WeeklyProgress) => d.day == days[k].day;
    forall j | 0 <= j < k
      ensures !p(days[j])
    {
      WeekdayNamesDistinct(today - (6 - j), today - (6 - k));
    }
    var f := FindFirst(days, p);
    assert p(days[k]);
    assert f.Some? && f.value <= k;
  }

  /** With the week labelled as the source labels it, a task due `k` days ago (0 to 6) is
      counted in entry `k`, and any other task in no entry. */
  lemma WeekIndexArithmetic(days: seq<WeeklyProgress>, today: int, taskDay: int)
    requires LabelledWeek(days, today)
    ensures WeekIndex(days, today, taskDay)
            == if 0 <= today - taskDay <= 6 then today - taskDay else -1
  {
    var p := (d: WeeklyProgress) => today - LabelIndex(days, d.day) == taskDay;
    forall k | 0 <= k < 7
      ensures p(days[k]) <==> k == today - taskDay
    {
      LabelIndexOf(days, today, k);
    }
    var f := FindFirst(days, p);
    if 0 <= today - taskDay <= 6 {
      var k := today - taskDay;
      assert p(days[k]);
      assert f.Some? && f.value <= k;
    } else {
      assert f.None?;
    }
  }

  /** What counting task `t` in a week entry does: one more task, and for a completed task
      one more completed task and its estimate more study time. */
  function Tally(e: WeeklyProgress, t: Task): WeeklyProgress {
    if t.completed then
      e.(tasksTotal := e.tasksTotal + 1, tasksCompleted := e.tasksCompleted + 1,
         studyTime := e.studyTime + t.timeEstimate)
    else e.(tasksTotal := e.tasksTotal + 1)
  }

  /** Counting one more task tallies it in the entry for its day and leaves the others. */
  lemma WeekEntryStep(ts: seq<Task>, j: nat, today: int, k: int)
    requires j < |ts|
    ensures WeekEntry(ts[..j + 1], today, k)
            == if DayOf(ts[j].deadline) == today - k then Tally(WeekEntry(ts[..j], today, k), ts[j])
               else WeekEntry(ts[..j], today, k)
  {
    var p := ts[..j + 1];
    assert p[..j] == ts[..j];
    var t := ts[j];
    var done := Filter(ts[..j], DoneOn(today - k));
    assert Filter(p, DueOn(today - k))
           == Filter(ts[..j], DueOn(today - k)) + (if DueOn(today - k)(t) then [t] else []);
    assert Filter(p, DoneOn(today - k)) == done + (if DoneOn(today - k)(t) then [t] else []);
    var e := WeekEntry(ts[..j], today, k);
    var e' := WeekEntry(p, today, k);
    if DoneOn(today - k)(t) {
      assert (done + [t])[..|done|] == done;
      assert e'.studyTime == e.studyTime + t.timeEstimate;
      assert e'.tasksCompleted == e.tasksCompleted + 1;
      assert e'.tasksTotal == e.tasksTotal + 1;
    } else if DueOn(today - k)(t) {
      assert done + [] == done;
      assert e'.tasksTotal == e.tasksTotal + 1;
      assert e'.tasksCompleted == e.tasksCompleted && e'.studyTime == e.studyTime;
    } else {
      assert done + [] == done;
    }
  }

  /** Counting one more task changes only the entry for its day, by `Tally`, and no entry
      when it is not due within the last seven days. */
  lemma WeekStep(ts: seq<Task>, j: nat, today: int)
    requires j < |ts|
    ensures var idx := today - DayOf(ts[j].deadline);
            WeekReport(ts[..j + 1], today)
            == if 0 <= idx <= 6 then WeekReport(ts[..j], today)[idx := Tally(WeekReport(ts[..j], today)[idx], ts[j])]
               else WeekReport(ts[..j], today)
  {
    var idx := today - DayOf(ts[j].deadline);
    var before := WeekReport(ts[..j], today);
    var after := WeekReport(ts[..j + 1], today);
    var want := if 0 <= idx <= 6 then before[idx := Tally(before[idx], ts[j])] else before;
    forall k | 0 <= k < 7
      ensures after[k] == want[k]
    {
      WeekEntryStep(ts, j, today, k);
    }
  }
}
