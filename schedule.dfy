/** The daily schedule's layout, in whole minutes after midnight. Blocks follow the day's
    tasks in order, skipping completed ones; the first starts at 10:00, each lasts its task's
    estimate, and the next starts 30 minutes after the previous one ends. */
module Schedule {
  import opened Wrappers
  import opened Clock
  import opened Decimal
  import opened Schema
  import opened Seqs

  const DAY_START: int := 600
  const BREAK_MINUTES: int := 30

  /** The block clock text for `m` minutes after midnight, as the schedule prints fractional
      hours: the hour `Math.floor(h)` with no 12-hour wrap, then the minutes as "00" when
      zero and otherwise unpadded, then "PM" when `h >= 12`. The minutes are
      `(h % 1) * 60` with JavaScript's truncating `%`. */
  function BlockTime(m: int): string {
    IntToString(m / 60) + ":" + MinutesText(JsRem(m, 60)) + (if m >= 720 then " PM" else " AM")
  }

  function MinutesText(minutes: int): string {
    if minutes == 0 then "00" else IntToString(minutes)
  }

  /** Reads the minutes field of a block time: "00", or 1 to 59 without a leading zero. */
  function ParseBlockMinutes(r: string): (res: Option<(int, nat)>)
    ensures res.Some? ==> res.value.1 <= |r|
  {
    if |r| >= 2 && r[..2] == "00" then Some((0, 2))
    else match ParseIntPrefix(r)
      case None => None
      case Some((v, k)) => if 1 <= v <= 59 && r[0] != '0' then Some((v, k)) else None
  }

  /** Reads a block time back to minutes after midnight; the period must agree with the
      hour ("PM" exactly from hour 12 on). */
  function ParseBlockTime(s: string): Option<int> {
    match ParseIntPrefix(s)
    case None => None
    case Some((h, k)) => ParseAfterHour(h, s[k..])
  }

  function ParseAfterHour(h: int, r: string): Option<int> {
    if h < 0 || |r| == 0 || r[0] != ':' then None
    else
      match ParseBlockMinutes(r[1..])
      case None => None
      case Some((mm, j)) => if PeriodFits(h, r[1..][j..]) then Some(h * 60 + mm) else None
  }

  predicate PeriodFits(h: int, tail: string) {
    (tail == " PM" && h >= 12) || (tail == " AM" && h < 12)
  }

  lemma ParseBlockMinutesOf(m: int, period: string)
    requires 0 <= m < 60
    requires period == " PM" || period == " AM"
    ensures ParseBlockMinutes(MinutesText(m) + period)
            == Some((m, if m == 0 then 2 else |IntToString(m)|))
  {
    var r := MinutesText(m) + period;
    if m == 0 {
      assert r[..2] == "00";
    } else {
      NoLeadingZero(m);
      assert r[0] == IntToString(m)[0];
      assert r[..2] != "00" by {
        assert r[..2][0] == r[0];
      }
      IntPrefixOf(m, period);
    }
  }

  lemma ParseAfterHourOf(h: int, mm: int, period: string)
    requires h >= 0 && 0 <= mm < 60
    requires period == (if h >= 12 then " PM" else " AM")
    ensures ParseAfterHour(h, ":" + MinutesText(mm) + period) == Some(h * 60 + mm)
  {
    var r := ":" + MinutesText(mm) + period;
    assert r[1..] == MinutesText(mm) + period;
    ParseBlockMinutesOf(mm, period);
    var j := if mm == 0 then 2 else |IntToString(mm)|;
    assert (MinutesText(mm) + period)[j..] == period;
  }

  lemma ParseBlockTimeOf(h: int, mm: int, period: string)
    requires h >= 0 && 0 <= mm < 60
    requires period == (if h >= 12 then " PM" else " AM")
    ensures ParseBlockTime(IntToString(h) + ":" + MinutesText(mm) + period) == Some(h * 60 + mm)
  {
    var r := ":" + MinutesText(mm) + period;
    var s := IntToString(h) + ":" + MinutesText(mm) + period;
    assert s == IntToString(h) + r;
    IntPrefixOf(h, r);
    assert s[|IntToString(h)|..] == r;
    ParseAfterHourOf(h, mm, period);
  }

  /** Every block time of a moment at or after midnight reads back as that moment: the text
      loses nothing, whatever the hour. */
  lemma BlockTimeRoundTrip(m: int)
    requires m >= 0
    ensures ParseBlockTime(BlockTime(m)) == Some(m)
  {
    var h, mm := m / 60, m % 60;
    assert m == h * 60 + mm && h >= 0 && 0 <= mm < 60;
    BlockTimeParts(m);
    ParseBlockTimeOf(h, mm, if h >= 12 then " PM" else " AM");
  }

  lemma BlockTimeParts(m: int)
    requires m >= 0
    ensures BlockTime(m) == IntToString(m / 60) + ":" + MinutesText(m % 60) + (if m / 60 >= 12 then " PM" else " AM")
  {
    AfternoonHour(m);
  }

  lemma AfternoonHour(m: int)
    ensures m / 60 >= 12 <==> m >= 720
  {
    assert m == 60 * (m / 60) + m % 60 && 0 <= m % 60 < 60;
  }

  /** `isToday(date) && currentHour >= Math.floor(start) && currentHour < Math.floor(end)`. */
  predicate IsCurrentBlock(start: int, end: int, date: Time, now: Time) {
    IsToday(date, now) && HourOf(now) >= start / 60 && HourOf(now) < end / 60
  }

  /** A block that starts and ends within one clock hour is never current (10:00 to 10:30,
      say); a current block contains the current hour's start or lies around it. */
  lemma NoCurrentWithinOneHour(start: int, end: int, date: Time, now: Time)
    requires start / 60 == end / 60
    ensures !IsCurrentBlock(start, end, date, now)
  {
  }

  /** `task.subjectId ? this.subjects.get(task.subjectId) : undefined`, then the name or
      "No Subject". */
  function SubjectNameIn(subjects: map<int, Subject>, t: Task): (name: string)
    ensures !HasSubject(t) ==> name == "No Subject"
    ensures HasSubject(t) && t.subjectId.value !in subjects ==> name == "No Subject"
    ensures HasSubject(t) && t.subjectId.value in subjects ==> name == subjects[t.subjectId.value].name
  {
    if HasSubject(t) && t.subjectId.value in subjects then subjects[t.subjectId.value].name
    else "No Subject"
  }

  /** The tasks that get a block: the incomplete ones, in order. */
  function Eligible(ts: seq<Task>): seq<Task> {
    Filter(ts, IsIncomplete)
  }

  /** The start of the `k`-th block: 10:00 plus the estimates of the blocks before it plus a
      30-minute break after each of them. */
  function BlockStart(es: seq<Task>, k: nat): int
    requires k <= |es|
  {
    DAY_START + Sum(es[..k], Estimate) + BREAK_MINUTES * k
  }

  function BlockEnd(es: seq<Task>, k: nat): int
    requires k < |es|
  {
    BlockStart(es, k) + es[k].timeEstimate
  }

  function MakeBlock(t: Task, start: int, subjects: map<int, Subject>, date: Time, now: Time): TimeBlock {
    var end := start + t.timeEstimate;
    TimeBlock(t.id, t.title, SubjectNameIn(subjects, t), BlockTime(start), BlockTime(end),
              IsCurrentBlock(start, end, date, now))
  }

  /** The schedule's blocks for the eligible tasks `es`. */
  function Layout(es: seq<Task>, subjects: map<int, Subject>, date: Time, now: Time): (r: seq<TimeBlock>)
    ensures |r| == |es|
    ensures forall k :: 0 <= k < |es| ==> r[k].taskId == es[k].id
  {
    seq(|es|, k requires 0 <= k < |es| => MakeBlock(es[k], BlockStart(es, k), subjects, date, now))
  }

  /** The first block starts at 10:00 and each later one 30 minutes after the previous
      block's end. */
  lemma BlockStartStep(es: seq<Task>, k: nat)
    requires k < |es|
    ensures BlockStart(es, 0) == DAY_START
    ensures BlockStart(es, k + 1) == BlockEnd(es, k) + BREAK_MINUTES
  {
    assert es[..0] == [];
    assert es[..k + 1][..k] == es[..k];
  }

  /** With positive estimates, every block ends strictly after it starts and at least 30
      minutes before any later block starts: blocks never overlap. */
  lemma {:induction false} BlocksDisjoint(es: seq<Task>, i: nat, j: nat)
    requires forall k :: 0 <= k < |es| ==> es[k].timeEstimate > 0
    requires i < j < |es|
    ensures BlockStart(es, i) < BlockEnd(es, i)
    ensures BlockEnd(es, i) + BREAK_MINUTES <= BlockStart(es, j)
    decreases j - i
  {
    BlockStartStep(es, i);
    if i + 1 < j {
      BlocksDisjoint(es, i + 1, j);
      BlockStartStep(es, i + 1);
    }
  }

  /** A schedule with no eligible task has no block and allocates nothing; a task list
      with only completed tasks is such a list. */
  lemma {:induction false} NothingEligible(ts: seq<Task>)
    requires forall i :: 0 <= i < |ts| ==> ts[i].completed
    ensures Eligible(ts) == [] && Sum(Eligible(ts), Estimate) == 0
    decreases |ts|
  {
    if ts != [] {
      NothingEligible(ts[..|ts| - 1]);
    }
  }

  /** One more task in the day's list adds it to the eligible tasks exactly when it is not
      completed. */
  lemma EligibleStep(ts: seq<Task>, i: nat)
    requires i < |ts|
    ensures Eligible(ts[..i + 1]) == Eligible(ts[..i]) + (if !ts[i].completed then [ts[i]] else [])
  {
    assert ts[..i + 1][..i] == ts[..i];
  }

  /** Appending a task moves no earlier block's start. */
  lemma StartsKept(es: seq<Task>, t: Task, k: nat)
    requires k <= |es|
    ensures BlockStart(es + [t], k) == BlockStart(es, k)
  {
    assert (es + [t])[..k] == es[..k];
  }

  /** Appending an eligible task appends its block, which starts where the next block of the
      shorter layout would; the next start moves past its estimate and a break, and the total
      grows by its estimate. */
  lemma LayoutSnoc(es: seq<Task>, t: Task, subjects: map<int, Subject>, date: Time, now: Time)
    ensures Layout(es + [t], subjects, date, now)
            == Layout(es, subjects, date, now) + [MakeBlock(t, BlockStart(es, |es|), subjects, date, now)]
    ensures BlockStart(es + [t], |es| + 1) == BlockStart(es, |es|) + t.timeEstimate + BREAK_MINUTES
    ensures Sum(es + [t], Estimate) == Sum(es, Estimate) + t.timeEstimate
  {
    LayoutBlocksSnoc(es, t, subjects, date, now);
    StartSnoc(es, t);
  }

  lemma StartSnoc(es: seq<Task>, t: Task)
    ensures BlockStart(es + [t], |es| + 1) == BlockStart(es, |es|) + t.timeEstimate + BREAK_MINUTES
    ensures Sum(es + [t], Estimate) == Sum(es, Estimate) + t.timeEstimate
  {
    var es' := es + [t];
    assert es'[..|es|] == es;
    assert es'[..|es| + 1] == es';
    assert es[..|es|] == es;
  }

  lemma LayoutBlocksSnoc(es: seq<Task>, t: Task, subjects: map<int, Subject>, date: Time, now: Time)
    ensures Layout(es + [t], subjects, date, now)
            == Layout(es, subjects, date, now) + [MakeBlock(t, BlockStart(es, |es|), subjects, date, now)]
  {
    var es' := es + [t];
    var l := Layout(es, subjects, date, now);
    var l' := Layout(es', subjects, date, now);
    var b := MakeBlock(t, BlockStart(es, |es|), subjects, date, now);
    forall k | 0 <= k < |es'|
      ensures l'[k] == (l + [b])[k]
    {
      StartsKept(es, t, k);
    }
    assert |l'| == |l + [b]|;
  }

  /** The layout loop's state after the first `i` tasks of the day, one step at a time:
      the blocks, the next start and the total allocated. */
  function FillState(ts: seq<Task>, i: nat, subjects: map<int, Subject>, date: Time, now: Time)
    : (seq<TimeBlock>, int, int)
    requires i <= |ts|
    decreases i
  {
    if i == 0 then ([], DAY_START, 0)
    else FillAdvance(FillState(ts, i - 1, subjects, date, now), ts[i - 1], subjects, date, now)
  }

  /** One step of the layout loop: a completed task changes nothing, any other gets its
      block at the current start. */
  function FillAdvance(st: (seq<TimeBlock>, int, int), t: Task, subjects: map<int, Subject>,
                       date: Time, now: Time): (seq<TimeBlock>, int, int)
  {
    if t.completed then st
    else (st.0 + [MakeBlock(t, st.1, subjects, date, now)], st.1 + t.timeEstimate + BREAK_MINUTES,
          st.2 + t.timeEstimate)
  }

  /** Stepping through the first `i` tasks builds exactly the layout of the eligible ones
      among them, with the next block's start and the total of their estimates. */
  lemma {:induction false} FillStateIsLayout(ts: seq<Task>, i: nat, subjects: map<int, Subject>,
                                             date: Time, now: Time)
    requires i <= |ts|
    ensures var st, es := FillState(ts, i, subjects, date, now), Eligible(ts[..i]);
            st.0 == Layout(es, subjects, date, now) && st.1 == BlockStart(es, |es|)
            && st.2 == Sum(es, Estimate)
    decreases i
  {
    if i == 0 {
      assert ts[..0] == [];
    } else {
      FillStateIsLayout(ts, i - 1, subjects, date, now);
      EligibleStep(ts, i - 1);
      var es := Eligible(ts[..i - 1]);
      var t := ts[i - 1];
      var prev := FillState(ts, i - 1, subjects, date, now);
      var st := FillState(ts, i, subjects, date, now);
      if t.completed {
        assert es + [] == es;
        assert Eligible(ts[..i]) == es;
        assert st.0 == prev.0 && st.1 == prev.1 && st.2 == prev.2;
      } else {
        var es' := es + [t];
        assert Eligible(ts[..i]) == es';
        assert |es'| == |es| + 1;
        LayoutSnoc(es, t, subjects, date, now);
        assert st.0 == prev.0 + [MakeBlock(t, prev.1, subjects, date, now)];
        assert st.1 == prev.1 + t.timeEstimate + BREAK_MINUTES;
        assert st.2 == prev.2 + t.timeEstimate;
      }
    }
  }

  /** The schedule's `forEach`: walks the day's tasks in order, skips completed ones, and
      appends one block per remaining task while the start moves past each estimate and a
      30-minute break. What this leaves is the layout of the eligible tasks and their total
      (`FillStateComplete`). */
  method FillBlocks(ts: seq<Task>, subjects: map<int, Subject>, date: Time, now: Time)
    returns (blocks: seq<TimeBlock>, total: int)
    ensures blocks == FillState(ts, |ts|, subjects, date, now).0
    ensures total == FillState(ts, |ts|, subjects, date, now).2
  {
    blocks := [];
    var start := DAY_START;
    total := 0;
    var i := 0;
    while i < |ts|
      invariant 0 <= i <= |ts|
      invariant blocks == FillState(ts, i, subjects, date, now).0
      invariant start == FillState(ts, i, subjects, date, now).1
      invariant total == FillState(ts, i, subjects, date, now).2
    {
      var task := ts[i];
      FillStateNext(ts, i, subjects, date, now);
      if !task.completed {
        blocks := blocks + [MakeBlock(task, start, subjects, date, now)];
        total := total + task.timeEstimate;
        start := start + task.timeEstimate + BREAK_MINUTES;
      }
      i := i + 1;
    }
  }

  /** What one more task does to the loop's state, component by component. */
  lemma FillStateNext(ts: seq<Task>, i: nat, subjects: map<int, Subject>, date: Time, now: Time)
    requires i < |ts|
    ensures var st, next := FillState(ts, i, subjects, date, now), FillState(ts, i + 1, subjects, date, now);
            if ts[i].completed then next.0 == st.0 && next.1 == st.1 && next.2 == st.2
            else next.0 == st.0 + [MakeBlock(ts[i], st.1, subjects, date, now)]
                 && next.1 == st.1 + ts[i].timeEstimate + BREAK_MINUTES && next.2 == st.2 + ts[i].timeEstimate
  {
  }

  /** After the last task the loop holds the layout of all eligible tasks and their total. */
  lemma FillStateComplete(ts: seq<Task>, subjects: map<int, Subject>, date: Time, now: Time)
    ensures FillState(ts, |ts|, subjects, date, now).0 == Layout(Eligible(ts), subjects, date, now)
    ensures FillState(ts, |ts|, subjects, date, now).2 == Sum(Eligible(ts), Estimate)
  {
    FillStateIsLayout(ts, |ts|, subjects, date, now);
    assert ts[..|ts|] == ts;
  }
}
