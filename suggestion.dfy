/** The language-model suggestion service: its two guards, and the deterministic fallback
    it answers with when the model call fails. The call itself (prompt, network, JSON
    reply) is one opaque step, passed in as a `ProviderOutcome`. */
module Suggestion {
  import opened Wrappers
  import opened Clock
  import opened Schema
  import opened Seqs
  import opened Reasons

  const NO_TASKS: string := "No tasks available for suggestion"
  const NO_INCOMPLETE_TASKS: string := "No incomplete tasks available for suggestion"
  const NO_SUBJECT: string := "No Subject"

  /** What the model call produced: a reply already coerced into a suggestion, or a failure
      of any kind (network, missing key, unreadable JSON). */
  datatype ProviderOutcome = Replied(suggestion: TaskSuggestion) | Failed

  /** The fallback comparator's `priorityOrder`: high 0, medium 1, low 2. */
  function PriorityOrder(p: Priority): int {
    match p
    case High => 0
    case Medium => 1
    case Low => 2
  }

  /** The fallback comparator is negative for (a, b): the earlier deadline first, and on
      equal deadlines the higher priority. */
  predicate RanksEarlier(a: Task, b: Task) {
    a.deadline < b.deadline
    || (a.deadline == b.deadline && PriorityOrder(a.priority) < PriorityOrder(b.priority))
  }

  /** The comparator is a strict weak order, so sorting by it is well defined. */
  lemma RanksEarlierStrictWeakOrder(a: Task, b: Task, c: Task)
    ensures !RanksEarlier(a, a)
    ensures RanksEarlier(a, b) && RanksEarlier(b, c) ==> RanksEarlier(a, c)
    ensures RanksEarlier(a, c) ==> RanksEarlier(a, b) || RanksEarlier(b, c)
  {
  }

  /** `s[k]` is what a stable sort by the comparator puts first. */
  predicate FirstEarliest(s: seq<Task>, k: int) {
    0 <= k < |s|
    && (forall j :: 0 <= j < |s| ==> !RanksEarlier(s[j], s[k]))
    && (forall j :: 0 <= j < k ==> RanksEarlier(s[k], s[j]))
  }

  lemma FirstEarliestUnique(s: seq<Task>, k1: int, k2: int)
    requires FirstEarliest(s, k1) && FirstEarliest(s, k2)
    ensures k1 == k2
  {
    assert !RanksEarlier(s[k2], s[k1]);
    assert !RanksEarlier(s[k1], s[k2]);
  }

  /** Deadline strictly dominates priority: the chosen task has the earliest deadline, and
      among the tasks due at that moment the highest priority. */
  lemma FirstEarliestSoonest(s: seq<Task>, k: int, j: int)
    requires FirstEarliest(s, k) && 0 <= j < |s|
    ensures s[k].deadline <= s[j].deadline
    ensures s[k].deadline == s[j].deadline ==> PriorityOrder(s[k].priority) <= PriorityOrder(s[j].priority)
  {
    assert !RanksEarlier(s[j], s[k]);
  }

  /** `incompleteTasks.sort(comparator)[0]`. */
  method PickEarliest(s: seq<Task>) returns (k: nat)
    requires |s| > 0
    ensures FirstEarliest(s, k)
  {
    k := 0;
    var i := 1;
    while i < |s|
      invariant 1 <= i <= |s| && k < i
      invariant forall j :: 0 <= j < i ==> !RanksEarlier(s[j], s[k])
      invariant forall j :: 0 <= j < k ==> RanksEarlier(s[k], s[j])
    {
      if RanksEarlier(s[i], s[k]) {
        forall j | 0 <= j < i
          ensures !RanksEarlier(s[j], s[i]) && RanksEarlier(s[i], s[j])
        {
          RanksEarlierStrictWeakOrder(s[j], s[i], s[k]);
          RanksEarlierStrictWeakOrder(s[i], s[j], s[k]);
        }
        k := i;
      }
      i := i + 1;
    }
  }

  /** `Math.max(0, Math.ceil((deadline - now) / day))`: whole days left rounded up, with
      every task due now or earlier counted as 0. */
  function FallbackDays(t: Task, now: Time): (d: int)
    ensures d >= 0
    ensures d == 0 <==> t.deadline <= now
    ensures d > 0 ==> (d - 1) * MS_PER_DAY < t.deadline - now <= d * MS_PER_DAY
  {
    var c := CeilDays(t.deadline - now);
    if c < 0 then 0 else c
  }

  /** The fallback's deadline phrase. */
  function FallbackDue(t: Task, now: Time): Due {
    var d := FallbackDays(t, now);
    if d == 0 then DueTodayUrgent else DueIn(d)
  }

  /** `s => s.id === task.subjectId`: a task without a subject matches no subject. */
  function IdMatches(subjectId: Option<int>): Subject -> bool {
    (s: Subject) => Some(s.id) == subjectId
  }

  /** `subjects.find(...)?.name || "No Subject"`. */
  function SubjectNameFor(subjects: seq<Subject>, t: Task): (name: string)
    ensures (forall i :: 0 <= i < |subjects| ==> Some(subjects[i].id) != t.subjectId) ==> name == NO_SUBJECT
    ensures name != NO_SUBJECT ==>
              exists i :: 0 <= i < |subjects| && Some(subjects[i].id) == t.subjectId && subjects[i].name == name
  {
    match FindFirst(subjects, IdMatches(t.subjectId))
    case None => NO_SUBJECT
    case Some(i) => if subjects[i].name == "" then NO_SUBJECT else subjects[i].name
  }

  /** The suggestion the fallback builds from the task it picked. */
  function Fallback(t: Task, subjects: seq<Subject>, now: Time): (r: TaskSuggestion)
    ensures r.taskId == t.id && r.title == t.title && r.timeEstimate == t.timeEstimate
    ensures r.deadline == t.deadline && r.subjectName == SubjectNameFor(subjects, t)
  {
    TaskSuggestion(t.id, t.title, DueText(FallbackDue(t, now)), SubjectNameFor(subjects, t),
                   t.timeEstimate, t.deadline)
  }

  /** The fallback reason says "Due today and urgent" exactly when the deadline has been
      reached, and otherwise "Due in N day(s)" for the rounded-up N, which is at least 1;
      it never carries the high-priority suffix. */
  lemma FallbackReasonMeaning(t: Task, subjects: seq<Subject>, now: Time)
    ensures var info := ParseReason(Fallback(t, subjects, now).reason);
            info.Some? && !info.value.highPriority
            && (info.value.due == DueTodayUrgent <==> t.deadline <= now)
            && (info.value.due.DueIn? ==>
                  info.value.due.days >= 1
                  && (info.value.due.days - 1) * MS_PER_DAY < t.deadline - now <= info.value.due.days * MS_PER_DAY)
  {
    ReasonRoundTrip(FallbackDue(t, now), false);
    assert DueText(FallbackDue(t, now)) + "" == DueText(FallbackDue(t, now));
  }

  /** `generateTaskSuggestion`: the two guards, then the model's reply as it came back, or
      the fallback's pick among the incomplete tasks when the call failed. */
  method GenerateTaskSuggestion(tasks: seq<Task>, subjects: seq<Subject>, now: Time,
                                provider: ProviderOutcome)
    returns (r: Result<TaskSuggestion, string>)
    ensures tasks == [] ==> r == Err(NO_TASKS)
    ensures tasks != [] && (forall i :: 0 <= i < |tasks| ==> tasks[i].completed) ==> r == Err(NO_INCOMPLETE_TASKS)
    ensures (exists i :: 0 <= i < |tasks| && !tasks[i].completed) && provider.Replied? ==>
              r == Ok(provider.suggestion)
    ensures (exists i :: 0 <= i < |tasks| && !tasks[i].completed) && provider.Failed? ==>
              exists k :: FirstEarliest(Filter(tasks, IsIncomplete), k)
                          && r == Ok(Fallback(Filter(tasks, IsIncomplete)[k], subjects, now))
  {
    if |tasks| == 0 {
      return Err(NO_TASKS);
    }
    var incomplete := Filter(tasks, IsIncomplete);
    FilterMembers(tasks, IsIncomplete);
    if |incomplete| == 0 {
      assert forall i :: 0 <= i < |tasks| ==> tasks[i] !in incomplete;
      return Err(NO_INCOMPLETE_TASKS);
    }
    assert incomplete[0] in tasks;
    match provider
    case Replied(s) =>
      r := Ok(s);
    case Failed =>
      var k := PickEarliest(incomplete);
      r := Ok(Fallback(incomplete[k], subjects, now));
  }
}
