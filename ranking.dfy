/** The in-memory store's two orderings of tasks: the "suggested next task" order
    (priority weight first, then clamped whole days left) and the day view's order (high,
    then medium, then low, ties kept in store order). */
module Ranking {
  import opened Clock
  import opened Schema
  import opened Seqs
  import opened StableSort

  /** The suggestion comparator's priority weight. */
  function Weight(p: Priority): int {
    match p
    case High => 3
    case Medium => 2
    case Low => 1
  }

  /** `Math.max(0, Math.floor((deadline - now) / day))`: whole days left, with every
      overdue task counted as 0. */
  function DaysLeft(t: Task, now: Time): (d: int)
    ensures d >= 0
    ensures d == 0 <==> t.deadline - now < MS_PER_DAY
    ensures d > 0 ==> d * MS_PER_DAY <= t.deadline - now < (d + 1) * MS_PER_DAY
  {
    var f := FloorDays(t.deadline - now);
    FloorDaysBounds(t.deadline - now);
    if f < 0 then 0 else f
  }

  /** The suggestion comparator returns a negative number for (a, b): a sorts before b. */
  predicate RanksAhead(a: Task, b: Task, now: Time) {
    Weight(a.priority) > Weight(b.priority)
    || (Weight(a.priority) == Weight(b.priority) && DaysLeft(a, now) < DaysLeft(b, now))
  }

  /** The comparator is a strict weak order: irreflexive, transitive, and if a is ahead of c
      then every b is behind a or ahead of c. */
  lemma RanksAheadStrictWeakOrder(a: Task, b: Task, c: Task, now: Time)
    ensures !RanksAhead(a, a, now)
    ensures RanksAhead(a, b, now) && RanksAhead(b, c, now) ==> RanksAhead(a, c, now)
    ensures RanksAhead(a, c, now) ==> RanksAhead(a, b, now) || RanksAhead(b, c, now)
  {
  }

  /** `s[k]` is the element a stable sort by the comparator puts first: nothing ranks ahead
      of it, and it ranks strictly ahead of everything before it. */
  predicate FirstBest(s: seq<Task>, k: int, now: Time) {
    0 <= k < |s|
    && (forall j :: 0 <= j < |s| ==> !RanksAhead(s[j], s[k], now))
    && (forall j :: 0 <= j < k ==> RanksAhead(s[k], s[j], now))
  }

  /** At most one index is first-best, so the suggestion is determined by the list. */
  lemma FirstBestUnique(s: seq<Task>, k1: int, k2: int, now: Time)
    requires FirstBest(s, k1, now) && FirstBest(s, k2, now)
    ensures k1 == k2
  {
    assert !RanksAhead(s[k2], s[k1], now);
    assert !RanksAhead(s[k1], s[k2], now);
  }

  /** Priority strictly dominates deadline: the first-best task has the greatest weight, and
      among tasks of that weight the fewest clamped days left. */
  lemma FirstBestDominates(s: seq<Task>, k: int, j: int, now: Time)
    requires FirstBest(s, k, now) && 0 <= j < |s|
    ensures Weight(s[k].priority) >= Weight(s[j].priority)
    ensures Weight(s[k].priority) == Weight(s[j].priority) ==> DaysLeft(s[k], now) <= DaysLeft(s[j], now)
  {
    assert !RanksAhead(s[j], s[k], now);
  }

  /** `incompleteTasks.sort(comparator)[0]`: the index of the element that the stable sort
      moves to the front. */
  method PickNext(s: seq<Task>, now: Time) returns (k: nat)
    requires |s| > 0
    ensures FirstBest(s, k, now)
  {
    k := 0;
    var i := 1;
    while i < |s|
      invariant 1 <= i <= |s| && k < i
      invariant forall j :: 0 <= j < i ==> !RanksAhead(s[j], s[k], now)
      invariant forall j :: 0 <= j < k ==> RanksAhead(s[k], s[j], now)
    {
      if RanksAhead(s[i], s[k], now) {
        forall j | 0 <= j < i
          ensures !RanksAhead(s[j], s[i], now) && RanksAhead(s[i], s[j], now)
        {
          RanksAheadStrictWeakOrder(s[j], s[i], s[k], now);
          RanksAheadStrictWeakOrder(s[i], s[j], s[k], now);
        }
        k := i;
      }
      i := i + 1;
    }
  }

  /** The day view's `priorityOrder`: high 1, medium 2, low 3. */
  function UrgencyRank(p: Priority): int {
    match p
    case High => 1
    case Medium => 2
    case Low => 3
  }

  function UrgencyKey(t: Task): int {
    UrgencyRank(t.priority)
  }

  /** The predicate "has priority `p`". */
  function PriorityIs(p: Priority): Task -> bool {
    (t: Task) => t.priority == p
  }

  /** The day view's sort: stable by priority, high first. */
  function ByUrgency(s: seq<Task>): seq<Task> {
    Sort(s, UrgencyKey)
  }

  /** Sorting by urgency lists the high-priority tasks, then the medium ones, then the low
      ones, each group in its original order: nothing lost, nothing added. */
  lemma ByUrgencyBlocks(s: seq<Task>)
    ensures ByUrgency(s) == Filter(s, PriorityIs(High)) + Filter(s, PriorityIs(Medium))
                            + Filter(s, PriorityIs(Low))
  {
    var r := ByUrgency(s);
    SortedThreeBlocks(r, UrgencyKey, 1, 2, 3);
    SortStable(s, UrgencyKey, 1);
    SortStable(s, UrgencyKey, 2);
    SortStable(s, UrgencyKey, 3);
    FilterExtensional(s, KeyIs(UrgencyKey, 1), PriorityIs(High));
    FilterExtensional(s, KeyIs(UrgencyKey, 2), PriorityIs(Medium));
    FilterExtensional(s, KeyIs(UrgencyKey, 3), PriorityIs(Low));
  }
}
