/** The reason texts of a task suggestion, and a reader for them. The in-memory ranker
    writes "Due today", "Overdue" or "Due in N day(s)", followed by
    " and marked as high priority" for a high-priority task; the fallback ranker writes
    "Due today and urgent" or "Due in N day(s)". `ParseReason` reads any of these back
    into what it says, and accepts "day" only for N = 1 and "days" only otherwise. */
module Reasons {
  import opened Wrappers
  import opened Decimal

  const HIGH_SUFFIX: string := " and marked as high priority"

  /** What a reason says about the deadline. */
  datatype Due = DueToday | DueOverdue | DueTodayUrgent | DueIn(days: int)

  datatype ReasonInfo = ReasonInfo(due: Due, highPriority: bool)

  /** `Due in ${n} day${n !== 1 ? 's' : ''}`. */
  function DueInText(n: int): string {
    "Due in " + IntToString(n) + " day" + (if n != 1 then "s" else "")
  }

  function DueText(d: Due): string {
    match d
    case DueToday => "Due today"
    case DueOverdue => "Overdue"
    case DueTodayUrgent => "Due today and urgent"
    case DueIn(n) => DueInText(n)
  }

  function ParseDue(b: string): Option<Due> {
    if |b| > 7 && b[..7] == "Due in " then
      match ParseIntPrefix(b[7..])
      case None => None
      case Some((n, k)) =>
        var tail := b[7..][k..];
        if (tail == " day" && n == 1) || (tail == " days" && n != 1) then Some(DueIn(n)) else None
    else if b == "Due today" then Some(DueToday)
    else if b == "Overdue" then Some(DueOverdue)
    else if b == "Due today and urgent" then Some(DueTodayUrgent)
    else None
  }

  predicate EndsWith(s: string, suffix: string) {
    |s| >= |suffix| && s[|s| - |suffix|..] == suffix
  }

  /** Reads a reason: an optional high-priority suffix after a deadline phrase. */
  function ParseReason(s: string): Option<ReasonInfo> {
    if EndsWith(s, HIGH_SUFFIX) then
      match ParseDue(s[..|s| - |HIGH_SUFFIX|])
      case Some(d) => Some(ReasonInfo(d, true))
      case None => None
    else
      match ParseDue(s)
      case Some(d) => Some(ReasonInfo(d, false))
      case None => None
  }

  lemma ParseDueIn(n: int)
    ensures ParseDue(DueInText(n)) == Some(DueIn(n))
  {
    var tail := " day" + (if n != 1 then "s" else "");
    var b := DueInText(n);
    assert b == "Due in " + (IntToString(n) + tail);
    assert b[..7] == "Due in ";
    assert b[7..] == IntToString(n) + tail;
    IntPrefixOf(n, tail);
    assert b[7..][|IntToString(n)|..] == tail;
  }

  /** Every deadline phrase reads back as itself. */
  lemma ParseDueText(d: Due)
    ensures ParseDue(DueText(d)) == Some(d)
  {
    match d
    case DueIn(n) => ParseDueIn(n);
    case DueToday => assert DueText(d)[..7][4] == 't';
    case DueTodayUrgent => assert DueText(d)[..7][4] == 't';
    case DueOverdue =>
  }

  /** No deadline phrase ends with the high-priority suffix. */
  lemma NoSuffixInDue(d: Due)
    ensures !EndsWith(DueText(d), HIGH_SUFFIX)
  {
    if d.DueIn? {
      var b := DueText(d);
      var n := d.days;
      if n != 1 {
        assert b == ("Due in " + IntToString(n)) + " days";
        assert b[|b| - 5] == ' ';
        assert HIGH_SUFFIX[|HIGH_SUFFIX| - 5] == 'o';
      } else {
        assert b == ("Due in " + IntToString(n)) + " day";
        assert b[|b| - 4] == ' ';
        assert HIGH_SUFFIX[|HIGH_SUFFIX| - 4] == 'r';
      }
      var k := |b| - |HIGH_SUFFIX|;
      assert k >= 0 ==> b[k..][|HIGH_SUFFIX| - 4] == b[|b| - 4];
      assert k >= 0 ==> b[k..][|HIGH_SUFFIX| - 5] == b[|b| - 5];
    }
  }

  /** A reason built from a deadline phrase and the high-priority flag reads back as
      exactly that phrase and flag. */
  lemma ReasonRoundTrip(d: Due, high: bool)
    ensures ParseReason(DueText(d) + (if high then HIGH_SUFFIX else "")) == Some(ReasonInfo(d, high))
  {
    var b := DueText(d);
    var s := b + (if high then HIGH_SUFFIX else "");
    ParseDueText(d);
    NoSuffixInDue(d);
    if high {
      assert s[|s| - |HIGH_SUFFIX|..] == HIGH_SUFFIX;
      assert s[..|s| - |HIGH_SUFFIX|] == b;
    } else {
      assert s == b;
    }
  }
}
