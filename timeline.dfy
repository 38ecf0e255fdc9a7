/**
 * The placement of a task's bar on the Gantt timeline: a shared axis from the
 * earliest to the latest date of all tasks, the task's offset from the start
 * of the axis and its length, both as percentages of the axis, the length
 * never drawn below 2%. Times are whole epoch milliseconds and the ratios are
 * exact.
 */
module Timeline {
  import opened Tasks

  /** Both dates of the task are Date objects, as the Task type declares. */
  predicate Dated(t: Task) { t.startDate.Instant? && t.endDate.Instant? }

  predicate AllDated(ts: seq<Task>) { forall i :: 0 <= i < |ts| ==> Dated(ts[i]) }

  function StartTime(t: Task): int
    requires Dated(t)
  {
    t.startDate.date.time
  }

  function EndTime(t: Task): int
    requires Dated(t)
  {
    t.endDate.date.time
  }

  /** `tasks.flatMap(t => [t.startDate, t.endDate])`, read as times. */
  function AllTimes(ts: seq<Task>): (r: seq<int>)
    requires AllDated(ts)
    ensures |r| == 2 * |ts|
    ensures forall i :: 0 <= i < |ts| ==> r[2 * i] == StartTime(ts[i]) && r[2 * i + 1] == EndTime(ts[i])
  {
    if ts == [] then []
    else
      var rest := AllTimes(ts[1..]);
      var r := [StartTime(ts[0]), EndTime(ts[0])] + rest;
      assert forall i :: 1 <= i < |ts| ==> r[2 * i] == rest[2 * (i - 1)] && r[2 * i + 1] == rest[2 * (i - 1) + 1];
      r
  }

  /** `Math.min(...xs)`. */
  function MinOf(xs: seq<int>): (m: int)
    requires |xs| > 0
    ensures forall i :: 0 <= i < |xs| ==> m <= xs[i]
    ensures exists i :: 0 <= i < |xs| && xs[i] == m
  {
    if |xs| == 1 then xs[0]
    else
      var rest := MinOf(xs[1..]);
      assert forall i :: 1 <= i < |xs| ==> xs[i] == xs[1..][i - 1];
      if xs[0] <= rest then xs[0] else rest
  }

  /** `Math.max(...xs)`. */
  function MaxOf(xs: seq<int>): (m: int)
    requires |xs| > 0
    ensures forall i :: 0 <= i < |xs| ==> xs[i] <= m
    ensures exists i :: 0 <= i < |xs| && xs[i] == m
  {
    if |xs| == 1 then xs[0]
    else
      var rest := MaxOf(xs[1..]);
      assert forall i :: 1 <= i < |xs| ==> xs[i] == xs[1..][i - 1];
      if xs[0] >= rest then xs[0] else rest
  }

  function AxisStart(ts: seq<Task>): int
    requires AllDated(ts) && ts != []
  {
    MinOf(AllTimes(ts))
  }

  /** `totalDuration`: the length of the axis. */
  function Span(ts: seq<Task>): (s: int)
    requires AllDated(ts) && ts != []
    ensures s >= 0
  {
    MaxOf(AllTimes(ts)) - MinOf(AllTimes(ts))
  }

  /** Every start and end lies on the axis. */
  lemma OnAxis(ts: seq<Task>, t: Task)
    requires AllDated(ts) && t in ts
    ensures AxisStart(ts) <= StartTime(t) <= AxisStart(ts) + Span(ts)
    ensures AxisStart(ts) <= EndTime(t) <= AxisStart(ts) + Span(ts)
  {
    var i :| 0 <= i < |ts| && ts[i] == t;
    var xs := AllTimes(ts);
    assert xs[2 * i] == StartTime(t) && xs[2 * i + 1] == EndTime(t);
  }

  /** The style of a bar, as numbers of percent. */
  datatype Placement = Placement(left: real, width: real)

  function Percent(part: int, whole: int): real
    requires whole > 0
  {
    (part as real / whole as real) * 100.0
  }

  /** `getTaskPosition(task)` over the task list `ts`. */
  function Position(ts: seq<Task>, t: Task): (r: Placement)
    requires AllDated(ts) && Dated(t)
    requires ts != [] ==> Span(ts) > 0
    ensures ts == [] ==> r == Placement(0.0, 0.0)
    ensures ts != [] ==> r.width >= 2.0
  {
    if ts == [] then Placement(0.0, 0.0)
    else
      var width := Percent(EndTime(t) - StartTime(t), Span(ts));
      Placement(Percent(StartTime(t) - AxisStart(ts), Span(ts)), if width >= 2.0 then width else 2.0)
  }

  lemma PercentBounds(part: int, whole: int)
    requires 0 <= part <= whole && whole > 0
    ensures 0.0 <= Percent(part, whole) <= 100.0
  {
    var q := part as real / whole as real;
    assert q * whole as real == part as real;
  }

  lemma PercentMonotone(a: int, b: int, whole: int)
    requires a <= b && whole > 0
    ensures Percent(a, whole) <= Percent(b, whole)
  {
    var qa := a as real / whole as real;
    var qb := b as real / whole as real;
    assert qa * whole as real == a as real;
    assert qb * whole as real == b as real;
  }

  /**
   * A task of the list is drawn inside the axis: its offset lies in [0, 100],
   * its width in [2, 100], and a bar not widened to the minimum ends by 100.
   */
  lemma PositionBounds(ts: seq<Task>, t: Task)
    requires AllDated(ts) && t in ts
    requires Span(ts) > 0
    ensures var r := Position(ts, t);
            && 0.0 <= r.left <= 100.0
            && 2.0 <= r.width <= 100.0
            && (EndTime(t) - StartTime(t) >= 0 ==> r.width >= Percent(EndTime(t) - StartTime(t), Span(ts)))
            && (Percent(EndTime(t) - StartTime(t), Span(ts)) >= 2.0 ==> r.left + r.width <= 100.0)
  {
    OnAxis(ts, t);
    var s := Span(ts);
    var a := AxisStart(ts);
    PercentBounds(StartTime(t) - a, s);
    PercentBounds(EndTime(t) - a, s);
    if EndTime(t) >= StartTime(t) {
      PercentBounds(EndTime(t) - StartTime(t), s);
    } else {
      PercentMonotone(EndTime(t) - StartTime(t), 0, s);
    }
    PercentSum(StartTime(t) - a, EndTime(t) - StartTime(t), s);
  }

  lemma PercentSum(a: int, b: int, whole: int)
    requires whole > 0
    ensures Percent(a, whole) + Percent(b, whole) == Percent(a + b, whole)
  {
  }

  /** Offsets keep the order of start dates. */
  lemma PositionKeepsOrder(ts: seq<Task>, t: Task, u: Task)
    requires AllDated(ts) && ts != [] && Span(ts) > 0 && Dated(t) && Dated(u)
    requires StartTime(t) <= StartTime(u)
    ensures Position(ts, t).left <= Position(ts, u).left
  {
    PercentMonotone(StartTime(t) - AxisStart(ts), StartTime(u) - AxisStart(ts), Span(ts));
  }

  /**
   * Tasks from 1 to 10 January and from 5 to 20 January share a 19-day axis:
   * the first starts at 0% with width 9/19 of it, the second at 4/19 with
   * width 15/19.
   */
  lemma TwoTaskExample(a: Task, b: Task)
    requires a.startDate == Instant(SampleDate(1, 0)) && a.endDate == Instant(SampleDate(2, 9))
    requires b.startDate == Instant(SampleDate(3, 4)) && b.endDate == Instant(SampleDate(4, 19))
    ensures AllDated([a, b]) && Span([a, b]) == 19 * DayMs
    ensures Position([a, b], a) == Placement(0.0, 900.0 / 19.0)
    ensures Position([a, b], b) == Placement(400.0 / 19.0, 1500.0 / 19.0)
  {
    var ts := [a, b];
    var xs := AllTimes(ts);
    assert xs[2 * 0] == Jan1 && xs[2 * 0 + 1] == Jan1 + 9 * DayMs;
    assert xs[2 * 1] == Jan1 + 4 * DayMs && xs[2 * 1 + 1] == Jan1 + 19 * DayMs;
    assert xs == [Jan1, Jan1 + 9 * DayMs, Jan1 + 4 * DayMs, Jan1 + 19 * DayMs];
    assert xs[1..] == [Jan1 + 9 * DayMs, Jan1 + 4 * DayMs, Jan1 + 19 * DayMs];
    assert xs[1..][1..] == [Jan1 + 4 * DayMs, Jan1 + 19 * DayMs];
    assert xs[1..][1..][1..] == [Jan1 + 19 * DayMs];
    assert MinOf(xs) == Jan1;
    assert MaxOf(xs) == Jan1 + 19 * DayMs;
    assert Percent(9 * DayMs, 19 * DayMs) == 900.0 / 19.0;
    assert Percent(4 * DayMs, 19 * DayMs) == 400.0 / 19.0;
    assert Percent(15 * DayMs, 19 * DayMs) == 1500.0 / 19.0;
  }
}
