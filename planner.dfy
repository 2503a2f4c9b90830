/**
 * The spending planner of the dashboard: a day-by-day balance curve over the
 * planning horizon, and a greedy placement of each pending goal on the
 * first day from which the balance stays above a safety floor.
 */
module Planner {
  import opened Wrappers
  import opened Numbers
  import opened Dates
  import opened Ledger
  import opened Balances
  import opened Projection
  import opened Seqs

  // ---- The daily curve ----

  /** The number of days of `pd.date_range(start, end, freq='D')`. */
  function DaysInRange(start: CalendarDate, end: CalendarDate): nat {
    if DayNumber(end) < DayNumber(start) then 0 else DayNumber(end) - DayNumber(start) + 1
  }

  /** The amounts of the events dated on day number `day`. */
  function DayTotal(events: seq<Event>, day: int): real {
    if events == [] then 0.0
    else
      var e := events[|events| - 1];
      DayTotal(events[..|events| - 1], day) + (if DayNumber(e.date) == day then e.amount else 0.0)
  }

  /** The amounts of the events dated from day number `lo` to `hi`, both included. */
  function AmountThrough(events: seq<Event>, lo: int, hi: int): real {
    if events == [] then 0.0
    else
      var e := events[|events| - 1];
      AmountThrough(events[..|events| - 1], lo, hi) + (if lo <= DayNumber(e.date) <= hi then e.amount else 0.0)
  }

  lemma {:induction false} AmountThroughStep(events: seq<Event>, lo: int, hi: int)
    requires lo <= hi + 1
    ensures AmountThrough(events, lo, hi + 1) == AmountThrough(events, lo, hi) + DayTotal(events, hi + 1)
  {
    if events != [] {
      AmountThroughStep(events[..|events| - 1], lo, hi);
    }
  }

  lemma {:induction false} AmountThroughEmpty(events: seq<Event>, lo: int)
    ensures AmountThrough(events, lo, lo - 1) == 0.0
  {
    if events != [] {
      AmountThroughEmpty(events[..|events| - 1], lo);
    }
  }

  /** The `daily_deltas` loop: a total per day number, with the days in order of first appearance. */
  method DailyDeltas(events: seq<Event>) returns (deltas: map<int, real>, order: seq<int>)
    ensures forall x :: x in deltas <==> x in order
    ensures forall x :: x in deltas ==> deltas[x] == DayTotal(events, x)
    ensures forall x :: x !in deltas ==> DayTotal(events, x) == 0.0
  {
    deltas := map[];
    order := [];
    var i := 0;
    while i < |events|
      invariant 0 <= i <= |events|
      invariant forall x :: x in deltas <==> x in order
      invariant forall x :: x in deltas ==> deltas[x] == DayTotal(events[..i], x)
      invariant forall x :: x !in deltas ==> DayTotal(events[..i], x) == 0.0
    {
      assert events[..i + 1][..i] == events[..i];
      var day := DayNumber(events[i].date);
      if day !in deltas {
        order := order + [day];
      }
      deltas := deltas[day := (if day in deltas then deltas[day] else 0.0) + events[i].amount];
      i := i + 1;
    }
    assert events[..|events|] == events;
  }

  /** The `Balance` column before the cumulative sum: each day's total, 0 on days without events. */
  method DayColumn(deltas: map<int, real>, order: seq<int>, first: int, n: nat) returns (column: seq<real>)
    requires forall x :: x in deltas <==> x in order
    ensures |column| == n
    ensures forall j :: 0 <= j < n ==> column[j] == if first + j in deltas then deltas[first + j] else 0.0
  {
    column := seq(n, _ => 0.0);
    var k := 0;
    while k < |order|
      invariant 0 <= k <= |order|
      invariant |column| == n
      invariant forall j :: 0 <= j < n ==> column[j] == if first + j in order[..k] then deltas[first + j] else 0.0
    {
      var x := order[k];
      assert forall y :: y in order[..k + 1] <==> y in order[..k] || y == x by {
        assert order[..k + 1] == order[..k] + [x];
      }
      if first <= x < first + n {
        column := column[x - first := deltas[x]];
      }
      k := k + 1;
    }
    assert order[..|order|] == order;
  }

  /**
   * The planner's curve: for each day of `[start, end]`, the opening balance
   * plus every event dated from `start` up to that day; events outside the
   * range are ignored.
   */
  method DailyCurve(events: seq<Event>, start: CalendarDate, end: CalendarDate, initial: real) returns (curve: seq<real>)
    ensures |curve| == DaysInRange(start, end)
    ensures forall i :: 0 <= i < |curve| ==>
              curve[i] == initial + AmountThrough(events, DayNumber(start), DayNumber(start) + i)
  {
    var deltas, order := DailyDeltas(events);
    var n := DaysInRange(start, end);
    var first := DayNumber(start);
    var column := DayColumn(deltas, order, first, n);
    assert forall j :: 0 <= j < n ==> column[j] == DayTotal(events, first + j);
    ColumnSums(events, column, first);
    curve := CumulativeSum(column, initial);
    forall i | 0 <= i < |curve|
      ensures curve[i] == initial + AmountThrough(events, first, first + i)
    {
      assert PrefixSum(column, i + 1) == AmountThrough(events, first, first + (i + 1) - 1);
    }
  }

  /** `s[0] + ... + s[k - 1]`. */
  function PrefixSum(s: seq<real>, k: nat): real
    requires k <= |s|
  {
    if k == 0 then 0.0 else PrefixSum(s, k - 1) + s[k - 1]
  }

  /** `column.cumsum() + initial`. */
  method CumulativeSum(column: seq<real>, initial: real) returns (curve: seq<real>)
    ensures |curve| == |column|
    ensures forall i :: 0 <= i < |curve| ==> curve[i] == initial + PrefixSum(column, i + 1)
  {
    curve := [];
    var running := 0.0;
    var j := 0;
    while j < |column|
      invariant 0 <= j <= |column|
      invariant |curve| == j
      invariant running == PrefixSum(column, j)
      invariant forall i :: 0 <= i < j ==> curve[i] == initial + PrefixSum(column, i + 1)
    {
      running := running + column[j];
      curve := curve + [running + initial];
      j := j + 1;
    }
  }

  /** Summing the per-day totals of the first `i + 1` days sums the events of those days. */
  lemma ColumnSums(events: seq<Event>, column: seq<real>, first: int)
    requires forall j :: 0 <= j < |column| ==> column[j] == DayTotal(events, first + j)
    ensures forall k :: 1 <= k <= |column| ==> PrefixSum(column, k) == AmountThrough(events, first, first + k - 1)
  {
    forall k | 1 <= k <= |column| ensures PrefixSum(column, k) == AmountThrough(events, first, first + k - 1) {
      ColumnPrefix(events, column, first, k);
    }
  }

  lemma {:induction false} ColumnPrefix(events: seq<Event>, column: seq<real>, first: int, k: nat)
    requires k <= |column|
    requires forall j :: 0 <= j < |column| ==> column[j] == DayTotal(events, first + j)
    ensures PrefixSum(column, k) == AmountThrough(events, first, first + k - 1)
  {
    if k == 0 {
      AmountThroughEmpty(events, first);
    } else {
      ColumnPrefix(events, column, first, k - 1);
      AmountThroughStep(events, first, first + k - 2);
    }
  }

  // ---- Placing the goals ----

  /** `temp_forecast.loc[day:] += goal_amount`. */
  function Shift(curve: seq<real>, d: nat, amount: real): (r: seq<real>)
    ensures |r| == |curve|
    ensures forall j :: 0 <= j < |curve| && j < d ==> r[j] == curve[j]
    ensures forall j :: d <= j < |curve| ==> r[j] == curve[j] + amount
  {
    seq(|curve|, j requires 0 <= j < |curve| => if j < d then curve[j] else curve[j] + amount)
  }

  /** `s.loc[d:].min()`. */
  function SuffixMin(s: seq<real>, d: nat): real
    requires d < |s|
    decreases |s| - d
  {
    if d == |s| - 1 then s[d]
    else
      var m := SuffixMin(s, d + 1);
      if s[d] <= m then s[d] else m
  }

  /** The suffix minimum is at least `floor` exactly when every value of the suffix is. */
  lemma {:induction false} SuffixMinAtLeast(s: seq<real>, d: nat, floor: real)
    requires d < |s|
    ensures SuffixMin(s, d) >= floor <==> forall j :: d <= j < |s| ==> s[j] >= floor
    decreases |s| - d
  {
    if d < |s| - 1 {
      SuffixMinAtLeast(s, d + 1, floor);
    }
  }

  /** The balance stays at or above `floor` from day `d` on. */
  predicate SafeFrom(curve: seq<real>, d: nat, floor: real) {
    forall j :: d <= j < |curve| ==> curve[j] >= floor
  }

  /** The test of the inner loop: the goal booked on day `d` keeps the rest of the curve above the floor. */
  predicate Fits(curve: seq<real>, d: nat, amount: real, floor: real)
    requires d < |curve|
  {
    SuffixMin(Shift(curve, d, amount), d) >= floor
  }

  /** The first day from `d` on that fits. */
  function FirstFit(curve: seq<real>, amount: real, floor: real, d: nat): (r: Option<nat>)
    requires d <= |curve|
    decreases |curve| - d
  {
    if d == |curve| then None
    else if Fits(curve, d, amount, floor) then Some(d)
    else FirstFit(curve, amount, floor, d + 1)
  }

  /** First fit is sound: the day found keeps the shifted curve above the floor from that day on. */
  lemma {:induction false} FirstFitSound(curve: seq<real>, amount: real, floor: real, d: nat)
    requires d <= |curve|
    requires FirstFit(curve, amount, floor, d).Some?
    ensures var day := FirstFit(curve, amount, floor, d).value;
            d <= day < |curve| && SafeFrom(Shift(curve, day, amount), day, floor)
    decreases |curve| - d
  {
    if Fits(curve, amount := amount, floor := floor, d := d) {
      SuffixMinAtLeast(Shift(curve, d, amount), d, floor);
    } else {
      FirstFitSound(curve, amount, floor, d + 1);
    }
  }

  /** First fit is minimal: every earlier day, and every day when none is found, fails the test. */
  lemma {:induction false} FirstFitMinimal(curve: seq<real>, amount: real, floor: real, d: nat, e: nat)
    requires d <= e < |curve|
    requires FirstFit(curve, amount, floor, d).None? || e < FirstFit(curve, amount, floor, d).value
    ensures !SafeFrom(Shift(curve, e, amount), e, floor)
    decreases |curve| - d
  {
    if d == e {
      SuffixMinAtLeast(Shift(curve, e, amount), e, floor);
    } else {
      FirstFitMinimal(curve, amount, floor, d + 1, e);
    }
  }

  /** Booking a goal on day `d` keeps safe every suffix that was safe, and makes safe the suffix from `d`. */
  lemma ShiftKeepsSafe(curve: seq<real>, d: nat, amount: real, floor: real, m: nat)
    requires d < |curve| && SafeFrom(Shift(curve, d, amount), d, floor)
    requires SafeFrom(curve, m, floor)
    ensures SafeFrom(Shift(curve, d, amount), m, floor)
  {
  }

  /** A result row: the goal, its cost, and the day it was placed on, if any. */
  datatype GoalRow = GoalRow(description: string, cost: real, date: Option<CalendarDate>)

  /** The "Stato" column. */
  function Status(row: GoalRow): string {
    if row.date.Some? then "✅ Fattibile" else "⚠️ Data non trovata"
  }

  datatype PlanState = PlanState(curve: seq<real>, rows: seq<GoalRow>)

  /** One goal: its first fitting day, the curve after booking it there, and its row. */
  function PlaceGoal(curve: seq<real>, g: Goal, floor: real, start: CalendarDate): (seq<real>, GoalRow) {
    match FirstFit(curve, g.amount, floor, 0)
    case Some(d) => (Shift(curve, d, g.amount), GoalRow(g.description, Abs(g.amount), Some(AddDays(start, d))))
    case None => (curve, GoalRow(g.description, Abs(g.amount), None))
  }

  /** The goals placed one after the other on the curve each leaves behind. */
  function Plan(curve: seq<real>, goals: seq<Goal>, floor: real, start: CalendarDate): PlanState
    decreases |goals|
  {
    if goals == [] then PlanState(curve, [])
    else
      var (next, row) := PlaceGoal(curve, goals[0], floor, start);
      var rest := Plan(next, goals[1..], floor, start);
      PlanState(rest.curve, [row] + rest.rows)
  }

  /** One row per goal, in order, each with the goal's description and cost. */
  lemma {:induction false} PlanRows(curve: seq<real>, goals: seq<Goal>, floor: real, start: CalendarDate)
    ensures var p := Plan(curve, goals, floor, start);
            |p.rows| == |goals| && |p.curve| == |curve|
            && forall i :: 0 <= i < |goals| ==>
                 p.rows[i].description == goals[i].description && p.rows[i].cost == Abs(goals[i].amount)
    decreases |goals|
  {
    if goals != [] {
      var next := PlaceGoal(curve, goals[0], floor, start).0;
      PlanRows(next, goals[1..], floor, start);
    }
  }

  /**
   * A goal gets a date exactly when some day of the horizon fits it; the date
   * is the earliest such day, and a goal without one leaves the curve as it was.
   */
  lemma PlaceGoalFacts(curve: seq<real>, g: Goal, floor: real, start: CalendarDate)
    ensures var (next, row) := PlaceGoal(curve, g, floor, start);
            (row.date.Some? <==> exists d: nat :: d < |curve| && SafeFrom(Shift(curve, d, g.amount), d, floor))
            && (row.date.None? ==> next == curve)
            && (row.date.Some? ==>
                  var d := DayNumber(row.date.value) - DayNumber(start);
                  0 <= d < |curve| && next == Shift(curve, d, g.amount)
                  && SafeFrom(next, d, floor)
                  && forall e: nat :: e < d ==> !SafeFrom(Shift(curve, e, g.amount), e, floor))
  {
    var fit := FirstFit(curve, g.amount, floor, 0);
    if fit.Some? {
      FirstFitSound(curve, g.amount, floor, 0);
      forall e: nat | e < fit.value ensures !SafeFrom(Shift(curve, e, g.amount), e, floor) {
        FirstFitMinimal(curve, g.amount, floor, 0, e);
      }
    } else {
      forall d: nat | d < |curve| ensures !SafeFrom(Shift(curve, d, g.amount), d, floor) {
        FirstFitMinimal(curve, g.amount, floor, 0, d);
      }
    }
  }

  /** The inner loop: tries the days in order, books the goal on the first that fits. */
  method FindDay(curve: seq<real>, amount: real, floor: real) returns (best: Option<nat>, after: seq<real>)
    ensures best == FirstFit(curve, amount, floor, 0)
    ensures after == if best.Some? then Shift(curve, best.value, amount) else curve
  {
    best := None;
    after := curve;
    var d := 0;
    while d < |curve|
      invariant 0 <= d <= |curve|
      invariant FirstFit(curve, amount, floor, 0) == FirstFit(curve, amount, floor, d)
    {
      var temp := Shift(curve, d, amount);
      if SuffixMin(temp, d) >= floor {
        best := Some(d);
        after := temp;
        return;
      }
      d := d + 1;
    }
  }

  /** Planning from goal `i` on places goal `i`, then plans the rest on the curve it leaves. */
  lemma PlanFrom(curve: seq<real>, goals: seq<Goal>, i: nat, floor: real, start: CalendarDate)
    requires i < |goals|
    ensures var (next, row) := PlaceGoal(curve, goals[i], floor, start);
            var rest := Plan(next, goals[i + 1..], floor, start);
            Plan(curve, goals[i..], floor, start) == PlanState(rest.curve, [row] + rest.rows)
  {
    assert goals[i..][0] == goals[i] && goals[i..][1..] == goals[i + 1..];
  }

  /** The outer loop over the goals, in `get_goals` order. */
  method ScheduleGoals(curve0: seq<real>, goals: seq<Goal>, floor: real, start: CalendarDate)
    returns (curve: seq<real>, results: seq<GoalRow>)
    ensures PlanState(curve, results) == Plan(curve0, goals, floor, start)
  {
    curve := curve0;
    results := [];
    var i := 0;
    while i < |goals|
      invariant 0 <= i <= |goals|
      invariant Plan(curve0, goals, floor, start)
                == PlanState(Plan(curve, goals[i..], floor, start).curve, results + Plan(curve, goals[i..], floor, start).rows)
    {
      var g := goals[i];
      var best, after := FindDay(curve, g.amount, floor);
      var row := GoalRow(g.description, Abs(g.amount), if best.Some? then Some(AddDays(start, best.value)) else None);
      assert PlaceGoal(curve, g, floor, start) == (after, row);
      PlanFrom(curve, goals, i, floor, start);
      AppendAssociative(results, [row], Plan(after, goals[i + 1..], floor, start).rows);
      curve := after;
      results := results + [row];
      i := i + 1;
    }
  }

  /**
   * The planner: the curve from today over `horizon` months on the selected
   * standard accounts, then the pending goals placed largest cost first.
   */
  method PlanSpending(accounts: seq<Account>, txs: seq<Transaction>, planned: seq<PlannedTransaction>,
                      recurring: seq<RecurringRule>, goals: seq<Goal>, today: CalendarDate, horizon: nat,
                      accountName: Option<string>, safety: real) returns (results: seq<GoalRow>)
    ensures |results| == |GetGoals(goals, Pending)|
    ensures forall i :: 0 <= i < |results| ==> results[i].description == GetGoals(goals, Pending)[i].description
  {
    var end := AddMonths(today, horizon);
    var initial := BalanceBeforeDate(accounts, txs, today, accountName);
    var events := GetFutureEvents(accounts, planned, recurring, txs, today, end, accountName);
    var curve := DailyCurve(events, today, end, initial);
    var finalCurve;
    finalCurve, results := ScheduleGoals(curve, GetGoals(goals, Pending), safety, today);
    PlanRows(curve, GetGoals(goals, Pending), safety, today);
  }

  // ---- Properties of the plan ----

  /** The goals placed later never push a suffix that was above the floor below it. */
  lemma {:induction false} PlacedDaysStaySafe(curve: seq<real>, goals: seq<Goal>, floor: real, start: CalendarDate, m: nat)
    requires SafeFrom(curve, m, floor)
    ensures SafeFrom(Plan(curve, goals, floor, start).curve, m, floor)
    decreases |goals|
  {
    if goals != [] {
      var fit := FirstFit(curve, goals[0].amount, floor, 0);
      if fit.Some? {
        FirstFitSound(curve, goals[0].amount, floor, 0);
        ShiftKeepsSafe(curve, fit.value, goals[0].amount, floor, m);
      }
      PlacedDaysStaySafe(PlaceGoal(curve, goals[0], floor, start).0, goals[1..], floor, start, m);
    }
  }

  /** After planning, the balance stays above the floor from each placed goal's day to the end of the horizon. */
  lemma {:induction false} PlanKeepsFloor(curve: seq<real>, goals: seq<Goal>, floor: real, start: CalendarDate, i: nat)
    requires i < |Plan(curve, goals, floor, start).rows|
    requires Plan(curve, goals, floor, start).rows[i].date.Some?
    ensures var p := Plan(curve, goals, floor, start);
            var day := DayNumber(p.rows[i].date.value) - DayNumber(start);
            0 <= day < |curve| && SafeFrom(p.curve, day, floor)
    decreases |goals|
  {
    PlanRows(curve, goals, floor, start);
    var fit := FirstFit(curve, goals[0].amount, floor, 0);
    var next := PlaceGoal(curve, goals[0], floor, start).0;
    if i == 0 {
      FirstFitSound(curve, goals[0].amount, floor, 0);
      PlacedDaysStaySafe(next, goals[1..], floor, start, fit.value);
    } else {
      PlanKeepsFloor(next, goals[1..], floor, start, i - 1);
    }
  }
}
