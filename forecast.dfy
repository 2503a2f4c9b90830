/**
 * The two running balances of the dashboard: the month-end forecast built
 * from the projected events, and the balance trend over the booked
 * transactions of a period.
 */
module Forecast {
  import opened Wrappers
  import opened Numbers
  import opened Dates
  import opened Sorting
  import opened Ledger
  import opened Balances
  import opened Projection

  // ---- Month-end forecast ----

  /** The positive amounts of the events of month `m` (a `MonthIndex`): the month's income. */
  function MonthIncome(events: seq<Event>, m: int): real {
    if events == [] then 0.0
    else
      var e := events[|events| - 1];
      MonthIncome(events[..|events| - 1], m) + (if MonthIndex(e.date) == m && e.amount > 0.0 then e.amount else 0.0)
  }

  /** The other amounts of the events of month `m`: the month's expense, as a signed sum. */
  function MonthExpense(events: seq<Event>, m: int): real {
    if events == [] then 0.0
    else
      var e := events[|events| - 1];
      MonthExpense(events[..|events| - 1], m) + (if MonthIndex(e.date) == m && e.amount <= 0.0 then e.amount else 0.0)
  }

  /** All the amounts of the events dated in months `lo` to `hi - 1`. */
  function AmountInMonths(events: seq<Event>, lo: int, hi: int): real {
    if events == [] then 0.0
    else
      var e := events[|events| - 1];
      AmountInMonths(events[..|events| - 1], lo, hi) + (if lo <= MonthIndex(e.date) < hi then e.amount else 0.0)
  }

  /** Income is never negative, expense never positive, and together they are the month's events. */
  lemma {:induction false} MonthSplit(events: seq<Event>, m: int)
    ensures MonthIncome(events, m) >= 0.0 && MonthExpense(events, m) <= 0.0
    ensures MonthIncome(events, m) + MonthExpense(events, m) == AmountInMonths(events, m, m + 1)
  {
    if events != [] {
      MonthSplit(events[..|events| - 1], m);
    }
  }

  lemma {:induction false} AmountInMonthsStep(events: seq<Event>, lo: int, hi: int)
    requires lo <= hi
    ensures AmountInMonths(events, lo, hi + 1) == AmountInMonths(events, lo, hi) + AmountInMonths(events, hi, hi + 1)
  {
    if events != [] {
      AmountInMonthsStep(events[..|events| - 1], lo, hi);
    }
  }

  lemma {:induction false} AmountInNoMonths(events: seq<Event>, lo: int)
    ensures AmountInMonths(events, lo, lo) == 0.0
  {
    if events != [] {
      AmountInNoMonths(events[..|events| - 1], lo);
    }
  }

  /** The `monthly_flows` loop: income and (signed) expense per month, zero for months without events. */
  method MonthlyFlows(events: seq<Event>) returns (flows: map<int, (real, real)>)
    ensures forall m :: m in flows ==> flows[m] == (MonthIncome(events, m), MonthExpense(events, m))
    ensures forall m :: m !in flows ==> MonthIncome(events, m) == 0.0 && MonthExpense(events, m) == 0.0
  {
    flows := map[];
    var i := 0;
    while i < |events|
      invariant 0 <= i <= |events|
      invariant forall m :: m in flows ==> flows[m] == (MonthIncome(events[..i], m), MonthExpense(events[..i], m))
      invariant forall m :: m !in flows ==> MonthIncome(events[..i], m) == 0.0 && MonthExpense(events[..i], m) == 0.0
    {
      assert events[..i + 1][..i] == events[..i];
      var key := MonthIndex(events[i].date);
      var (income, expense) := if key in flows then flows[key] else (0.0, 0.0);
      if events[i].amount > 0.0 {
        flows := flows[key := (income + events[i].amount, expense)];
      } else {
        flows := flows[key := (income, expense + events[i].amount)];
      }
      i := i + 1;
    }
    assert events[..|events|] == events;
  }

  /** A row's first column: the current balance, or a month. */
  datatype Label = CurrentBalance | MonthOf(year: int, month: int)

  datatype ForecastRow = ForecastRow(period: Label, income: real, expense: real, net: real, balance: real)

  /** The balance at the end of the `k`th month from month `first`. */
  function RunningBalance(events: seq<Event>, current: real, first: int, k: nat): real {
    if k == 0 then current
    else
      var m := first + k - 1;
      RunningBalance(events, current, first, k - 1) + (MonthIncome(events, m) - Abs(MonthExpense(events, m)))
  }

  /**
   * The row of the `k`th month from month `first`: its month, its income, its
   * expense as a positive figure, their difference and the month-end balance.
   */
  predicate IsMonthRow(row: ForecastRow, events: seq<Event>, current: real, first: int, k: nat) {
    var m := first + k - 1;
    row.period.MonthOf? && 1 <= row.period.month <= 12 && row.period.year * 12 + row.period.month - 1 == m
    && row.income == MonthIncome(events, m) && row.expense == -MonthExpense(events, m)
    && row.net == row.income - row.expense
    && row.balance == RunningBalance(events, current, first, k)
  }

  /**
   * The forecast table: the current balance, then one row per month from
   * today's on, with the month's income, its expense as a positive figure,
   * their difference and the balance at the end of the month.
   */
  method MonthlyForecast(events: seq<Event>, start: CalendarDate, months: nat, current: real)
    returns (rows: seq<ForecastRow>)
    ensures |rows| == months + 1
    ensures rows[0] == ForecastRow(CurrentBalance, 0.0, 0.0, 0.0, current)
    ensures forall i :: 1 <= i < |rows| ==> IsMonthRow(rows[i], events, current, MonthIndex(start), i)
  {
    var flows := MonthlyFlows(events);
    rows := [ForecastRow(CurrentBalance, 0.0, 0.0, 0.0, current)];
    var running := current;
    var i := 0;
    while i < months
      invariant 0 <= i <= months
      invariant |rows| == i + 1
      invariant rows[0] == ForecastRow(CurrentBalance, 0.0, 0.0, 0.0, current)
      invariant running == RunningBalance(events, current, MonthIndex(start), i)
      invariant forall j :: 1 <= j < |rows| ==> IsMonthRow(rows[j], events, current, MonthIndex(start), j)
    {
      var d := AddMonths(start, i);
      var key := MonthIndex(d);
      var (inc, exp) := if key in flows then flows[key] else (0.0, 0.0);
      MonthSplit(events, key);
      var income, expense := inc, Abs(exp);
      var net := income - expense;
      running := running + net;
      var row := ForecastRow(MonthOf(d.year, d.month), income, expense, net, running);
      assert IsMonthRow(row, events, current, MonthIndex(start), i + 1);
      rows := rows + [row];
      i := i + 1;
    }
  }

  /**
   * Each month-end balance is the current balance plus every event of the
   * months up to that one; events in the month of the horizon's last day
   * are not part of any row.
   */
  lemma {:induction false} RunningBalanceIsTotal(events: seq<Event>, current: real, first: int, k: nat)
    ensures RunningBalance(events, current, first, k) == current + AmountInMonths(events, first, first + k)
  {
    if k == 0 {
      AmountInNoMonths(events, first);
    } else {
      RunningBalanceIsTotal(events, current, first, k - 1);
      MonthSplit(events, first + k - 1);
      AmountInMonthsStep(events, first, first + k - 1);
    }
  }

  /** Today 15 January, one month of horizon: an event on 10 February lies in the range but in no row. */
  lemma HorizonMonthIsDropped(current: real)
    ensures var events := [Event(Date(2024, 2, 10), "Affitto", -500.0)];
            RunningBalance(events, current, MonthIndex(Date(2024, 1, 15)), 1) == current
  {
    var events := [Event(Date(2024, 2, 10), "Affitto", -500.0)];
    assert events[..0] == [];
  }

  // ---- Balance trend ----

  /** A row of `get_transactions_in_range`. */
  datatype Booked = Booked(date: CalendarDate, amount: real)

  /** The query's filter: dated in `[start, end]`, on an existing account, with the given name if one is given. */
  predicate InTrendRange(accounts: seq<Account>, t: Transaction, start: CalendarDate, end: CalendarDate,
                         accountName: Option<string>) {
    DayNumber(start) <= DayNumber(t.date) <= DayNumber(end)
    && match AccountWithId(accounts, t.accountId)
       case Some(a) => !Given(accountName) || a.name == accountName.value
       case None => false
  }

  /** `get_transactions_in_range`. */
  function TransactionsInRange(accounts: seq<Account>, txs: seq<Transaction>, start: CalendarDate, end: CalendarDate,
                               accountName: Option<string>): seq<Booked> {
    if txs == [] then []
    else
      var rest := TransactionsInRange(accounts, txs[1..], start, end, accountName);
      if InTrendRange(accounts, txs[0], start, end, accountName) then [Booked(txs[0].date, txs[0].amount)] + rest
      else rest
  }

  /** Exactly the transactions the filter keeps are in the query's result. */
  lemma {:induction false} TransactionsInRangeMembers(accounts: seq<Account>, txs: seq<Transaction>, start: CalendarDate,
                                                      end: CalendarDate, accountName: Option<string>, b: Booked)
    ensures b in TransactionsInRange(accounts, txs, start, end, accountName) <==>
            exists t :: t in txs && InTrendRange(accounts, t, start, end, accountName) && b == Booked(t.date, t.amount)
  {
    if txs != [] {
      TransactionsInRangeMembers(accounts, txs[1..], start, end, accountName, b);
      assert forall t :: t in txs <==> t == txs[0] || t in txs[1..];
    }
  }

  function BookedDay(b: Booked): real {
    DayNumber(b.date) as real
  }

  function BookedAmount(b: Booked): real {
    b.amount
  }

  /** A point of the trend line: the row and the balance after it. */
  datatype TrendPoint = TrendPoint(date: CalendarDate, amount: real, balance: real)

  function Bookings(points: seq<TrendPoint>): (r: seq<Booked>)
    ensures |r| == |points|
    ensures forall i :: 0 <= i < |points| ==> r[i] == Booked(points[i].date, points[i].amount)
  {
    seq(|points|, i requires 0 <= i < |points| => Booked(points[i].date, points[i].amount))
  }

  /** `df_cum['Importo'].cumsum() + initial_balance`. */
  method CumulativeBalance(rows: seq<Booked>, initial: real) returns (points: seq<TrendPoint>)
    ensures Bookings(points) == rows
    ensures forall i :: 0 <= i < |points| ==> points[i].balance == initial + SumBy(rows[..i + 1], BookedAmount)
  {
    points := [];
    var running := 0.0;
    var j := 0;
    while j < |rows|
      invariant 0 <= j <= |rows|
      invariant Bookings(points) == rows[..j]
      invariant running == SumBy(rows[..j], BookedAmount)
      invariant forall i :: 0 <= i < j ==> points[i].balance == initial + SumBy(rows[..i + 1], BookedAmount)
    {
      SumByAppend(rows[..j], [rows[j]], BookedAmount);
      assert rows[..j + 1] == rows[..j] + [rows[j]];
      assert SumBy([rows[j]], BookedAmount) == rows[j].amount;
      running := running + rows[j].amount;
      points := points + [TrendPoint(rows[j].date, rows[j].amount, initial + running)];
      j := j + 1;
    }
    assert rows[..|rows|] == rows;
  }

  /**
   * The balance trend: nothing when the period has no transactions;
   * otherwise the period's rows by date, each with the balance before the
   * period plus the amounts up to and including it. The last point is the
   * opening balance plus the whole period.
   */
  method BalanceTrend(accounts: seq<Account>, txs: seq<Transaction>, start: CalendarDate, end: CalendarDate,
                      accountName: Option<string>) returns (trend: Option<seq<TrendPoint>>)
    ensures var range := TransactionsInRange(accounts, txs, start, end, accountName);
            var initial := BalanceBeforeDate(accounts, txs, start, accountName);
            (trend.None? <==> range == [])
            && (trend.Some? ==>
                  var points := trend.value;
                  SortedBy(Bookings(points), BookedDay)
                  && multiset(Bookings(points)) == multiset(range)
                  && (forall i :: 0 <= i < |points| ==>
                        points[i].balance == initial + SumBy(Bookings(points)[..i + 1], BookedAmount))
                  && points[|points| - 1].balance == initial + SumBy(range, BookedAmount))
  {
    var initial := BalanceBeforeDate(accounts, txs, start, accountName);
    var range := TransactionsInRange(accounts, txs, start, end, accountName);
    if range == [] {
      return None;
    }
    var sorted := SortBy(range, BookedDay);
    SortBySorted(range, BookedDay);
    SortBySum(range, BookedDay, BookedAmount);
    var points := CumulativeBalance(sorted, initial);
    assert sorted[..|sorted|] == sorted;
    trend := Some(points);
  }
}
