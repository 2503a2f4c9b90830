/**
 * `get_future_events`: the planned transactions and the occurrences of the
 * recurring rules between two dates, on standard accounts, sorted by date.
 */
module Projection {
  import opened Seqs
  import opened Wrappers
  import opened Numbers
  import opened Dates
  import opened Sorting
  import opened Ledger
  import opened Balances

  datatype Event = Event(date: CalendarDate, description: string, amount: real)

  /** The sort key: the event's date. */
  function EventKey(e: Event): real {
    DayNumber(e.date) as real
  }

  predicate InRange(d: CalendarDate, start: CalendarDate, end: CalendarDate) {
    DayNumber(start) <= DayNumber(d) <= DayNumber(end)
  }

  /** The row joins a standard account that passes the name filter. */
  predicate OnSelected(accounts: seq<Account>, accountId: int, accountName: Option<string>) {
    match AccountWithId(accounts, accountId)
    case Some(a) => AccountSelected(a, accountName)
    case None => false
  }

  /** The planned query: every status, dated between `start` and `end` inclusive, in table order. */
  function PlannedEvents(accounts: seq<Account>, planned: seq<PlannedTransaction>, start: CalendarDate,
                         end: CalendarDate, accountName: Option<string>): seq<Event>
  {
    if planned == [] then []
    else
      var p := planned[|planned| - 1];
      PlannedEvents(accounts, planned[..|planned| - 1], start, end, accountName)
      + (if OnSelected(accounts, p.accountId, accountName) && InRange(p.date, start, end)
         then [Event(p.date, p.description, p.amount)] else [])
  }

  /**
   * `SELECT 1 FROM transactions WHERE category_id = ? AND strftime('%Y-%m', tx_date) = ?
   * AND amount BETWEEN ? AND ?`: a transaction of the rule's category, on any account, in
   * the occurrence's month, within 10% of the rule's amount.
   */
  predicate Suppressed(txs: seq<Transaction>, r: RecurringRule, d: CalendarDate) {
    var tolerance := Abs(r.amount * 0.10);
    exists t :: t in txs && t.categoryId == r.categoryId && SameMonth(t.date, d)
                && r.amount - tolerance <= t.amount <= r.amount + tolerance
  }

  /** The next occurrence: a day, a week or a calendar month later; none for any other interval. */
  function Step(d: CalendarDate, interval: Interval): (r: Option<CalendarDate>)
    ensures r.Some? <==> !interval.OtherInterval?
    ensures r.Some? ==> DayNumber(r.value) > DayNumber(d)
    ensures interval == Daily ==> r.Some? && DayNumber(r.value) == DayNumber(d) + 1
    ensures interval == Weekly ==> r.Some? && DayNumber(r.value) == DayNumber(d) + 7
    ensures interval == Monthly ==> r.Some? && MonthIndex(r.value) == MonthIndex(d) + 1
  {
    match interval
    case Daily => Some(AddDays(d, 1))
    case Weekly => Some(AddDays(d, 7))
    case Monthly =>
      AddMonthsIsLater(d, 1);
      Some(AddMonths(d, 1))
    case OtherInterval(_) => None
  }

  /** The occurrence emitted at `curr`, if any. */
  function Occurrence(r: RecurringRule, curr: CalendarDate, start: CalendarDate, txs: seq<Transaction>): seq<Event> {
    if DayNumber(start) <= DayNumber(curr) && !Suppressed(txs, r, curr) then [Event(curr, r.name, r.amount)] else []
  }

  /** The events a rule emits from `curr` on, up to `end`. */
  function RuleEvents(r: RecurringRule, curr: CalendarDate, start: CalendarDate, end: CalendarDate,
                      txs: seq<Transaction>): seq<Event>
    decreases DayNumber(end) - DayNumber(curr) + 1
  {
    if DayNumber(end) < DayNumber(curr) then []
    else
      match Step(curr, r.interval)
      case None => Occurrence(r, curr, start, txs)
      case Some(next) => Occurrence(r, curr, start, txs) + RuleEvents(r, next, start, end, txs)
  }

  /** The recurring query's rows in table order, each joined with a selected account, expanded. */
  function RecurringEvents(accounts: seq<Account>, recurring: seq<RecurringRule>, start: CalendarDate,
                           end: CalendarDate, txs: seq<Transaction>, accountName: Option<string>): seq<Event>
  {
    if recurring == [] then []
    else
      var r := recurring[|recurring| - 1];
      RecurringEvents(accounts, recurring[..|recurring| - 1], start, end, txs, accountName)
      + (if OnSelected(accounts, r.accountId, accountName) then RuleEvents(r, r.start, start, end, txs) else [])
  }

  /** What `get_future_events` returns: planned events, then recurring ones, stably sorted by date. */
  function FutureEvents(accounts: seq<Account>, planned: seq<PlannedTransaction>, recurring: seq<RecurringRule>,
                        txs: seq<Transaction>, start: CalendarDate, end: CalendarDate,
                        accountName: Option<string>): seq<Event>
  {
    SortBy(PlannedEvents(accounts, planned, start, end, accountName)
           + RecurringEvents(accounts, recurring, start, end, txs, accountName), EventKey)
  }

  /** The loop over the planned query's rows. */
  method CollectPlanned(accounts: seq<Account>, planned: seq<PlannedTransaction>, start: CalendarDate,
                        end: CalendarDate, accountName: Option<string>) returns (events: seq<Event>)
    ensures events == PlannedEvents(accounts, planned, start, end, accountName)
  {
    events := [];
    var i := 0;
    while i < |planned|
      invariant 0 <= i <= |planned|
      invariant events == PlannedEvents(accounts, planned[..i], start, end, accountName)
    {
      var p := planned[i];
      assert planned[..i + 1][..i] == planned[..i];
      if OnSelected(accounts, p.accountId, accountName) && InRange(p.date, start, end) {
        events := events + [Event(p.date, p.description, p.amount)];
      }
      i := i + 1;
    }
    assert planned[..|planned|] == planned;
  }

  /** The `while curr_date <= end_date` loop of one rule, appending to `events`. */
  method ExpandRule(events: seq<Event>, r: RecurringRule, start: CalendarDate, end: CalendarDate,
                    txs: seq<Transaction>) returns (out: seq<Event>)
    ensures out == events + RuleEvents(r, r.start, start, end, txs)
  {
    out := events;
    var curr := r.start;
    while DayNumber(curr) <= DayNumber(end)
      invariant out + RuleEvents(r, curr, start, end, txs) == events + RuleEvents(r, r.start, start, end, txs)
      decreases DayNumber(end) - DayNumber(curr)
    {
      var here := Occurrence(r, curr, start, txs);
      ghost var prev := out;
      if DayNumber(curr) >= DayNumber(start) && !Suppressed(txs, r, curr) {
        out := out + [Event(curr, r.name, r.amount)];
      }
      assert out == prev + here;
      var next := Step(curr, r.interval);
      if next.None? {
        assert RuleEvents(r, curr, start, end, txs) == here;
        return;
      }
      assert RuleEvents(r, curr, start, end, txs) == here + RuleEvents(r, next.value, start, end, txs);
      AppendAssociative(prev, here, RuleEvents(r, next.value, start, end, txs));
      curr := next.value;
    }
  }

  /** The `for r in recurring_rules` loop, appending each selected rule's occurrences to `events`. */
  method CollectRecurring(events: seq<Event>, accounts: seq<Account>, recurring: seq<RecurringRule>,
                          txs: seq<Transaction>, start: CalendarDate, end: CalendarDate,
                          accountName: Option<string>) returns (out: seq<Event>)
    ensures out == events + RecurringEvents(accounts, recurring, start, end, txs, accountName)
  {
    out := events;
    var j := 0;
    while j < |recurring|
      invariant 0 <= j <= |recurring|
      invariant out == events + RecurringEvents(accounts, recurring[..j], start, end, txs, accountName)
    {
      var r := recurring[j];
      ghost var done := RecurringEvents(accounts, recurring[..j], start, end, txs, accountName);
      ghost var more := if OnSelected(accounts, r.accountId, accountName) then RuleEvents(r, r.start, start, end, txs) else [];
      RecurringEventsStep(accounts, recurring, j, start, end, txs, accountName);
      if OnSelected(accounts, r.accountId, accountName) {
        out := ExpandRule(out, r, start, end, txs);
      }
      AppendAssociative(events, done, more);
      j := j + 1;
    }
    assert recurring[..|recurring|] == recurring;
  }

  /** One more rule adds its occurrences, when it is on a selected account. */
  lemma RecurringEventsStep(accounts: seq<Account>, recurring: seq<RecurringRule>, j: nat, start: CalendarDate,
                            end: CalendarDate, txs: seq<Transaction>, accountName: Option<string>)
    requires j < |recurring|
    ensures var r := recurring[j];
            RecurringEvents(accounts, recurring[..j + 1], start, end, txs, accountName)
            == RecurringEvents(accounts, recurring[..j], start, end, txs, accountName)
               + (if OnSelected(accounts, r.accountId, accountName) then RuleEvents(r, r.start, start, end, txs) else [])
  {
    assert recurring[..j + 1][..j] == recurring[..j];
  }

  /** `get_future_events(start_date, end_date, account_name)`. */
  method GetFutureEvents(accounts: seq<Account>, planned: seq<PlannedTransaction>, recurring: seq<RecurringRule>,
                         txs: seq<Transaction>, start: CalendarDate, end: CalendarDate,
                         accountName: Option<string>) returns (events: seq<Event>)
    ensures events == FutureEvents(accounts, planned, recurring, txs, start, end, accountName)
  {
    events := CollectPlanned(accounts, planned, start, end, accountName);
    events := CollectRecurring(events, accounts, recurring, txs, start, end, accountName);
    events := SortBy(events, EventKey);
  }

  // ---- Properties ----

  /** The planned events are exactly the planned rows on selected accounts dated in the range. */
  lemma {:induction false} PlannedEventsMembers(accounts: seq<Account>, planned: seq<PlannedTransaction>, start: CalendarDate,
                                                end: CalendarDate, accountName: Option<string>, e: Event)
    ensures e in PlannedEvents(accounts, planned, start, end, accountName)
            <==> exists p :: p in planned && OnSelected(accounts, p.accountId, accountName)
                             && InRange(p.date, start, end) && e == Event(p.date, p.description, p.amount)
  {
    if planned != [] {
      var p := planned[|planned| - 1];
      var prefix := planned[..|planned| - 1];
      assert planned == prefix + [p];
      assert forall q :: q in planned <==> q in prefix || q == p;
      PlannedEventsMembers(accounts, prefix, start, end, accountName, e);
    }
  }

  /** Every event of a rule is dated in the range, not before `curr`, carries the rule's name and amount, and is not suppressed. */
  lemma {:induction false} RuleEventsFacts(r: RecurringRule, curr: CalendarDate, start: CalendarDate, end: CalendarDate,
                                           txs: seq<Transaction>, e: Event)
    requires e in RuleEvents(r, curr, start, end, txs)
    ensures InRange(e.date, start, end) && DayNumber(curr) <= DayNumber(e.date)
    ensures e.description == r.name && e.amount == r.amount && !Suppressed(txs, r, e.date)
    decreases DayNumber(end) - DayNumber(curr) + 1
  {
    var next := Step(curr, r.interval);
    if next.Some? && e !in Occurrence(r, curr, start, txs) {
      RuleEventsFacts(r, next.value, start, end, txs, e);
    }
  }

  /** Every recurring event is dated in the range. */
  lemma {:induction false} RecurringEventsInRange(accounts: seq<Account>, recurring: seq<RecurringRule>, start: CalendarDate,
                                                  end: CalendarDate, txs: seq<Transaction>, accountName: Option<string>, e: Event)
    requires e in RecurringEvents(accounts, recurring, start, end, txs, accountName)
    ensures InRange(e.date, start, end)
  {
    var r := recurring[|recurring| - 1];
    var prefix := RecurringEvents(accounts, recurring[..|recurring| - 1], start, end, txs, accountName);
    if e in prefix {
      RecurringEventsInRange(accounts, recurring[..|recurring| - 1], start, end, txs, accountName, e);
    } else {
      RuleEventsFacts(r, r.start, start, end, txs, e);
    }
  }

  /** The events come out in date order. */
  lemma FutureEventsSorted(accounts: seq<Account>, planned: seq<PlannedTransaction>, recurring: seq<RecurringRule>,
                           txs: seq<Transaction>, start: CalendarDate, end: CalendarDate, accountName: Option<string>)
    ensures SortedBy(FutureEvents(accounts, planned, recurring, txs, start, end, accountName), EventKey)
  {
    SortBySorted(PlannedEvents(accounts, planned, start, end, accountName)
                 + RecurringEvents(accounts, recurring, start, end, txs, accountName), EventKey);
  }

  /** Every event falls between the two dates, and each planned or recurring event appears. */
  lemma FutureEventsContents(accounts: seq<Account>, planned: seq<PlannedTransaction>, recurring: seq<RecurringRule>,
                             txs: seq<Transaction>, start: CalendarDate, end: CalendarDate, accountName: Option<string>)
    ensures forall e :: e in FutureEvents(accounts, planned, recurring, txs, start, end, accountName) ==>
                          InRange(e.date, start, end)
    ensures forall e :: e in FutureEvents(accounts, planned, recurring, txs, start, end, accountName) <==>
                          e in PlannedEvents(accounts, planned, start, end, accountName)
                          || e in RecurringEvents(accounts, recurring, start, end, txs, accountName)
  {
    var all := PlannedEvents(accounts, planned, start, end, accountName)
               + RecurringEvents(accounts, recurring, start, end, txs, accountName);
    var sorted := FutureEvents(accounts, planned, recurring, txs, start, end, accountName);
    assert multiset(sorted) == multiset(all);
    forall e ensures e in sorted <==> e in all {
      assert e in sorted <==> e in multiset(sorted);
      assert e in all <==> e in multiset(all);
    }
    forall e | e in sorted ensures InRange(e.date, start, end) {
      if e in PlannedEvents(accounts, planned, start, end, accountName) {
        PlannedEventsMembers(accounts, planned, start, end, accountName, e);
      } else {
        RecurringEventsInRange(accounts, recurring, start, end, txs, accountName, e);
      }
    }
  }

  /** On the same day, planned events come before recurring ones, each group in its query order. */
  lemma PlannedFirstOnSameDay(accounts: seq<Account>, planned: seq<PlannedTransaction>, recurring: seq<RecurringRule>,
                              txs: seq<Transaction>, start: CalendarDate, end: CalendarDate,
                              accountName: Option<string>, day: CalendarDate)
    ensures WithKey(FutureEvents(accounts, planned, recurring, txs, start, end, accountName), EventKey, DayNumber(day) as real)
            == WithKey(PlannedEvents(accounts, planned, start, end, accountName), EventKey, DayNumber(day) as real)
               + WithKey(RecurringEvents(accounts, recurring, start, end, txs, accountName), EventKey, DayNumber(day) as real)
  {
    var p := PlannedEvents(accounts, planned, start, end, accountName);
    var q := RecurringEvents(accounts, recurring, start, end, txs, accountName);
    SortByStable(p + q, EventKey, DayNumber(day) as real);
    WithKeyAppend(p, q, EventKey, DayNumber(day) as real);
  }

  /**
   * A daily (k = 1) or weekly (k = 7) rule emits exactly the dates from `curr`
   * on that lie a multiple of k days after it, within the range, in a month
   * holding no matching transaction.
   */
  predicate FixedStepOccurrence(r: RecurringRule, e: Event, curr: CalendarDate, k: int, start: CalendarDate,
                                end: CalendarDate, txs: seq<Transaction>)
    requires k > 0
  {
    e.description == r.name && e.amount == r.amount && InRange(e.date, start, end)
    && OnGrid(DayNumber(curr), DayNumber(e.date), k) && !Suppressed(txs, r, e.date)
  }

  /** Day `c` is reached from day `a` by steps of `k` days. */
  predicate OnGrid(a: int, c: int, k: int)
    requires k > 0
    decreases c - a
  {
    a <= c && (c == a || OnGrid(a + k, c, k))
  }

  /** Being on the grid is lying a whole number of steps after its first day. */
  lemma {:induction false} OnGridIsMultiple(a: int, c: int, k: int)
    requires k == 1 || k == 7
    ensures OnGrid(a, c, k) <==> a <= c && (c - a) % k == 0
    decreases c - a
  {
    if a < c {
      OnGridIsMultiple(a + k, c, k);
      if k == 1 {
        assert (c - a) % 1 == 0 && (c - (a + 1)) % 1 == 0;
      } else {
        assert (c - a) % 7 == (c - (a + 7)) % 7;
      }
    }
  }

  /**
   * A daily or weekly rule emits, from `curr` on, exactly the events in the
   * range on days a whole number of steps after `curr` that are not
   * suppressed.
   */
  lemma {:induction false} FixedStepEvents(r: RecurringRule, curr: CalendarDate, start: CalendarDate, end: CalendarDate,
                                           txs: seq<Transaction>, k: int, e: Event)
    requires (r.interval == Daily && k == 1) || (r.interval == Weekly && k == 7)
    ensures e in RuleEvents(r, curr, start, end, txs) <==> FixedStepOccurrence(r, e, curr, k, start, end, txs)
    decreases DayNumber(end) - DayNumber(curr) + 1
  {
    if DayNumber(end) >= DayNumber(curr) {
      var next := Step(curr, r.interval).value;
      var here := Occurrence(r, curr, start, txs);
      var rest := RuleEvents(r, next, start, end, txs);
      assert RuleEvents(r, curr, start, end, txs) == here + rest;
      assert e in here + rest <==> e in here || e in rest;
      FixedStepEvents(r, next, start, end, txs, k, e);
      OccurrenceMembers(r, curr, start, end, txs, e);
      assert DayNumber(next) == DayNumber(curr) + k;
    }
  }

  /** On a day up to `end`, the occurrence is the event of that day the rule would emit, unless suppressed. */
  lemma OccurrenceMembers(r: RecurringRule, curr: CalendarDate, start: CalendarDate, end: CalendarDate,
                          txs: seq<Transaction>, e: Event)
    requires DayNumber(curr) <= DayNumber(end)
    ensures e in Occurrence(r, curr, start, txs) <==>
            e.description == r.name && e.amount == r.amount && InRange(e.date, start, end)
            && DayNumber(e.date) == DayNumber(curr) && !Suppressed(txs, r, e.date)
  {
    if DayNumber(e.date) == DayNumber(curr) {
      DayNumberInjective(e.date, curr);
    }
  }

  /**
   * A monthly rule steps from the previous occurrence, not from its start,
   * so a day clamped at a month's end stays clamped: from 31 January 2023 the
   * second step reaches 28 March, where two months from the start is 31 March.
   */
  lemma MonthlyStepsDrift()
    ensures Step(Date(2023, 1, 31), Monthly) == Some(Date(2023, 2, 28))
    ensures Step(Date(2023, 2, 28), Monthly) == Some(Date(2023, 3, 28))
    ensures AddMonths(Date(2023, 1, 31), 2) == Date(2023, 3, 31)
  {
  }

  /** An unknown interval yields at most the first occurrence. */
  lemma OtherIntervalOnce(r: RecurringRule, start: CalendarDate, end: CalendarDate, txs: seq<Transaction>)
    requires r.interval.OtherInterval?
    ensures |RuleEvents(r, r.start, start, end, txs)| <= 1
  {
  }

  /** An occurrence in a month that already holds a booked transaction of the rule's category and amount is not projected. */
  lemma BookedMonthIsSuppressed(r: RecurringRule, curr: CalendarDate, start: CalendarDate, end: CalendarDate,
                                txs: seq<Transaction>, t: Transaction, e: Event)
    requires t in txs && t.categoryId == r.categoryId && t.amount == r.amount
    requires SameMonth(e.date, t.date)
    ensures e !in RuleEvents(r, curr, start, end, txs)
  {
    assert Suppressed(txs, r, e.date);
    if e in RuleEvents(r, curr, start, end, txs) {
      RuleEventsFacts(r, curr, start, end, txs, e);
    }
  }
}
