/**
 * `find_best_matching_planned_tx`: the planned transaction an imported
 * movement most likely realises.
 */
module Matching {
  import opened Wrappers
  import opened Numbers
  import opened Dates
  import opened DateText
  import opened Ledger

  /**
   * The query's filter: still planned, dated within `toleranceDays` days of
   * `d` either way, and with an amount within `tolerancePercent` of the
   * imported amount (not of the planned one).
   */
  predicate IsCandidate(p: PlannedTransaction, d: CalendarDate, amount: real, toleranceDays: int, tolerancePercent: real) {
    var tolerance := Abs(amount * tolerancePercent);
    p.status == Planned
    && DayNumber(d) - toleranceDays <= DayNumber(p.date) <= DayNumber(d) + toleranceDays
    && amount - tolerance <= p.amount <= amount + tolerance
  }

  function AmountGap(p: PlannedTransaction, amount: real): real {
    Abs(p.amount - amount)
  }

  function DayGap(p: PlannedTransaction, d: CalendarDate): int {
    if DayNumber(p.date) <= DayNumber(d) then DayNumber(d) - DayNumber(p.date) else DayNumber(p.date) - DayNumber(d)
  }

  /** `ORDER BY ABS(amount - ?), ABS(julianday(plan_date) - julianday(?))`: `p` ranks strictly before `q`. */
  predicate Closer(p: PlannedTransaction, q: PlannedTransaction, d: CalendarDate, amount: real) {
    AmountGap(p, amount) < AmountGap(q, amount)
    || (AmountGap(p, amount) == AmountGap(q, amount) && DayGap(p, d) < DayGap(q, d))
  }

  /** The first best-ranked candidate of `ps` (the `LIMIT 1` row). */
  function BestAmong(ps: seq<PlannedTransaction>, d: CalendarDate, amount: real, toleranceDays: int,
                     tolerancePercent: real): (r: Option<PlannedTransaction>)
    ensures r.Some? ==> r.value in ps && IsCandidate(r.value, d, amount, toleranceDays, tolerancePercent)
    ensures r.Some? ==> forall p :: p in ps && IsCandidate(p, d, amount, toleranceDays, tolerancePercent) ==>
                                      !Closer(p, r.value, d, amount)
    ensures r.None? <==> forall p :: p in ps ==> !IsCandidate(p, d, amount, toleranceDays, tolerancePercent)
  {
    if ps == [] then None
    else
      assert forall p :: p in ps <==> p == ps[0] || p in ps[1..];
      var rest := BestAmong(ps[1..], d, amount, toleranceDays, tolerancePercent);
      if !IsCandidate(ps[0], d, amount, toleranceDays, tolerancePercent) then rest
      else if rest.None? || !Closer(rest.value, ps[0], d, amount) then Some(ps[0])
      else rest
  }

  /** `find_best_matching_planned_tx(tx_date, tx_amount, tolerance_days, tolerance_percent)`. */
  function FindBestMatch(planned: seq<PlannedTransaction>, date: DateInput, amount: real, toleranceDays: int,
                         tolerancePercent: real): (r: Option<PlannedTransaction>)
    ensures ParseDate(date).None? ==> r.None?
    ensures r.Some? ==> r.value in planned && IsCandidate(r.value, ParseDate(date).value, amount, toleranceDays, tolerancePercent)
    ensures r.Some? ==> forall p :: p in planned && IsCandidate(p, ParseDate(date).value, amount, toleranceDays, tolerancePercent) ==>
                                      !Closer(p, r.value, ParseDate(date).value, amount)
    ensures ParseDate(date).Some? && r.None? ==>
              forall p :: p in planned ==> !IsCandidate(p, ParseDate(date).value, amount, toleranceDays, tolerancePercent)
  {
    match ParseDate(date)
    case None => None
    case Some(d) => BestAmong(planned, d, amount, toleranceDays, tolerancePercent)
  }

  /** The two `BETWEEN` windows say: at most `toleranceDays` days apart, and an amount gap within the percentage of the imported amount. */
  lemma CandidateMeansWithinTolerance(p: PlannedTransaction, d: CalendarDate, amount: real, toleranceDays: int,
                                      tolerancePercent: real)
    ensures IsCandidate(p, d, amount, toleranceDays, tolerancePercent)
            <==> p.status == Planned && DayGap(p, d) <= toleranceDays
                 && AmountGap(p, amount) <= Abs(amount * tolerancePercent)
  {
  }

  function Plan(d: CalendarDate, amount: real): PlannedTransaction {
    PlannedTransaction(1, d, "Bolletta", amount, 1, 1, Planned)
  }

  /**
   * The tolerance is taken on the imported amount: against a planned 100,
   * an import of 116 (16% above the plan) matches, one of 86 (14% below)
   * does not.
   */
  lemma ToleranceFollowsImportedAmount(d: CalendarDate)
    ensures FindBestMatch([Plan(d, 100.0)], DateValue(d), 116.0, 7, 0.15) == Some(Plan(d, 100.0))
    ensures FindBestMatch([Plan(d, 100.0)], DateValue(d), 86.0, 7, 0.15).None?
  {
    assert IsCandidate(Plan(d, 100.0), d, 116.0, 7, 0.15);
    assert !IsCandidate(Plan(d, 100.0), d, 86.0, 7, 0.15);
  }

  /** The day window is inclusive: a plan seven days away matches, one eight days away does not. */
  lemma DayWindowIsInclusive(d: CalendarDate)
    ensures FindBestMatch([Plan(AddDays(d, 7), 50.0)], DateValue(d), 50.0, 7, 0.15).Some?
    ensures FindBestMatch([Plan(AddDays(d, 8), 50.0)], DateValue(d), 50.0, 7, 0.15).None?
  {
    assert IsCandidate(Plan(AddDays(d, 7), 50.0), d, 50.0, 7, 0.15);
    assert !IsCandidate(Plan(AddDays(d, 8), 50.0), d, 50.0, 7, 0.15);
  }

  /** Among two candidates the closer amount wins even when it is further away in time. */
  lemma AmountRanksBeforeDate(d: CalendarDate)
    ensures FindBestMatch([Plan(d, 95.0), Plan(AddDays(d, 5), 100.0)], DateValue(d), 100.0, 7, 0.15)
            == Some(Plan(AddDays(d, 5), 100.0))
  {
    var near := Plan(d, 95.0);
    var exact := Plan(AddDays(d, 5), 100.0);
    assert IsCandidate(near, d, 100.0, 7, 0.15) && IsCandidate(exact, d, 100.0, 7, 0.15);
    assert Closer(exact, near, d, 100.0);
  }

  /** A plan already consumed never matches. */
  lemma ConsumedNeverMatches(planned: seq<PlannedTransaction>, date: DateInput, amount: real, toleranceDays: int,
                             tolerancePercent: real)
    requires forall p :: p in planned ==> p.status == Consumed
    ensures FindBestMatch(planned, date, amount, toleranceDays, tolerancePercent).None?
  {
  }
}
