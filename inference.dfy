/**
 * `find_recurring_suggestions`: groups of transactions that repeat about
 * monthly or weekly, proposed as recurring rules unless one already exists.
 */
module Inference {
  import opened Wrappers
  import opened Numbers
  import opened Dates
  import opened Text
  import opened Sorting
  import opened Ledger

  /** The description key shared by every income row. */
  const IncomeGroup: string := "---income_group---"

  /** The name given to a group whose description is empty. */
  const Unnamed: string := "Movimento senza descrizione"

  /** A row of the query: the transaction joined with its category and account names. */
  datatype Row = Row(date: CalendarDate, amount: real, description: string, category: string, account: string,
                     kind: CategoryKind)

  /** The query: non-zero transactions whose category and account exist, a missing description read as "". */
  function Rows(accounts: seq<Account>, categories: seq<Category>, txs: seq<Transaction>): (r: seq<Row>)
    ensures forall row :: row in r ==> row.amount != 0.0
  {
    if txs == [] then []
    else
      var t := txs[0];
      var rest := Rows(accounts, categories, txs[1..]);
      match (CategoryWithId(categories, t.categoryId), AccountWithId(accounts, t.accountId))
      case (Some(c), Some(a)) =>
        if t.amount != 0.0 then [Row(t.date, t.amount, t.description.GetOr(""), c.name, a.name, c.kind)] + rest
        else rest
      case _ => rest
  }

  /** `row` is the query's row for transaction `t`: its category and account exist and its amount is not zero. */
  predicate RowOf(accounts: seq<Account>, categories: seq<Category>, t: Transaction, row: Row) {
    t.amount != 0.0
    && CategoryWithId(categories, t.categoryId).Some? && AccountWithId(accounts, t.accountId).Some?
    && var c := CategoryWithId(categories, t.categoryId).value;
       row == Row(t.date, t.amount, t.description.GetOr(""), c.name, AccountWithId(accounts, t.accountId).value.name, c.kind)
  }

  /** Exactly the rows of transactions the JOINs and the WHERE keep are read. */
  lemma {:induction false} RowsMembers(accounts: seq<Account>, categories: seq<Category>, txs: seq<Transaction>, row: Row)
    ensures row in Rows(accounts, categories, txs) <==> exists t :: t in txs && RowOf(accounts, categories, t, row)
  {
    if txs != [] {
      var t := txs[0];
      var rest := Rows(accounts, categories, txs[1..]);
      RowsMembers(accounts, categories, txs[1..], row);
      assert forall t :: t in txs <==> t == txs[0] || t in txs[1..];
      if t.amount != 0.0 && CategoryWithId(categories, t.categoryId).Some? && AccountWithId(accounts, t.accountId).Some? {
        var c := CategoryWithId(categories, t.categoryId).value;
        var x := Row(t.date, t.amount, t.description.GetOr(""), c.name, AccountWithId(accounts, t.accountId).value.name, c.kind);
        assert Rows(accounts, categories, txs) == [x] + rest;
        assert RowOf(accounts, categories, t, x);
      } else {
        assert Rows(accounts, categories, txs) == rest;
      }
    }
  }

  function RowDate(row: Row): real {
    DayNumber(row.date) as real
  }

  function RowAmount(row: Row): real {
    row.amount
  }

  /** `description.str.lower().str.strip()`. */
  function NormalizedDesc(row: Row): string {
    Strip(Lower(row.description))
  }

  /** Income rows share one description key; the others use their normalised description. */
  function GroupingDesc(row: Row): string {
    if row.kind == Income then IncomeGroup else NormalizedDesc(row)
  }

  /** `round(amount / 50)` for income, `round(amount / 5)` otherwise. */
  function AmountBucket(row: Row): int {
    if row.kind == Income then RoundHalfEven(row.amount / 50.0) else RoundHalfEven(row.amount / 5.0)
  }

  datatype GroupKey = GroupKey(category: string, account: string, desc: string, bucket: int)

  /** The `groupby(['category_name', 'account_name', 'grouping_desc', 'amount_group'])` key. */
  function KeyOf(row: Row): GroupKey {
    GroupKey(row.category, row.account, GroupingDesc(row), AmountBucket(row))
  }

  /** The rows of one group, in their order in `rows`. */
  function Members(rows: seq<Row>, k: GroupKey): seq<Row> {
    if rows == [] then []
    else (if KeyOf(rows[0]) == k then [rows[0]] else []) + Members(rows[1..], k)
  }

  /** A group holds exactly the rows with its key. */
  lemma {:induction false} MembersAreKeyed(rows: seq<Row>, k: GroupKey, row: Row)
    ensures row in Members(rows, k) <==> row in rows && KeyOf(row) == k
  {
    if rows != [] {
      assert row in rows <==> row == rows[0] || row in rows[1..];
      MembersAreKeyed(rows[1..], k, row);
    }
  }

  /** The distinct keys, in order of first appearance. */
  function GroupKeys(rows: seq<Row>): (ks: seq<GroupKey>)
    ensures forall k :: k in ks <==> exists row :: row in rows && KeyOf(row) == k
    ensures forall i, j :: 0 <= i < j < |ks| ==> ks[i] != ks[j]
  {
    if rows == [] then []
    else
      var last := rows[|rows| - 1];
      var prefix := rows[..|rows| - 1];
      assert rows == prefix + [last];
      assert forall row :: row in rows <==> row in prefix || row == last;
      var ks := GroupKeys(prefix);
      if KeyOf(last) in ks then ks else ks + [KeyOf(last)]
  }

  /** `date.diff().dt.days` without its leading NaN: the days between consecutive rows. */
  function Gaps(g: seq<Row>): (gaps: seq<int>)
    ensures |gaps| == if |g| == 0 then 0 else |g| - 1
    ensures forall i :: 0 <= i < |gaps| ==> gaps[i] == DayNumber(g[i + 1].date) - DayNumber(g[i].date)
  {
    if |g| < 2 then [] else [DayNumber(g[1].date) - DayNumber(g[0].date)] + Gaps(g[1..])
  }

  /** `gaps.between(lo, hi).sum()`. */
  function CountBetween(gaps: seq<int>, lo: int, hi: int): (n: nat)
    ensures n <= |gaps|
  {
    if gaps == [] then 0 else (if lo <= gaps[0] <= hi then 1 else 0) + CountBetween(gaps[1..], lo, hi)
  }

  /**
   * Monthly when at least 80% of the gaps last 28 to 32 days, else weekly
   * when at least 80% last 6 to 8 days, else neither. The ratio test
   * `hits / (len - 1) >= 0.8` is written `5 * hits >= 4 * (len - 1)`.
   */
  function Classify(gaps: seq<int>): Option<Interval> {
    if 5 * CountBetween(gaps, 28, 32) >= 4 * |gaps| then Some(Monthly)
    else if 5 * CountBetween(gaps, 6, 8) >= 4 * |gaps| then Some(Weekly)
    else None
  }

  /** `group['amount'].mean()`. */
  function Mean(g: seq<Row>): real
    requires g != []
  {
    SumBy(g, RowAmount) / |g| as real
  }

  /** The category for the income group, else the first row's description with its first letter upper-cased. */
  function DisplayName(k: GroupKey, g: seq<Row>): string
    requires g != []
  {
    if k.desc == IncomeGroup then k.category
    else
      var desc := NormalizedDesc(g[0]);
      if desc != [] then UpperFirst(desc) else Unnamed
  }

  /** The identity of a recurring rule in the duplicate check. */
  datatype RuleKey = RuleKey(name: string, interval: Interval, category: string, account: string)

  datatype Suggestion = Suggestion(name: string, amount: real, interval: Interval, category: string,
                                   account: string, start: CalendarDate)

  /** The suggestion one group yields, if any. */
  function SuggestionFor(rows: seq<Row>, k: GroupKey, existing: set<RuleKey>): Option<Suggestion> {
    var g := Members(rows, k);
    if |g| < 3 then None
    else
      match Classify(Gaps(g))
      case None => None
      case Some(interval) =>
        var name := DisplayName(k, g);
        if RuleKey(Strip(Lower(name)), interval, k.category, k.account) in existing then None
        else Some(Suggestion(name, Mean(g), interval, k.category, k.account, g[0].date))
  }

  /** The suggestions of the groups `keys`, in that order. */
  function Suggestions(rows: seq<Row>, keys: seq<GroupKey>, existing: set<RuleKey>): seq<Suggestion> {
    if keys == [] then []
    else
      var k := keys[|keys| - 1];
      Suggestions(rows, keys[..|keys| - 1], existing)
      + (match SuggestionFor(rows, k, existing) case Some(s) => [s] case None => [])
  }

  /** The key of a stored rule, when its account and category exist (the query's inner JOINs). */
  function StoredKey(accounts: seq<Account>, categories: seq<Category>, r: RecurringRule): Option<RuleKey> {
    match (AccountWithId(accounts, r.accountId), CategoryWithId(categories, r.categoryId))
    case (Some(a), Some(c)) => Some(RuleKey(Strip(Lower(r.name)), r.interval, c.name, a.name))
    case _ => None
  }

  /** The keys of the stored rules. */
  function StoredKeys(accounts: seq<Account>, categories: seq<Category>, recurring: seq<RecurringRule>): set<RuleKey> {
    if recurring == [] then {}
    else
      var r := recurring[|recurring| - 1];
      StoredKeys(accounts, categories, recurring[..|recurring| - 1])
      + (match StoredKey(accounts, categories, r) case Some(key) => {key} case None => {})
  }

  /** The rows in date order, as the engine groups them. */
  function DatedRows(accounts: seq<Account>, categories: seq<Category>, txs: seq<Transaction>): seq<Row> {
    SortBy(Rows(accounts, categories, txs), RowDate)
  }

  /** The `existing_recurring` set, filled one stored rule at a time. */
  method CollectStoredKeys(accounts: seq<Account>, categories: seq<Category>, recurring: seq<RecurringRule>)
    returns (existing: set<RuleKey>)
    ensures existing == StoredKeys(accounts, categories, recurring)
  {
    existing := {};
    var i := 0;
    while i < |recurring|
      invariant 0 <= i <= |recurring|
      invariant existing == StoredKeys(accounts, categories, recurring[..i])
    {
      assert recurring[..i + 1][..i] == recurring[..i];
      var key := StoredKey(accounts, categories, recurring[i]);
      if key.Some? {
        existing := existing + {key.value};
      }
      i := i + 1;
    }
    assert recurring[..|recurring|] == recurring;
  }

  /** `find_recurring_suggestions()`. */
  method FindRecurringSuggestions(accounts: seq<Account>, categories: seq<Category>, txs: seq<Transaction>,
                                  recurring: seq<RecurringRule>) returns (suggestions: seq<Suggestion>)
    ensures var rows := DatedRows(accounts, categories, txs);
            suggestions == Suggestions(rows, GroupKeys(rows), StoredKeys(accounts, categories, recurring))
  {
    var rows := Rows(accounts, categories, txs);
    if rows == [] {
      return [];
    }
    rows := SortBy(rows, RowDate);

    var existing := CollectStoredKeys(accounts, categories, recurring);
    var keys := GroupKeys(rows);
    suggestions := [];
    var j := 0;
    while j < |keys|
      invariant 0 <= j <= |keys|
      invariant suggestions == Suggestions(rows, keys[..j], existing)
    {
      assert keys[..j + 1][..j] == keys[..j];
      var k := keys[j];
      ghost var expected := SuggestionFor(rows, k, existing);
      var group := Members(rows, k);
      if |group| >= 3 {
        var interval := Classify(Gaps(group));
        if interval.Some? {
          var name := DisplayName(k, group);
          if RuleKey(Strip(Lower(name)), interval.value, k.category, k.account) !in existing {
            suggestions := suggestions + [Suggestion(name, Mean(group), interval.value, k.category, k.account, group[0].date)];
          }
        }
      }
      j := j + 1;
    }
    assert keys[..|keys|] == keys;
  }

  // ---- Properties ----

  /** The exact test is the source's ratio test. */
  lemma ClassifyIsRatioTest(gaps: seq<int>)
    requires gaps != []
    ensures Classify(gaps) == Some(Monthly) <==> (CountBetween(gaps, 28, 32) as real) / (|gaps| as real) >= 0.8
    ensures Classify(gaps) == Some(Weekly) <==>
              (CountBetween(gaps, 28, 32) as real) / (|gaps| as real) < 0.8
              && (CountBetween(gaps, 6, 8) as real) / (|gaps| as real) >= 0.8
    ensures Classify(gaps) == None <==>
              (CountBetween(gaps, 28, 32) as real) / (|gaps| as real) < 0.8
              && (CountBetween(gaps, 6, 8) as real) / (|gaps| as real) < 0.8
  {
    var n := |gaps| as real;
    RatioTest(CountBetween(gaps, 28, 32) as real, n);
    RatioTest(CountBetween(gaps, 6, 8) as real, n);
  }

  lemma RatioTest(h: real, n: real)
    requires n > 0.0
    ensures 5.0 * h >= 4.0 * n <==> h / n >= 0.8
  {
    assert h == (h / n) * n;
  }

  /** Gaps of 30, 30 and 31 days are monthly; 5, 40 and 2 are neither; four monthly gaps in five still count (80%). */
  lemma ClassifyExamples()
    ensures Classify([30, 30, 31]) == Some(Monthly)
    ensures Classify([5, 40, 2]) == None
    ensures Classify([30, 30, 30, 30, 10]) == Some(Monthly)
    ensures Classify([7, 7, 30]) == None
  {
    assert CountBetween([30, 30, 31], 28, 32) == 3;
    assert CountBetween([5, 40, 2], 28, 32) == 0;
    assert CountBetween([5, 40, 2], 6, 8) == 0;
    assert CountBetween([30, 30, 30, 30, 10], 28, 32) == 4;
    assert CountBetween([7, 7, 30], 28, 32) == 1;
    assert CountBetween([7, 7, 30], 6, 8) == 2;
  }

  /** Groups of fewer than three rows never yield a suggestion. */
  lemma SmallGroupsYieldNothing(rows: seq<Row>, k: GroupKey, existing: set<RuleKey>)
    requires |Members(rows, k)| < 3
    ensures SuggestionFor(rows, k, existing).None?
  {
  }

  /** A suggestion lists exactly the groups' suggestions, one per qualifying key. */
  lemma {:induction false} SuggestionsMembers(rows: seq<Row>, keys: seq<GroupKey>, existing: set<RuleKey>, s: Suggestion)
    ensures s in Suggestions(rows, keys, existing) <==> exists k :: k in keys && SuggestionFor(rows, k, existing) == Some(s)
  {
    if keys != [] {
      var prefix := keys[..|keys| - 1];
      assert keys == prefix + [keys[|keys| - 1]];
      assert forall k :: k in keys <==> k in prefix || k == keys[|keys| - 1];
      SuggestionsMembers(rows, prefix, existing, s);
    }
  }

  /** A group's rows in a date-sorted table are in date order. */
  lemma {:induction false} MembersSorted(rows: seq<Row>, k: GroupKey)
    requires SortedBy(rows, RowDate)
    ensures SortedBy(Members(rows, k), RowDate)
  {
    if rows != [] {
      TailSorted(rows, RowDate);
      MembersSorted(rows[1..], k);
      if KeyOf(rows[0]) == k {
        var rest := Members(rows[1..], k);
        forall row | row in rest ensures RowDate(rows[0]) <= RowDate(row) {
          MembersAreKeyed(rows[1..], k, row);
          HeadIsLeast(rows, RowDate, row);
        }
        ConsSorted(rows[0], rest, RowDate);
      }
    }
  }

  lemma TailSorted<T>(s: seq<T>, key: T -> real)
    requires s != [] && SortedBy(s, key)
    ensures SortedBy(s[1..], key)
  {
    forall i, j | 0 <= i < j < |s[1..]| ensures key(s[1..][i]) <= key(s[1..][j]) {
      assert s[1..][i] == s[i + 1] && s[1..][j] == s[j + 1];
    }
  }

  lemma HeadIsLeast<T>(s: seq<T>, key: T -> real, x: T)
    requires s != [] && SortedBy(s, key) && x in s[1..]
    ensures key(s[0]) <= key(x)
  {
    var j :| 0 <= j < |s[1..]| && s[1..][j] == x;
    assert s[j + 1] == x;
  }

  lemma ConsSorted<T>(x: T, rest: seq<T>, key: T -> real)
    requires SortedBy(rest, key)
    requires forall y :: y in rest ==> key(x) <= key(y)
    ensures SortedBy([x] + rest, key)
  {
    var g := [x] + rest;
    forall i, j | 0 <= i < j < |g| ensures key(g[i]) <= key(g[j]) {
      if i == 0 {
        assert g[j] == rest[j - 1];
        assert g[j] in rest;
      } else {
        assert g[i] == rest[i - 1] && g[j] == rest[j - 1];
      }
    }
  }

  /**
   * What a suggestion states: a group of at least three rows classified as
   * its interval, for its category and account, named after the group, with
   * the group's mean amount, starting on its earliest date, and not
   * duplicating a stored rule.
   */
  lemma SuggestionFacts(rows: seq<Row>, k: GroupKey, existing: set<RuleKey>)
    requires SortedBy(rows, RowDate)
    requires SuggestionFor(rows, k, existing).Some?
    ensures var s := SuggestionFor(rows, k, existing).value;
            var g := Members(rows, k);
            |g| >= 3 && Classify(Gaps(g)) == Some(s.interval)
            && s.category == k.category && s.account == k.account
            && s.name == DisplayName(k, g) && s.amount == Mean(g)
            && RuleKey(Strip(Lower(s.name)), s.interval, s.category, s.account) !in existing
            && (exists row :: row in g && row.date == s.start)
            && forall row :: row in g ==> DayNumber(s.start) <= DayNumber(row.date)
  {
    var g := Members(rows, k);
    MembersSorted(rows, k);
    FirstIsEarliest(g);
    assert g[0] in g;
  }

  /** In rows sorted by date the first row has the earliest date. */
  lemma FirstIsEarliest(g: seq<Row>)
    requires |g| >= 1 && SortedBy(g, RowDate)
    ensures forall row :: row in g ==> DayNumber(g[0].date) <= DayNumber(row.date)
  {
    forall row | row in g ensures DayNumber(g[0].date) <= DayNumber(row.date) {
      var j :| 0 <= j < |g| && g[j] == row;
      if j > 0 {
        assert RowDate(g[0]) <= RowDate(g[j]);
      }
    }
  }

  /** Every method result satisfies the suggestion facts, for some group of the table. */
  lemma ResultsAreGroupSuggestions(accounts: seq<Account>, categories: seq<Category>, txs: seq<Transaction>,
                                   recurring: seq<RecurringRule>, s: Suggestion)
    requires var rows := DatedRows(accounts, categories, txs);
             s in Suggestions(rows, GroupKeys(rows), StoredKeys(accounts, categories, recurring))
    ensures var rows := DatedRows(accounts, categories, txs);
            exists k :: k in GroupKeys(rows) && SuggestionFor(rows, k, StoredKeys(accounts, categories, recurring)) == Some(s)
                        && RuleKey(Strip(Lower(s.name)), s.interval, s.category, s.account) !in StoredKeys(accounts, categories, recurring)
  {
    var rows := DatedRows(accounts, categories, txs);
    var existing := StoredKeys(accounts, categories, recurring);
    SuggestionsMembers(rows, GroupKeys(rows), existing, s);
    var k :| k in GroupKeys(rows) && SuggestionFor(rows, k, existing) == Some(s);
    SortBySorted(Rows(accounts, categories, txs), RowDate);
    SuggestionFacts(rows, k, existing);
  }

  /**
   * Buckets absorb small variations: salaries of 1490 and 1510 share the
   * bucket 30; expenses of 47.5 and 52.5 share the bucket 10, since halves
   * round to the even neighbour, while 57.5 goes to 12.
   */
  lemma BucketExamples()
    ensures RoundHalfEven(1490.0 / 50.0) == 30 && RoundHalfEven(1510.0 / 50.0) == 30
    ensures RoundHalfEven(47.5 / 5.0) == 10 && RoundHalfEven(52.5 / 5.0) == 10
    ensures RoundHalfEven(57.5 / 5.0) == 12
  {
    RoundHalfEvenUnique(1490.0 / 50.0, 30);
    RoundHalfEvenUnique(1510.0 / 50.0, 30);
    RoundHalfEvenUnique(47.5 / 5.0, 10);
    RoundHalfEvenUnique(52.5 / 5.0, 10);
    RoundHalfEvenUnique(57.5 / 5.0, 12);
  }

  /** Income rows of one category and account group together whatever their descriptions. */
  lemma IncomeIgnoresDescription(a: Row, b: Row)
    requires a.kind == Income && b.kind == Income
    requires a.category == b.category && a.account == b.account && AmountBucket(a) == AmountBucket(b)
    ensures KeyOf(a) == KeyOf(b)
  {
  }

  /** A group of identical amounts suggests that amount. */
  lemma {:induction false} MeanOfEqualAmounts(g: seq<Row>, x: real)
    requires g != []
    requires forall row :: row in g ==> row.amount == x
    ensures Mean(g) == x
  {
    SumOfEqualAmounts(g, x);
  }

  lemma {:induction false} SumOfEqualAmounts(g: seq<Row>, x: real)
    requires forall row :: row in g ==> row.amount == x
    ensures SumBy(g, RowAmount) == |g| as real * x
  {
    if g != [] {
      assert forall row :: row in g[1..] ==> row in g;
      SumOfEqualAmounts(g[1..], x);
    }
  }
}
