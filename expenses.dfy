/**
 * `get_actual_expenses_by_year`: the year's outflows grouped by month,
 * category and account, turned into positive amounts, plus one roll-up
 * entry per month and category under the account name "Tutti i conti".
 */
module Expenses {
  import opened Wrappers
  import opened Numbers
  import opened Dates
  import opened Ledger

  /** The account name of the roll-up entries. */
  const AllAccounts: string := "Tutti i conti"

  datatype Key = Key(month: int, category: string, account: string)

  /** A joined transaction row of the query, before grouping. */
  datatype Item = Item(key: Key, amount: real)

  /** A row of the `GROUP BY month, category_name, account_name` result. */
  datatype Group = Group(key: Key, total: real)

  /** The roll-up key of a key: same month and category, all accounts. */
  function RollUpKey(k: Key): Key {
    Key(k.month, k.category, AllAccounts)
  }

  predicate SameMonthAndCategory(k: Key, month: int, category: string) {
    k.month == month && k.category == category
  }

  /**
   * The rows the query groups: transactions whose category and account
   * exist (the inner JOINs), dated in `year`, with a negative amount.
   * `STRFTIME('%Y', tx_date) = str(year)` compares four-digit text with the
   * plain decimal text of `year`, so years below 1000 never match.
   */
  function ExpenseItems(accounts: seq<Account>, categories: seq<Category>, txs: seq<Transaction>, year: int): (r: seq<Item>)
    ensures forall it :: it in r ==> it.amount < 0.0
  {
    if txs == [] then []
    else
      var t := txs[0];
      var rest := ExpenseItems(accounts, categories, txs[1..], year);
      match (CategoryWithId(categories, t.categoryId), AccountWithId(accounts, t.accountId))
      case (Some(c), Some(a)) =>
        if 1000 <= year && t.date.year == year && t.amount < 0.0 then [Item(Key(t.date.month, c.name, a.name), t.amount)] + rest
        else rest
      case _ => rest
  }

  /**
   * `it` is the item of transaction `t`: its category and account exist, it
   * is dated in `year` (a year of four digits), its amount is negative, and
   * it is keyed by its month, category name and account name.
   */
  predicate ItemOf(accounts: seq<Account>, categories: seq<Category>, year: int, t: Transaction, it: Item) {
    CategoryWithId(categories, t.categoryId).Some? && AccountWithId(accounts, t.accountId).Some?
    && 1000 <= year && t.date.year == year && t.amount < 0.0
    && it == Item(Key(t.date.month, CategoryWithId(categories, t.categoryId).value.name,
                      AccountWithId(accounts, t.accountId).value.name), t.amount)
  }

  /** Exactly the items of transactions the JOINs and the WHERE keep are grouped. */
  lemma {:induction false} ExpenseItemsMembers(accounts: seq<Account>, categories: seq<Category>, txs: seq<Transaction>,
                                               year: int, it: Item)
    ensures it in ExpenseItems(accounts, categories, txs, year) <==> exists t :: t in txs && ItemOf(accounts, categories, year, t, it)
  {
    if txs != [] {
      var t := txs[0];
      var rest := ExpenseItems(accounts, categories, txs[1..], year);
      ExpenseItemsMembers(accounts, categories, txs[1..], year, it);
      assert forall t :: t in txs <==> t == txs[0] || t in txs[1..];
      if CategoryWithId(categories, t.categoryId).Some? && AccountWithId(accounts, t.accountId).Some?
         && 1000 <= year && t.date.year == year && t.amount < 0.0 {
        var x := Item(Key(t.date.month, CategoryWithId(categories, t.categoryId).value.name,
                          AccountWithId(accounts, t.accountId).value.name), t.amount);
        assert ExpenseItems(accounts, categories, txs, year) == [x] + rest;
        assert ItemOf(accounts, categories, year, t, x);
      } else {
        assert ExpenseItems(accounts, categories, txs, year) == rest;
      }
    }
  }

  /** The sum of the items with key `k`. */
  function KeySum(items: seq<Item>, k: Key): real {
    if items == [] then 0.0 else (if items[0].key == k then items[0].amount else 0.0) + KeySum(items[1..], k)
  }

  /** The sum of the items of one month and category, over all accounts. */
  function MonthCategorySum(items: seq<Item>, month: int, category: string): real {
    if items == [] then 0.0
    else (if SameMonthAndCategory(items[0].key, month, category) then items[0].amount else 0.0)
         + MonthCategorySum(items[1..], month, category)
  }

  /** The total of the group with key `k`, 0 when there is none. */
  function GroupTotal(gs: seq<Group>, k: Key): real {
    if gs == [] then 0.0 else (if gs[0].key == k then gs[0].total else 0.0) + GroupTotal(gs[1..], k)
  }

  /** The totals of the groups of one month and category. */
  function GroupsMonthCategory(gs: seq<Group>, month: int, category: string): real {
    if gs == [] then 0.0
    else (if SameMonthAndCategory(gs[0].key, month, category) then gs[0].total else 0.0)
         + GroupsMonthCategory(gs[1..], month, category)
  }

  predicate HasKey(gs: seq<Group>, k: Key) {
    exists g :: g in gs && g.key == k
  }

  predicate DistinctKeys(gs: seq<Group>) {
    forall i, j :: 0 <= i < j < |gs| ==> gs[i].key != gs[j].key
  }

  /** Adds one row to the group of its key, opening the group if needed. */
  function AddItem(gs: seq<Group>, it: Item): (r: seq<Group>)
    ensures HasKey(r, it.key)
    ensures forall g :: g in r ==> g in gs || g.key == it.key
  {
    if gs == [] then [Group(it.key, it.amount)]
    else if gs[0].key == it.key then [gs[0].(total := gs[0].total + it.amount)] + gs[1..]
    else
      var rest := AddItem(gs[1..], it);
      assert forall g :: g in gs[1..] ==> g in gs;
      [gs[0]] + rest
  }

  /** Adding a row adds its amount to its own group and to no other. */
  lemma {:induction false} AddItemKeyTotal(gs: seq<Group>, it: Item, k: Key)
    ensures GroupTotal(AddItem(gs, it), k) == GroupTotal(gs, k) + (if k == it.key then it.amount else 0.0)
  {
    var r := AddItem(gs, it);
    if gs != [] {
      if gs[0].key == it.key {
        assert r[1..] == gs[1..];
      } else {
        assert r[1..] == AddItem(gs[1..], it);
        AddItemKeyTotal(gs[1..], it, k);
      }
    }
  }

  /** Adding a row adds its amount to its own month and category and to no other. */
  lemma {:induction false} AddItemMonthCategory(gs: seq<Group>, it: Item, m: int, c: string)
    ensures GroupsMonthCategory(AddItem(gs, it), m, c)
            == GroupsMonthCategory(gs, m, c) + (if SameMonthAndCategory(it.key, m, c) then it.amount else 0.0)
  {
    var r := AddItem(gs, it);
    if gs != [] {
      if gs[0].key == it.key {
        assert r[1..] == gs[1..];
      } else {
        assert r[1..] == AddItem(gs[1..], it);
        AddItemMonthCategory(gs[1..], it, m, c);
      }
    }
  }

  /** Adding a row keeps every existing group's key. */
  lemma {:induction false} AddItemKeepsKeys(gs: seq<Group>, it: Item)
    ensures forall g :: g in gs ==> HasKey(AddItem(gs, it), g.key)
  {
    var r := AddItem(gs, it);
    if gs != [] {
      assert forall g :: g in gs ==> g == gs[0] || g in gs[1..];
      if gs[0].key == it.key {
        assert r[1..] == gs[1..];
        assert forall g :: g in gs[1..] ==> g in r;
      } else {
        assert r[1..] == AddItem(gs[1..], it);
        AddItemKeepsKeys(gs[1..], it);
        assert r[0] == gs[0];
        assert forall g :: g in r[1..] ==> g in r;
      }
    }
  }

  /** Distinct keys stay distinct in the tail, and differ from the head's. */
  lemma DistinctKeysTail(gs: seq<Group>)
    requires gs != [] && DistinctKeys(gs)
    ensures DistinctKeys(gs[1..])
    ensures forall g :: g in gs[1..] ==> g.key != gs[0].key
  {
    forall i, j | 0 <= i < j < |gs[1..]| ensures gs[1..][i].key != gs[1..][j].key {
      assert gs[1..][i] == gs[i + 1] && gs[1..][j] == gs[j + 1];
    }
    forall g | g in gs[1..] ensures g.key != gs[0].key {
      var k :| 0 <= k < |gs[1..]| && gs[1..][k] == g;
      assert gs[k + 1] == g;
    }
  }

  /** Adding a row keeps the keys distinct. */
  lemma {:induction false} AddItemDistinct(gs: seq<Group>, it: Item)
    requires DistinctKeys(gs)
    ensures DistinctKeys(AddItem(gs, it))
  {
    var r := AddItem(gs, it);
    if gs != [] {
      if gs[0].key == it.key {
        assert r[1..] == gs[1..];
        assert forall i :: 0 <= i < |r| ==> r[i].key == gs[i].key;
      } else {
        var rest := AddItem(gs[1..], it);
        assert r[1..] == rest;
        DistinctKeysTail(gs);
        AddItemDistinct(gs[1..], it);
        assert r[0] == gs[0];
        forall i, j | 0 <= i < j < |r| ensures r[i].key != r[j].key {
          if i == 0 {
            assert r[j] == rest[j - 1];
            assert r[j] in rest;
          } else {
            assert r[i] == rest[i - 1] && r[j] == rest[j - 1];
          }
        }
      }
    }
  }

  /** Adding a row keeps every group total negative when the row is an outflow. */
  lemma {:induction false} AddItemNegative(gs: seq<Group>, it: Item)
    requires forall g :: g in gs ==> g.total < 0.0
    requires it.amount < 0.0
    ensures forall g :: g in AddItem(gs, it) ==> g.total < 0.0
  {
    if gs != [] {
      assert gs[0] in gs;
      assert forall g :: g in gs[1..] ==> g in gs;
      if gs[0].key != it.key {
        AddItemNegative(gs[1..], it);
      }
    }
  }

  /** `GROUP BY month, category_name, account_name` with `SUM(t.amount)`. */
  function GroupItems(items: seq<Item>): seq<Group> {
    if items == [] then [] else AddItem(GroupItems(items[1..]), items[0])
  }

  /** The groups partition the rows: one group per key, holding the sum of that key's rows. */
  lemma {:induction false} GroupItemsSums(items: seq<Item>)
    ensures DistinctKeys(GroupItems(items))
    ensures forall k :: GroupTotal(GroupItems(items), k) == KeySum(items, k)
    ensures forall m, c :: GroupsMonthCategory(GroupItems(items), m, c) == MonthCategorySum(items, m, c)
  {
    if items != [] {
      GroupItemsSums(items[1..]);
      AddItemDistinct(GroupItems(items[1..]), items[0]);
      forall k ensures GroupTotal(GroupItems(items), k) == KeySum(items, k) {
        AddItemKeyTotal(GroupItems(items[1..]), items[0], k);
      }
      forall m, c ensures GroupsMonthCategory(GroupItems(items), m, c) == MonthCategorySum(items, m, c) {
        AddItemMonthCategory(GroupItems(items[1..]), items[0], m, c);
      }
    }
  }

  /** Every row has its group, every group comes from a row, and with outflows every group total is negative. */
  lemma {:induction false} GroupItemsKeys(items: seq<Item>)
    ensures forall g :: g in GroupItems(items) ==> exists it :: it in items && it.key == g.key
    ensures forall it :: it in items ==> HasKey(GroupItems(items), it.key)
    ensures (forall it :: it in items ==> it.amount < 0.0) ==> forall g :: g in GroupItems(items) ==> g.total < 0.0
  {
    if items != [] {
      assert forall it :: it in items ==> it == items[0] || it in items[1..];
      GroupItemsKeys(items[1..]);
      AddItemKeepsKeys(GroupItems(items[1..]), items[0]);
      if forall it :: it in items ==> it.amount < 0.0 {
        AddItemNegative(GroupItems(items[1..]), items[0]);
      }
    }
  }

  /** With distinct keys, a group's total is the total for its key. */
  lemma {:induction false} GroupTotalOfMember(gs: seq<Group>, g: Group)
    requires DistinctKeys(gs) && g in gs
    ensures GroupTotal(gs, g.key) == g.total
  {
    if gs[0] == g {
      GroupTotalAbsent(gs[1..], g.key) by {
        forall h | h in gs[1..] ensures h.key != g.key {
          var k :| 0 <= k < |gs[1..]| && gs[1..][k] == h;
          assert gs[k + 1] == h;
        }
      }
    } else {
      assert DistinctKeys(gs[1..]) by {
        forall i, j | 0 <= i < j < |gs[1..]| ensures gs[1..][i].key != gs[1..][j].key {
          assert gs[1..][i] == gs[i + 1] && gs[1..][j] == gs[j + 1];
        }
      }
      assert g in gs[1..];
      GroupTotalOfMember(gs[1..], g);
      var k :| 0 <= k < |gs| && gs[k] == g;
      assert k != 0;
      assert gs[0].key != g.key;
    }
  }

  lemma {:induction false} GroupTotalAbsent(gs: seq<Group>, k: Key)
    requires forall g :: g in gs ==> g.key != k
    ensures GroupTotal(gs, k) == 0.0
  {
    if gs != [] {
      assert forall g :: g in gs[1..] ==> g in gs;
      GroupTotalAbsent(gs[1..], k);
    }
  }

  /** The month-and-category sum over a prefix extended by one group. */
  lemma {:induction false} GroupsMonthCategorySnoc(gs: seq<Group>, g: Group, m: int, c: string)
    ensures GroupsMonthCategory(gs + [g], m, c)
            == GroupsMonthCategory(gs, m, c) + (if SameMonthAndCategory(g.key, m, c) then g.total else 0.0)
  {
    if gs != [] {
      assert (gs + [g])[1..] == gs[1..] + [g];
      GroupsMonthCategorySnoc(gs[1..], g, m, c);
    }
  }

  /** The month-and-category sums over the first `i + 1` groups, from those over the first `i`. */
  lemma GroupsMonthCategoryPrefix(groups: seq<Group>, i: nat)
    requires i < |groups|
    ensures forall m, c :: GroupsMonthCategory(groups[..i + 1], m, c)
                           == GroupsMonthCategory(groups[..i], m, c)
                              + (if SameMonthAndCategory(groups[i].key, m, c) then groups[i].total else 0.0)
  {
    assert groups[..i + 1] == groups[..i] + [groups[i]];
    forall m, c ensures GroupsMonthCategory(groups[..i + 1], m, c)
                        == GroupsMonthCategory(groups[..i], m, c)
                           + (if SameMonthAndCategory(groups[i].key, m, c) then groups[i].total else 0.0)
    {
      GroupsMonthCategorySnoc(groups[..i], groups[i], m, c);
    }
  }

  /** The month and category a key is summed under. */
  function MonthAndCategory(k: Key): (int, string) {
    (k.month, k.category)
  }

  /** The month-and-category pairs of the groups. */
  ghost function PairsOf(gs: seq<Group>): set<(int, string)> {
    set g | g in gs :: MonthAndCategory(g.key)
  }

  lemma PairsOfSnoc(gs: seq<Group>, g: Group)
    ensures PairsOf(gs + [g]) == PairsOf(gs) + {MonthAndCategory(g.key)}
  {
    assert forall h :: h in gs + [g] <==> h in gs || h == g;
  }

  /** A month and category no group has sums to zero. */
  lemma {:induction false} NoPairNoSum(gs: seq<Group>, m: int, c: string)
    requires (m, c) !in PairsOf(gs)
    ensures GroupsMonthCategory(gs, m, c) == 0.0
  {
    if gs != [] {
      assert gs[0] in gs;
      assert forall h :: h in gs[1..] ==> h in gs;
      NoPairNoSum(gs[1..], m, c);
    }
  }

  /** The second loop's invariant: `totals` and `order` hold the sums of the first `i` groups. */
  ghost predicate TotalsUpTo(groups: seq<Group>, i: nat, totals: map<(int, string), real>, order: seq<(int, string)>)
    requires i <= |groups|
  {
    (forall x :: x in totals <==> x in order)
    && totals.Keys == PairsOf(groups[..i])
    && (forall x :: x in totals ==> totals[x] == -GroupsMonthCategory(groups[..i], x.0, x.1))
  }

  /** One iteration of the second loop keeps its invariant. */
  lemma TotalsStep(groups: seq<Group>, i: nat, totals: map<(int, string), real>, order: seq<(int, string)>, amount: real)
    requires i < |groups| && TotalsUpTo(groups, i, totals, order)
    requires amount == -groups[i].total
    ensures var x := MonthAndCategory(groups[i].key);
            TotalsUpTo(groups, i + 1, totals[x := (if x in totals then totals[x] else 0.0) + amount],
                       if x in totals then order else order + [x])
  {
    var g := groups[i];
    var x := MonthAndCategory(g.key);
    var t := totals[x := (if x in totals then totals[x] else 0.0) + amount];
    GroupsMonthCategoryPrefix(groups, i);
    assert groups[..i + 1] == groups[..i] + [g];
    PairsOfSnoc(groups[..i], g);
    if x !in totals {
      NoPairNoSum(groups[..i], x.0, x.1);
    }
    forall y | y in t ensures t[y] == -GroupsMonthCategory(groups[..i + 1], y.0, y.1) {
      if y != x {
        assert !SameMonthAndCategory(g.key, y.0, y.1);
      }
    }
  }

  /** First loop: each group's sum as a positive amount, keyed by month, category and account. */
  method PositiveTotals(groups: seq<Group>) returns (actuals: map<Key, real>)
    requires DistinctKeys(groups)
    requires forall g :: g in groups ==> g.total < 0.0
    ensures forall g :: g in groups ==> g.key in actuals && actuals[g.key] == -g.total
    ensures forall k :: k in actuals ==> HasKey(groups, k)
  {
    actuals := map[];
    var i := 0;
    while i < |groups|
      invariant 0 <= i <= |groups|
      invariant forall j :: 0 <= j < i ==> groups[j].key in actuals && actuals[groups[j].key] == -groups[j].total
      invariant forall k :: k in actuals ==> exists j :: 0 <= j < i && groups[j].key == k
    {
      assert groups[i] in groups;
      actuals := actuals[groups[i].key := Abs(groups[i].total)];
      i := i + 1;
    }
    forall g | g in groups ensures g.key in actuals && actuals[g.key] == -g.total {
      var j :| 0 <= j < |groups| && groups[j] == g;
    }
    forall k | k in actuals ensures HasKey(groups, k) {
      var j :| 0 <= j < |groups| && groups[j].key == k;
      assert groups[j] in groups;
    }
  }

  /**
   * Second loop: the positive amounts summed by month and category, with
   * the pairs in order of first appearance (the dictionary's order).
   */
  method TotalsByCategory(groups: seq<Group>, actuals: map<Key, real>)
    returns (totals: map<(int, string), real>, order: seq<(int, string)>)
    requires forall g :: g in groups ==> g.key in actuals && actuals[g.key] == -g.total
    ensures forall x :: x in totals <==> x in order
    ensures forall x :: x in totals <==> exists g :: g in groups && SameMonthAndCategory(g.key, x.0, x.1)
    ensures forall x :: x in totals ==> totals[x] == -GroupsMonthCategory(groups, x.0, x.1)
  {
    totals := map[];
    order := [];
    var i := 0;
    while i < |groups|
      invariant 0 <= i <= |groups|
      invariant TotalsUpTo(groups, i, totals, order)
    {
      var g := groups[i];
      var x := MonthAndCategory(g.key);
      assert g in groups;
      TotalsStep(groups, i, totals, order, actuals[g.key]);
      totals, order := totals[x := (if x in totals then totals[x] else 0.0) + actuals[g.key]],
                       if x in totals then order else order + [x];
      i := i + 1;
    }
    assert groups[..|groups|] == groups;
  }

  /** Third loop: each month-and-category total stored under the account "Tutti i conti". */
  method StoreRollUps(actuals: map<Key, real>, totals: map<(int, string), real>, order: seq<(int, string)>)
    returns (r: map<Key, real>)
    requires forall x :: x in totals <==> x in order
    ensures forall x :: x in totals ==> Key(x.0, x.1, AllAccounts) in r && r[Key(x.0, x.1, AllAccounts)] == totals[x]
    ensures forall k :: k in actuals && k.account != AllAccounts ==> k in r && r[k] == actuals[k]
    ensures forall k :: k in r ==> k in actuals || (k.account == AllAccounts && (k.month, k.category) in totals)
  {
    r := actuals;
    var i := 0;
    while i < |order|
      invariant 0 <= i <= |order|
      invariant forall j :: 0 <= j < i ==> Key(order[j].0, order[j].1, AllAccounts) in r
                                            && r[Key(order[j].0, order[j].1, AllAccounts)] == totals[order[j]]
      invariant forall k :: k in actuals && k.account != AllAccounts ==> k in r && r[k] == actuals[k]
      invariant forall k :: k in r ==> k in actuals || (k.account == AllAccounts && (k.month, k.category) in totals)
    {
      assert order[i] in totals;
      r := r[Key(order[i].0, order[i].1, AllAccounts) := totals[order[i]]];
      i := i + 1;
    }
    forall x | x in totals ensures Key(x.0, x.1, AllAccounts) in r && r[Key(x.0, x.1, AllAccounts)] == totals[x] {
      var j :| 0 <= j < |order| && order[j] == x;
    }
  }

  /**
   * `get_actual_expenses_by_year(year)`: the grouped sums as positive
   * amounts (`abs(total)`), then their totals by month and category stored
   * under the account "Tutti i conti", over any account of that name.
   */
  method ActualExpensesByYear(accounts: seq<Account>, categories: seq<Category>, txs: seq<Transaction>, year: int)
    returns (actuals: map<Key, real>)
    ensures var items := ExpenseItems(accounts, categories, txs, year);
            forall it :: it in items && it.key.account != AllAccounts ==>
              it.key in actuals && actuals[it.key] == -KeySum(items, it.key)
    ensures var items := ExpenseItems(accounts, categories, txs, year);
            forall it :: it in items ==>
              RollUpKey(it.key) in actuals
              && actuals[RollUpKey(it.key)] == -MonthCategorySum(items, it.key.month, it.key.category)
    ensures var items := ExpenseItems(accounts, categories, txs, year);
            forall k :: k in actuals ==> (exists it :: it in items && (it.key == k || RollUpKey(it.key) == k))
  {
    var items := ExpenseItems(accounts, categories, txs, year);
    var groups := GroupItems(items);
    GroupItemsSums(items);
    GroupItemsKeys(items);
    var positive := PositiveTotals(groups);
    var totals, order := TotalsByCategory(groups, positive);
    actuals := StoreRollUps(positive, totals, order);

    forall it | it in items && it.key.account != AllAccounts
      ensures it.key in actuals && actuals[it.key] == -KeySum(items, it.key)
    {
      var g :| g in groups && g.key == it.key;
      GroupTotalOfMember(groups, g);
    }
    forall it | it in items
      ensures RollUpKey(it.key) in actuals
              && actuals[RollUpKey(it.key)] == -MonthCategorySum(items, it.key.month, it.key.category)
    {
      var g :| g in groups && g.key == it.key;
      assert (it.key.month, it.key.category) in totals;
    }
    forall k | k in actuals ensures exists it :: it in items && (it.key == k || RollUpKey(it.key) == k) {
      if k in positive {
        var g :| g in groups && g.key == k;
        var it :| it in items && it.key == g.key;
      } else {
        var g :| g in groups && SameMonthAndCategory(g.key, k.month, k.category);
        var it :| it in items && it.key == g.key;
        assert RollUpKey(it.key) == k;
      }
    }
  }
}
