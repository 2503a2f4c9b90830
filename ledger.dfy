/**
 * The ledger's tables as rows, and the table-level operations of the data
 * layer that do not depend on a date range: row lookup, `get_or_create`,
 * the rows `add_tx` writes, the bulk edits, debt settlement and goals.
 *
 * Each table is a sequence of rows in rowid order. Dates are stored in the
 * database as ISO text; they are modelled as calendar dates, and the text
 * comparisons the queries make (`tx_date < ?`, `BETWEEN`) as date
 * comparisons, which agree for four-digit years.
 */
module Ledger {
  import opened Wrappers
  import opened Numbers
  import opened Dates
  import opened Sorting

  datatype AccountKind = Standard | CreditCard
  datatype Account = Account(id: int, name: string, openingBalance: real, kind: AccountKind,
                             creditLimit: Option<real>, statementDay: Option<int>)

  datatype CategoryKind = Income | Expense | Transfer
  datatype Category = Category(id: int, name: string, kind: CategoryKind)

  datatype Transaction = Transaction(id: int, date: CalendarDate, amount: real, accountId: int,
                                     categoryId: int, description: Option<string>)

  /** The `interval` column: the three values the engine steps by, or any other text. */
  datatype Interval = Daily | Weekly | Monthly | OtherInterval(text: string)
  datatype RecurringRule = RecurringRule(id: int, name: string, start: CalendarDate, interval: Interval,
                                         amount: real, accountId: int, categoryId: int,
                                         description: Option<string>)

  datatype PlanStatus = Planned | Consumed
  datatype PlannedTransaction = PlannedTransaction(id: int, date: CalendarDate, description: string,
                                                   amount: real, categoryId: int, accountId: int,
                                                   status: PlanStatus)

  datatype GoalStatus = Pending | Achieved
  datatype Goal = Goal(id: int, description: string, amount: real, priority: int, status: GoalStatus)

  datatype DebtKind = Lent | Borrowed
  datatype DebtStatus = Outstanding | Settled
  datatype Debt = Debt(id: int, person: string, amount: real, kind: DebtKind,
                       dueDate: Option<CalendarDate>, status: DebtStatus)

  /** A row of the `rules` table: descriptions containing `keyword` get the category. */
  datatype CategoryRule = CategoryRule(id: int, keyword: string, categoryId: int)

  // ---- Row identifiers ----

  function AccountId(a: Account): int { a.id }
  function CategoryId(c: Category): int { c.id }
  function TransactionId(t: Transaction): int { t.id }
  function GoalId(g: Goal): int { g.id }
  function RuleId(r: CategoryRule): int { r.id }

  /**
   * The rowid SQLite gives the next row of an `INTEGER PRIMARY KEY` table:
   * one more than the largest rowid in it, or 1 in an empty table.
   */
  function NextId<T>(rows: seq<T>, id: T -> int): (r: int)
    ensures forall x :: x in rows ==> id(x) < r
    ensures rows == [] ==> r == 1
    ensures rows != [] ==> exists x :: x in rows && id(x) == r - 1
  {
    if rows == [] then 1
    else
      var rest := NextId(rows[1..], id);
      assert forall x :: x in rows[1..] ==> x in rows;
      assert forall x :: x in rows ==> x == rows[0] || x in rows[1..];
      if rows[1..] == [] || id(rows[0]) + 1 >= rest then id(rows[0]) + 1 else rest
  }

  /** No two rows share an identifier. */
  predicate UniqueIds<T>(rows: seq<T>, id: T -> int) {
    forall i, j :: 0 <= i < j < |rows| ==> id(rows[i]) != id(rows[j])
  }

  // ---- Lookups (`SELECT ... WHERE col = ?` then `fetchone()`) ----

  /** The position of the first row satisfying `p`. */
  function FirstIndex<T>(rows: seq<T>, p: T -> bool): (r: Option<nat>)
    ensures r.Some? ==> r.value < |rows| && p(rows[r.value])
    ensures r.Some? ==> forall j :: 0 <= j < r.value ==> !p(rows[j])
    ensures r.None? <==> forall j :: 0 <= j < |rows| ==> !p(rows[j])
  {
    if rows == [] then None
    else if p(rows[0]) then Some(0)
    else match FirstIndex(rows[1..], p)
      case None => None
      case Some(k) => Some(k + 1)
  }

  function AccountNamed(accounts: seq<Account>, name: string): (r: Option<Account>)
    ensures r.Some? ==> r.value in accounts && r.value.name == name
    ensures r.None? <==> forall a :: a in accounts ==> a.name != name
  {
    match FirstIndex(accounts, (a: Account) => a.name == name)
    case None => None
    case Some(i) => Some(accounts[i])
  }

  function AccountWithId(accounts: seq<Account>, id: int): (r: Option<Account>)
    ensures r.Some? ==> r.value in accounts && r.value.id == id
    ensures r.None? <==> forall a :: a in accounts ==> a.id != id
  {
    match FirstIndex(accounts, (a: Account) => a.id == id)
    case None => None
    case Some(i) => Some(accounts[i])
  }

  function CategoryNamed(categories: seq<Category>, name: string): (r: Option<Category>)
    ensures r.Some? ==> r.value in categories && r.value.name == name
    ensures r.None? <==> forall c :: c in categories ==> c.name != name
  {
    match FirstIndex(categories, (c: Category) => c.name == name)
    case None => None
    case Some(i) => Some(categories[i])
  }

  function CategoryWithId(categories: seq<Category>, id: int): (r: Option<Category>)
    ensures r.Some? ==> r.value in categories && r.value.id == id
    ensures r.None? <==> forall c :: c in categories ==> c.id != id
  {
    match FirstIndex(categories, (c: Category) => c.id == id)
    case None => None
    case Some(i) => Some(categories[i])
  }

  function DebtWithId(debts: seq<Debt>, id: int): (r: Option<Debt>)
    ensures r.Some? ==> r.value in debts && r.value.id == id
    ensures r.None? <==> forall d :: d in debts ==> d.id != id
  {
    match FirstIndex(debts, (d: Debt) => d.id == id)
    case None => None
    case Some(i) => Some(debts[i])
  }

  /** Python truthiness of an optional text argument: given and not empty. */
  predicate Given(s: Option<string>) {
    s.Some? && s.value != ""
  }

  // ---- get_or_create ----

  datatype Table = AccountsTable | CategoriesTable | OtherTable(tableName: string)

  /** The exceptions `get_or_create` raises. */
  datatype Fault = TableNotAllowed | NotNullViolation | UniqueViolation

  /** What `get_or_create` returns: an existing id, a newly inserted row, None, or an exception. */
  datatype Lookup = Found(id: int) | Created(row: Category) | NoRow | Failed(fault: Fault)

  /** The id of the row found or made, where there is one. */
  function LookupId(l: Lookup): Option<int> {
    match l
    case Found(id) => Some(id)
    case Created(row) => Some(row.id)
    case _ => None
  }

  /** The categories table after a lookup: one more row when it inserted one. */
  function CategoriesAfter(categories: seq<Category>, l: Lookup): seq<Category> {
    if l.Created? then categories + [l.row] else categories
  }

  /** `get_or_create(c, 'accounts', name)`: accounts are never inserted here. */
  function AccountLookup(accounts: seq<Account>, name: string): (r: Lookup)
    ensures r.Found? || r.NoRow?
    ensures r.Found? <==> exists a :: a in accounts && a.name == name
    ensures r.Found? ==> exists a :: a in accounts && a.name == name && a.id == r.id
  {
    match AccountNamed(accounts, name)
    case Some(a) => Found(a.id)
    case None => NoRow
  }

  /**
   * `get_or_create(c, 'categories', name, type)`. With a type the row is
   * looked up by name and type and inserted with both when missing, which
   * the UNIQUE constraint on the name refuses if the name exists under
   * another type; without a type it is looked up by name, and the INSERT of
   * a bare name breaks the NOT NULL constraint on the type.
   */
  function CategoryLookup(categories: seq<Category>, name: string, kind: Option<CategoryKind>): (r: Lookup)
    ensures !r.NoRow?
    ensures r.Found? ==> exists c :: c in categories && c.name == name && c.id == r.id
                                     && (kind.Some? ==> c.kind == kind.value)
    ensures kind.Some? ==> (r.Found? <==> exists c :: c in categories && c.name == name && c.kind == kind.value)
    ensures kind.Some? ==> (r.Created? <==> forall c :: c in categories ==> c.name != name)
    ensures r.Created? ==> kind.Some? && r.row == Category(NextId(categories, CategoryId), name, kind.value)
    ensures r == Failed(UniqueViolation) <==>
              kind.Some? && (exists c :: c in categories && c.name == name)
              && forall c :: c in categories && c.name == name ==> c.kind != kind.value
    ensures kind.None? ==> (r.Found? <==> exists c :: c in categories && c.name == name)
    ensures kind.None? && !r.Found? ==> r == Failed(NotNullViolation)
  {
    match kind
    case Some(k) =>
      (match FirstIndex(categories, (c: Category) => c.name == name && c.kind == k)
       case Some(i) => Found(categories[i].id)
       case None =>
         if CategoryNamed(categories, name).Some? then Failed(UniqueViolation)
         else Created(Category(NextId(categories, CategoryId), name, k)))
    case None =>
      match CategoryNamed(categories, name)
      case Some(c) => Found(c.id)
      case None => Failed(NotNullViolation)
  }

  /** `get_or_create(c, table, name, type)`. */
  function GetOrCreate(table: Table, accounts: seq<Account>, categories: seq<Category>,
                       name: string, kind: Option<CategoryKind>): (r: Lookup)
    ensures r == Failed(TableNotAllowed) <==> table.OtherTable?
    ensures table == AccountsTable ==> (r.Found? <==> exists a :: a in accounts && a.name == name)
    ensures table == AccountsTable ==> !r.Created? && !r.Failed?
    ensures table == CategoriesTable ==> !r.NoRow?
  {
    match table
    case OtherTable(_) => Failed(TableNotAllowed)
    case AccountsTable => AccountLookup(accounts, name)
    case CategoriesTable => CategoryLookup(categories, name, kind)
  }

  /** A second call with the same arguments finds the row the first found or made, and adds nothing. */
  lemma GetOrCreateIdempotent(table: Table, accounts: seq<Account>, categories: seq<Category>,
                              name: string, kind: Option<CategoryKind>)
    requires LookupId(GetOrCreate(table, accounts, categories, name, kind)).Some?
    ensures var first := GetOrCreate(table, accounts, categories, name, kind);
            GetOrCreate(table, accounts, CategoriesAfter(categories, first), name, kind)
            == Found(LookupId(first).value)
  {
    var first := GetOrCreate(table, accounts, categories, name, kind);
    if first.Created? {
      var after := CategoriesAfter(categories, first);
      var k := kind.value;
      var p := (c: Category) => c.name == name && c.kind == k;
      assert p(after[|categories|]);
      var i := FirstIndex(after, p).value;
      assert forall j :: 0 <= j < |categories| ==> after[j] in categories;
    }
  }

  /** No two categories share a name (the UNIQUE constraint on `categories.name`). */
  predicate UniqueCategoryNames(categories: seq<Category>) {
    forall i, j :: 0 <= i < j < |categories| ==> categories[i].name != categories[j].name
  }

  /** `get_or_create` on categories keeps identifiers and names unique. */
  lemma CategoryLookupKeepsKeys(categories: seq<Category>, name: string, kind: Option<CategoryKind>)
    requires UniqueIds(categories, CategoryId) && UniqueCategoryNames(categories)
    ensures var after := CategoriesAfter(categories, CategoryLookup(categories, name, kind));
            UniqueIds(after, CategoryId) && UniqueCategoryNames(after)
  {
    var l := CategoryLookup(categories, name, kind);
    if l.Created? {
      var after := categories + [l.row];
      forall i | 0 <= i < |categories|
        ensures CategoryId(after[i]) != CategoryId(after[|categories|]) && after[i].name != name
      {
        assert after[i] in categories;
      }
    }
  }

  // ---- add_tx ----

  /** The type `add_tx` asks `get_or_create` for: the existing category's, or expense for a new name. */
  function KindForName(categories: seq<Category>, name: string): CategoryKind {
    match CategoryNamed(categories, name)
    case Some(c) => c.kind
    case None => Expense
  }

  /** The rows one successful `add_tx` writes: the categories table afterwards and the new transaction. */
  datatype Insertion = Insertion(categories: seq<Category>, tx: Transaction)

  /**
   * What `add_tx` (and `reconcile_tx`) writes once the date has been read.
   * The category is found by name or inserted as an expense; the account is
   * only looked up, and when no account has the name its id is NULL, the
   * INSERT breaks the NOT NULL constraint and the whole statement group is
   * rolled back (None).
   */
  function NewTransaction(accounts: seq<Account>, categories: seq<Category>, txs: seq<Transaction>,
                          date: CalendarDate, accountName: string, categoryName: string,
                          amount: real, description: Option<string>): (r: Option<Insertion>)
    ensures r.Some? <==> exists a :: a in accounts && a.name == accountName
    ensures r.Some? ==> var t := r.value.tx;
              t.id == NextId(txs, TransactionId) && t.date == date && t.amount == amount
              && t.description == description
              && (exists a :: a in accounts && a.name == accountName && a.id == t.accountId)
              && (exists c :: c in r.value.categories && c.name == categoryName && c.id == t.categoryId)
    ensures r.Some? && (exists c :: c in categories && c.name == categoryName) ==>
              r.value.categories == categories
    ensures r.Some? && (forall c :: c in categories ==> c.name != categoryName) ==>
              r.value.categories == categories + [Category(NextId(categories, CategoryId), categoryName, Expense)]
  {
    var kind := KindForName(categories, categoryName);
    var acc := AccountLookup(accounts, accountName);
    var cat := CategoryLookup(categories, categoryName, Some(kind));
    if acc.Found? && LookupId(cat).Some? then
      var t := Transaction(NextId(txs, TransactionId), date, amount, acc.id, LookupId(cat).value, description);
      Some(Insertion(CategoriesAfter(categories, cat), t))
    else
      None
  }

  // ---- bulk_update_transactions / bulk_delete_transactions ----

  /**
   * `UPDATE transactions SET category_id = ?, account_id = ? WHERE id IN (...)`,
   * each assignment present only when its id is given.
   */
  function Reassign(txs: seq<Transaction>, ids: seq<int>, categoryId: Option<int>, accountId: Option<int>): (r: seq<Transaction>)
    ensures |r| == |txs|
    ensures forall i :: 0 <= i < |txs| ==>
              r[i].id == txs[i].id && r[i].date == txs[i].date && r[i].amount == txs[i].amount
              && r[i].description == txs[i].description
    ensures forall i :: 0 <= i < |txs| ==>
              r[i].categoryId == (if txs[i].id in ids && categoryId.Some? then categoryId.value else txs[i].categoryId)
              && r[i].accountId == (if txs[i].id in ids && accountId.Some? then accountId.value else txs[i].accountId)
  {
    if txs == [] then []
    else
      var t := txs[0];
      var t' := if t.id in ids then t.(categoryId := categoryId.GetOr(t.categoryId), accountId := accountId.GetOr(t.accountId)) else t;
      [t'] + Reassign(txs[1..], ids, categoryId, accountId)
  }

  /** Re-running the same bulk update changes nothing more. */
  lemma ReassignIdempotent(txs: seq<Transaction>, ids: seq<int>, categoryId: Option<int>, accountId: Option<int>)
    ensures Reassign(Reassign(txs, ids, categoryId, accountId), ids, categoryId, accountId)
            == Reassign(txs, ids, categoryId, accountId)
  {
  }

  function Amount(t: Transaction): real { t.amount }

  /** A bulk update moves transactions between accounts and categories but keeps the grand total. */
  lemma {:induction false} ReassignKeepsTotal(txs: seq<Transaction>, ids: seq<int>, categoryId: Option<int>, accountId: Option<int>)
    ensures SumBy(Reassign(txs, ids, categoryId, accountId), Amount) == SumBy(txs, Amount)
  {
    if txs != [] {
      ReassignKeepsTotal(txs[1..], ids, categoryId, accountId);
      var r := Reassign(txs, ids, categoryId, accountId);
      assert r[1..] == Reassign(txs[1..], ids, categoryId, accountId);
    }
  }

  /** `DELETE FROM transactions WHERE id IN (...)`: the rows kept, in their order. */
  function WithoutIds(txs: seq<Transaction>, ids: seq<int>): (r: seq<Transaction>)
    ensures |r| <= |txs|
    ensures forall t :: t in r <==> t in txs && t.id !in ids
  {
    if txs == [] then []
    else if txs[0].id in ids then WithoutIds(txs[1..], ids)
    else
      assert forall t :: t in txs <==> t == txs[0] || t in txs[1..];
      [txs[0]] + WithoutIds(txs[1..], ids)
  }

  /** The number of rows whose id is listed: what `cursor.rowcount` reports for the DELETE. */
  function CountListed(txs: seq<Transaction>, ids: seq<int>): (n: nat)
    ensures n <= |txs|
  {
    if txs == [] then 0 else (if txs[0].id in ids then 1 else 0) + CountListed(txs[1..], ids)
  }

  /** The rows deleted are exactly the rows counted. */
  lemma {:induction false} WithoutIdsCount(txs: seq<Transaction>, ids: seq<int>)
    ensures |WithoutIds(txs, ids)| + CountListed(txs, ids) == |txs|
  {
    if txs != [] {
      WithoutIdsCount(txs[1..], ids);
    }
  }

  /** Deleting the same ids again deletes nothing. */
  lemma {:induction false} WithoutIdsIdempotent(txs: seq<Transaction>, ids: seq<int>)
    ensures WithoutIds(WithoutIds(txs, ids), ids) == WithoutIds(txs, ids)
    ensures CountListed(WithoutIds(txs, ids), ids) == 0
  {
    if txs != [] {
      WithoutIdsIdempotent(txs[1..], ids);
    }
  }

  // ---- settle_debt ----

  /** The transaction `settle_debt` books: amount, category name and description. */
  datatype Entry = Entry(amount: real, categoryName: string, description: string)

  /**
   * A loan given out comes back as income ("Restituzione Prestito"); a loan
   * taken is paid back as an outflow of the same size ("Pagamento Debito").
   */
  function SettlementEntry(d: Debt): (r: Entry)
    ensures Abs(r.amount) == Abs(d.amount)
    ensures d.kind == Lent ==> r == Entry(d.amount, "Restituzione Prestito", "Restituzione da " + d.person)
    ensures d.kind == Borrowed ==> r == Entry(-d.amount, "Pagamento Debito", "Pagamento a " + d.person)
  {
    if d.kind == Lent then Entry(d.amount, "Restituzione Prestito", "Restituzione da " + d.person)
    else Entry(-d.amount, "Pagamento Debito", "Pagamento a " + d.person)
  }

  /** `UPDATE debts SET status = 'settled' WHERE id = ?`. */
  function DebtId(d: Debt): int { d.id }

  function MarkSettled(debts: seq<Debt>, id: int): (r: seq<Debt>)
    ensures |r| == |debts|
    ensures forall i :: 0 <= i < |debts| ==>
              r[i] == (if debts[i].id == id then debts[i].(status := Settled) else debts[i])
  {
    if debts == [] then [] else
      [if debts[0].id == id then debts[0].(status := Settled) else debts[0]] + MarkSettled(debts[1..], id)
  }

  // ---- add_goal / get_goals ----

  /** The row `add_goal` inserts: the cost stored as a non-positive amount, priority 1, pending. */
  function NewGoal(goals: seq<Goal>, description: string, amount: real): (r: Goal)
    ensures r.amount <= 0.0 && Abs(r.amount) == Abs(amount)
    ensures r.id == NextId(goals, GoalId) && r.description == description
    ensures r.priority == 1 && r.status == Pending
  {
    Goal(NextId(goals, GoalId), description, -Abs(amount), 1, Pending)
  }

  function GoalAmount(g: Goal): real { g.amount }

  function GoalsWithStatus(goals: seq<Goal>, status: GoalStatus): (r: seq<Goal>)
    ensures forall g :: g in r <==> g in goals && g.status == status
    ensures forall g :: multiset(r)[g] == if g.status == status then multiset(goals)[g] else 0
  {
    if goals == [] then []
    else
      assert goals == [goals[0]] + goals[1..];
      assert forall g :: g in goals <==> g == goals[0] || g in goals[1..];
      (if goals[0].status == status then [goals[0]] else []) + GoalsWithStatus(goals[1..], status)
  }

  /** `SELECT ... FROM goals WHERE status = ? ORDER BY amount ASC`. */
  function GetGoals(goals: seq<Goal>, status: GoalStatus): (r: seq<Goal>)
    ensures forall g :: g in r <==> g in goals && g.status == status
    ensures multiset(r) == multiset(GoalsWithStatus(goals, status))
    ensures SortedBy(r, GoalAmount)
  {
    SortBySorted(GoalsWithStatus(goals, status), GoalAmount);
    var r := SortBy(GoalsWithStatus(goals, status), GoalAmount);
    assert forall g :: g in r <==> g in multiset(r);
    r
  }

  /** Every stored goal amount is a non-positive cost, as `add_goal` writes it. */
  predicate CostsStored(goals: seq<Goal>) {
    forall g :: g in goals ==> g.amount <= 0.0
  }

  /** Because costs are stored negated, listing by ascending amount puts the largest cost first. */
  lemma LargestCostFirst(goals: seq<Goal>, status: GoalStatus)
    requires CostsStored(goals)
    ensures var r := GetGoals(goals, status);
            forall i, j :: 0 <= i < j < |r| ==> Abs(r[i].amount) >= Abs(r[j].amount)
  {
    var r := GetGoals(goals, status);
    forall i, j | 0 <= i < j < |r| ensures Abs(r[i].amount) >= Abs(r[j].amount) {
      assert r[i] in r && r[j] in r;
      assert GoalAmount(r[i]) <= GoalAmount(r[j]);
    }
  }

  /** Goals added by `add_goal` keep every stored amount a non-positive cost. */
  lemma NewGoalKeepsCosts(goals: seq<Goal>, description: string, amount: real)
    requires CostsStored(goals)
    ensures CostsStored(goals + [NewGoal(goals, description, amount)])
  {
  }

  // ---- Keys kept by inserts and deletes ----

  /** A row whose id is above every id in the table keeps the ids unique. */
  lemma AppendFreshKeepsIds<T>(rows: seq<T>, x: T, id: T -> int)
    requires UniqueIds(rows, id)
    requires forall y :: y in rows ==> id(y) < id(x)
    ensures UniqueIds(rows + [x], id)
  {
    var r := rows + [x];
    forall i, j | 0 <= i < j < |r| ensures id(r[i]) != id(r[j]) {
      if j == |rows| {
        assert r[i] in rows;
      }
    }
  }

  lemma TailKeepsIds<T>(rows: seq<T>, id: T -> int)
    requires rows != [] && UniqueIds(rows, id)
    ensures UniqueIds(rows[1..], id)
    ensures forall y :: y in rows[1..] ==> id(y) != id(rows[0])
  {
    var tail := rows[1..];
    forall i, j | 0 <= i < j < |tail| ensures id(tail[i]) != id(tail[j]) {
      assert tail[i] == rows[i + 1] && tail[j] == rows[j + 1];
    }
    forall y | y in tail ensures id(y) != id(rows[0]) {
      var k :| 0 <= k < |tail| && tail[k] == y;
      assert rows[k + 1] == y;
    }
  }

  lemma ConsKeepsIds<T>(x: T, rows: seq<T>, id: T -> int)
    requires UniqueIds(rows, id)
    requires forall y :: y in rows ==> id(y) != id(x)
    ensures UniqueIds([x] + rows, id)
  {
    var r := [x] + rows;
    forall i, j | 0 <= i < j < |r| ensures id(r[i]) != id(r[j]) {
      if i == 0 {
        assert r[j] in rows;
      } else {
        assert r[i] == rows[i - 1] && r[j] == rows[j - 1];
      }
    }
  }

  /** `DELETE FROM planned_transactions WHERE id = ?`: the rows kept, in their order. */
  function WithoutPlanned(planned: seq<PlannedTransaction>, id: int): (r: seq<PlannedTransaction>)
    ensures |r| <= |planned|
    ensures forall p :: p in r <==> p in planned && p.id != id
  {
    if planned == [] then []
    else
      assert forall p :: p in planned <==> p == planned[0] || p in planned[1..];
      var rest := WithoutPlanned(planned[1..], id);
      if planned[0].id == id then rest else [planned[0]] + rest
  }

  function PlannedId(p: PlannedTransaction): int { p.id }

  /** Deleting planned rows keeps their ids unique. */
  lemma {:induction false} WithoutPlannedKeepsIds(planned: seq<PlannedTransaction>, id: int)
    requires UniqueIds(planned, PlannedId)
    ensures UniqueIds(WithoutPlanned(planned, id), PlannedId)
  {
    if planned != [] {
      TailKeepsIds(planned, PlannedId);
      WithoutPlannedKeepsIds(planned[1..], id);
      if planned[0].id != id {
        ConsKeepsIds(planned[0], WithoutPlanned(planned[1..], id), PlannedId);
      }
    }
  }

  /** Deleting transactions keeps their ids unique. */
  lemma {:induction false} WithoutIdsKeepsIds(txs: seq<Transaction>, ids: seq<int>)
    requires UniqueIds(txs, TransactionId)
    ensures UniqueIds(WithoutIds(txs, ids), TransactionId)
  {
    if txs != [] {
      TailKeepsIds(txs, TransactionId);
      WithoutIdsKeepsIds(txs[1..], ids);
      if txs[0].id !in ids {
        ConsKeepsIds(txs[0], WithoutIds(txs[1..], ids), TransactionId);
      }
    }
  }
}
