/**
 * The small computations of the dashboard's forms: the sign an amount gets
 * from its type, the filters of the transaction list, and the cleaning of an
 * imported category table.
 */
module Forms {
  import opened Wrappers
  import opened Numbers
  import opened Dates
  import opened Text
  import opened Seqs

  // ---- Signed amounts ----

  /** The form's type radio button for an outflow. */
  const Outflow: string := "Uscita"

  /** `abs(x) * (-1 if kind == "Uscita" else 1)`, as the new-transaction and planned-event forms write it. */
  function SignedAmount(kind: string, x: real): real {
    Abs(x) * (if kind == Outflow then -1.0 else 1.0)
  }

  /** `-abs(x) if kind == "Uscita" else abs(x)`, as the recurring-rule form writes it. */
  function RecurringSignedAmount(kind: string, x: real): real {
    if kind == Outflow then -Abs(x) else Abs(x)
  }

  /**
   * An outflow is stored as minus its size and anything else as its size,
   * whatever sign was typed; the two forms of the expression agree.
   */
  lemma SignedAmountFacts(kind: string, x: real)
    ensures Abs(SignedAmount(kind, x)) == Abs(x)
    ensures kind == Outflow ==> SignedAmount(kind, x) <= 0.0
    ensures kind != Outflow ==> SignedAmount(kind, x) >= 0.0
    ensures SignedAmount(kind, SignedAmount(kind, x)) == SignedAmount(kind, x)
    ensures SignedAmount(kind, -x) == SignedAmount(kind, x)
    ensures RecurringSignedAmount(kind, x) == SignedAmount(kind, x)
  {
  }

  // ---- Transaction list filters ----

  /** A row of the transaction list: id, date, account, category, amount, description. */
  datatype ListRow = ListRow(id: int, date: CalendarDate, account: string, category: string, amount: real,
                             description: Option<string>)

  /** The filter widgets: account and category selections, search text, amount slider, date range. */
  datatype ListFilter = ListFilter(accounts: seq<string>, categories: seq<string>, search: string,
                                   chosen: (real, real), dates: Option<(CalendarDate, CalendarDate)>)

  function MinAmount(rows: seq<ListRow>): (r: real)
    requires rows != []
    ensures exists i :: 0 <= i < |rows| && rows[i].amount == r
    ensures forall i :: 0 <= i < |rows| ==> r <= rows[i].amount
  {
    if |rows| == 1 then rows[0].amount
    else
      var m := MinAmount(rows[1..]);
      assert forall i :: 1 <= i < |rows| ==> rows[i] == rows[1..][i - 1];
      if rows[0].amount <= m then rows[0].amount else m
  }

  function MaxAmount(rows: seq<ListRow>): (r: real)
    requires rows != []
    ensures exists i :: 0 <= i < |rows| && rows[i].amount == r
    ensures forall i :: 0 <= i < |rows| ==> rows[i].amount <= r
  {
    if |rows| == 1 then rows[0].amount
    else
      var m := MaxAmount(rows[1..]);
      assert forall i :: 1 <= i < |rows| ==> rows[i] == rows[1..][i - 1];
      if rows[0].amount >= m then rows[0].amount else m
  }

  /** The slider's full range, shown only when the list has at least two distinct amounts. */
  function AmountSpread(rows: seq<ListRow>): (r: Option<(real, real)>)
    ensures r.Some? <==> exists i, j :: 0 <= i < j < |rows| && rows[i].amount != rows[j].amount
  {
    if rows != [] && MinAmount(rows) < MaxAmount(rows) then Some((MinAmount(rows), MaxAmount(rows))) else None
  }

  /** The amount filter applies only when the slider is shown and was moved off its full range. */
  predicate AmountFilterOn(rows: seq<ListRow>, f: ListFilter) {
    AmountSpread(rows).Some? && f.chosen != AmountSpread(rows).value
  }

  predicate AccountMask(f: ListFilter, r: ListRow) {
    r.account in f.accounts
  }

  predicate CategoryMask(f: ListFilter, r: ListRow) {
    r.category in f.categories
  }

  /** `str.contains(search, case=False, na=False)`: a missing description never matches. */
  predicate SearchMask(f: ListFilter, r: ListRow) {
    r.description.Some? && Contains(Lower(r.description.value), Lower(f.search))
  }

  predicate AmountMask(f: ListFilter, r: ListRow) {
    f.chosen.0 <= r.amount <= f.chosen.1
  }

  /** The date range, when one is picked; both ends included. */
  predicate DateMask(f: ListFilter, r: ListRow) {
    match f.dates
    case Some((lo, hi)) => DayNumber(lo) <= DayNumber(r.date) <= DayNumber(hi)
    case None => true
  }

  /** The rows the first `n` filters keep, in the order they are applied. */
  predicate KeptBy(rows: seq<ListRow>, f: ListFilter, n: nat, r: ListRow) {
    (n >= 1 ==> f.accounts == [] || AccountMask(f, r))
    && (n >= 2 ==> f.categories == [] || CategoryMask(f, r))
    && (n >= 3 ==> f.search == [] || SearchMask(f, r))
    && (n >= 4 ==> !AmountFilterOn(rows, f) || AmountMask(f, r))
    && (n >= 5 ==> f.dates.None? || DateMask(f, r))
  }

  /** Whether `r` survives every active filter; `rows` is the whole list the slider is built from. */
  predicate Shown(rows: seq<ListRow>, f: ListFilter, r: ListRow) {
    KeptBy(rows, f, 5, r)
  }

  /** The rows of `s` that satisfy `p`, in order. */
  function Where<T>(s: seq<T>, p: T -> bool): seq<T> {
    if s == [] then [] else (if p(s[0]) then [s[0]] else []) + Where(s[1..], p)
  }

  /** A row is kept exactly when it is one of the rows and satisfies the mask. */
  lemma {:induction false} WhereMembers<T>(s: seq<T>, p: T -> bool, x: T)
    ensures x in Where(s, p) <==> x in s && p(x)
  {
    if s != [] {
      WhereMembers(s[1..], p, x);
      assert x in s <==> x == s[0] || x in s[1..];
    }
  }

  /** Where keeps the rows in their order: filtering a concatenation filters each part. */
  lemma {:induction false} WhereAppend<T>(a: seq<T>, b: seq<T>, p: T -> bool)
    ensures Where(a + b, p) == Where(a, p) + Where(b, p)
  {
    if a == [] {
      assert a + b == b;
    } else {
      TailOfAppend(a, b);
      WhereAppend(a[1..], b, p);
      var here := if p(a[0]) then [a[0]] else [];
      AppendAssociative(here, Where(a[1..], p), Where(b, p));
    }
  }

  /** A mask applied to the rows a first mask kept keeps what both masks keep. */
  lemma {:induction false} WhereWhere<T>(s: seq<T>, p: T -> bool, q: T -> bool, both: T -> bool)
    requires forall x :: both(x) == (p(x) && q(x))
    ensures Where(Where(s, p), q) == Where(s, both)
  {
    if s != [] {
      WhereWhere(s[1..], p, q, both);
      WhereAppend(if p(s[0]) then [s[0]] else [], Where(s[1..], p), q);
    }
  }

  /** Masks that agree everywhere keep the same rows. */
  lemma {:induction false} WhereCongruent<T>(s: seq<T>, p: T -> bool, q: T -> bool)
    requires forall x :: p(x) == q(x)
    ensures Where(s, p) == Where(s, q)
  {
    if s != [] {
      WhereCongruent(s[1..], p, q);
    }
  }

  /** One more filter, applied only when its widget is set, narrows the rows the earlier ones kept. */
  lemma FilterStep<T>(s: seq<T>, before: T -> bool, active: bool, mask: T -> bool, after: T -> bool)
    requires forall x :: after(x) == (before(x) && (!active || mask(x)))
    ensures (if active then Where(Where(s, before), mask) else Where(s, before)) == Where(s, after)
  {
    if active {
      WhereWhere(s, before, mask, after);
    } else {
      WhereCongruent(s, before, after);
    }
  }

  /** A mask that keeps every row changes nothing. */
  lemma {:induction false} WhereEverything<T>(s: seq<T>, p: T -> bool)
    requires forall x :: p(x)
    ensures Where(s, p) == s
  {
    if s != [] {
      WhereEverything(s[1..], p);
    }
  }

  /** The account, category, description, amount and date masks, each applied when its widget is set. */
  function FilterRows(rows: seq<ListRow>, f: ListFilter): seq<ListRow> {
    var byAccount := if f.accounts != [] then Where(rows, (r: ListRow) => AccountMask(f, r)) else rows;
    var byCategory := if f.categories != [] then Where(byAccount, (r: ListRow) => CategoryMask(f, r)) else byAccount;
    var bySearch := if f.search != [] then Where(byCategory, (r: ListRow) => SearchMask(f, r)) else byCategory;
    var byAmount := if AmountFilterOn(rows, f) then Where(bySearch, (r: ListRow) => AmountMask(f, r)) else bySearch;
    if f.dates.Some? then Where(byAmount, (r: ListRow) => DateMask(f, r)) else byAmount
  }

  /** The list shown is the original list restricted, in order, to the rows every active filter keeps. */
  lemma FilterRowsIsWhere(rows: seq<ListRow>, f: ListFilter)
    ensures FilterRows(rows, f) == Where(rows, (r: ListRow) => Shown(rows, f, r))
  {
    var k0 := (r: ListRow) => KeptBy(rows, f, 0, r);
    var k1 := (r: ListRow) => KeptBy(rows, f, 1, r);
    var k2 := (r: ListRow) => KeptBy(rows, f, 2, r);
    var k3 := (r: ListRow) => KeptBy(rows, f, 3, r);
    var k4 := (r: ListRow) => KeptBy(rows, f, 4, r);
    var k5 := (r: ListRow) => KeptBy(rows, f, 5, r);
    WhereEverything(rows, k0);
    FilterStep(rows, k0, f.accounts != [], (r: ListRow) => AccountMask(f, r), k1);
    FilterStep(rows, k1, f.categories != [], (r: ListRow) => CategoryMask(f, r), k2);
    FilterStep(rows, k2, f.search != [], (r: ListRow) => SearchMask(f, r), k3);
    FilterStep(rows, k3, AmountFilterOn(rows, f), (r: ListRow) => AmountMask(f, r), k4);
    FilterStep(rows, k4, f.dates.Some?, (r: ListRow) => DateMask(f, r), k5);
    WhereCongruent(rows, k5, (r: ListRow) => Shown(rows, f, r));
  }

  /** A row is listed exactly when it is in the table and passes every active filter. */
  lemma FilterRowsMembers(rows: seq<ListRow>, f: ListFilter, r: ListRow)
    ensures r in FilterRows(rows, f) <==> r in rows && Shown(rows, f, r)
  {
    FilterRowsIsWhere(rows, f);
    WhereMembers(rows, (x: ListRow) => Shown(rows, f, x), r);
  }

  // ---- Category import ----

  /** A spreadsheet cell: text, or missing (NaN). */
  datatype Cell = TextCell(text: string) | Missing

  /** `astype(str)`: a missing cell becomes the text "nan". */
  function AsText(c: Cell): string {
    match c
    case TextCell(s) => s
    case Missing => "nan"
  }

  datatype ImportRow = ImportRow(name: Cell, kind: Cell)

  datatype CategoryRecord = CategoryRecord(name: string, kind: string)

  predicate KnownKind(kind: string) {
    kind == "income" || kind == "expense"
  }

  /** The name stripped; the type stripped and lower-cased. */
  function Cleaned(r: ImportRow): CategoryRecord {
    CategoryRecord(Strip(AsText(r.name)), Lower(Strip(AsText(r.kind))))
  }

  function CleanedRows(rows: seq<ImportRow>): (r: seq<CategoryRecord>)
    ensures |r| == |rows| && forall i :: 0 <= i < |rows| ==> r[i] == Cleaned(rows[i])
  {
    seq(|rows|, i requires 0 <= i < |rows| => Cleaned(rows[i]))
  }

  function HasKnownKind(x: CategoryRecord): bool {
    KnownKind(x.kind)
  }

  function HasName(x: CategoryRecord): bool {
    x.name != []
  }

  /**
   * The cleaning as written: strip both columns, lower-case the type, keep
   * the known types, drop missing names, drop empty names. The names are
   * text by the time missing ones are dropped, so that step keeps everything.
   */
  function CleanCategoriesAsWritten(rows: seq<ImportRow>): seq<CategoryRecord> {
    Where(Where(CleanedRows(rows), HasKnownKind), HasName)
  }

  /** A record is imported exactly when some row cleans to it, with a known type and a non-empty name. */
  lemma CleanCategoriesAsWrittenMembers(rows: seq<ImportRow>, x: CategoryRecord)
    ensures x in CleanCategoriesAsWritten(rows) <==>
            (exists row :: row in rows && x == Cleaned(row)) && KnownKind(x.kind) && x.name != []
  {
    WhereMembers(Where(CleanedRows(rows), HasKnownKind), HasName, x);
    WhereMembers(CleanedRows(rows), HasKnownKind, x);
    if exists row :: row in rows && x == Cleaned(row) {
      var row :| row in rows && x == Cleaned(row);
      var i :| 0 <= i < |rows| && rows[i] == row;
      assert CleanedRows(rows)[i] == x;
    }
  }

  /** A row whose name cell is missing, with a known type, is imported as a category named "nan". */
  lemma MissingNameImportedAsNan(row: ImportRow)
    requires row.name.Missing? && HasKnownKind(Cleaned(row))
    ensures var r := CleanCategoriesAsWritten([row]);
            |r| == 1 && r[0] == Cleaned(row) && r[0].name == "nan"
  {
    MissingNameIsNan(row);
    var c := CleanedRows([row]);
    OneRowKept(c, HasKnownKind);
    OneRowKept(c, HasName);
  }

  /** `astype(str).str.strip()` turns a missing name into "nan". */
  lemma MissingNameIsNan(row: ImportRow)
    requires row.name.Missing?
    ensures Cleaned(row).name == "nan"
  {
    StripOfTrimmed("nan");
  }

  lemma OneRowKept<T>(s: seq<T>, p: T -> bool)
    requires |s| == 1 && p(s[0])
    ensures Where(s, p) == s
  {
    assert s[1..] == [];
  }

  function HasNameCell(row: ImportRow): bool {
    row.name.TextCell?
  }

  /** The cleaning evidently intended: rows with a missing name are dropped before the text conversion. */
  function CleanCategories(rows: seq<ImportRow>): seq<CategoryRecord> {
    CleanCategoriesAsWritten(Where(rows, HasNameCell))
  }

  /**
   * A record is imported exactly when a row with a name cell cleans to it
   * with a known type and a non-empty name; its name is already stripped.
   */
  lemma CleanCategoriesMembers(rows: seq<ImportRow>, x: CategoryRecord)
    ensures x in CleanCategories(rows) <==>
            (exists row :: row in rows && row.name.TextCell? && x == Cleaned(row)) && KnownKind(x.kind) && x.name != []
    ensures x in CleanCategories(rows) ==> Strip(x.name) == x.name
  {
    CleanCategoriesAsWrittenMembers(Where(rows, HasNameCell), x);
    forall row ensures row in Where(rows, HasNameCell) <==> row in rows && row.name.TextCell? {
      WhereMembers(rows, HasNameCell, row);
    }
    if x in CleanCategories(rows) {
      var row :| row in Where(rows, HasNameCell) && x == Cleaned(row);
      StripIdempotent(AsText(row.name));
    }
  }

  /** The corrected cleaning drops a row whose name cell is missing. */
  lemma MissingNameDropped(row: ImportRow)
    requires row.name.Missing?
    ensures CleanCategories([row]) == []
  {
    assert [row][1..] == [];
    assert Where([row], HasNameCell) == [];
  }

  /** No missing name is imported as "nan": the text "nan" comes in only when a cell holds it. */
  lemma CleanCategoriesNoNan(rows: seq<ImportRow>)
    requires forall row :: row in rows && row.name.TextCell? ==> Strip(row.name.text) != "nan"
    ensures forall x :: x in CleanCategories(rows) ==> x.name != "nan"
  {
    forall x | x in CleanCategories(rows) ensures x.name != "nan" {
      CleanCategoriesMembers(rows, x);
    }
  }

  /** Where no name is missing, the corrected cleaning keeps exactly what the written one keeps. */
  lemma CleanCategoriesAgrees(rows: seq<ImportRow>)
    requires forall row :: row in rows ==> row.name.TextCell?
    ensures CleanCategories(rows) == CleanCategoriesAsWritten(rows)
  {
    WhereAllKept(rows, HasNameCell);
  }

  lemma {:induction false} WhereAllKept<T>(s: seq<T>, p: T -> bool)
    requires forall x :: x in s ==> p(x)
    ensures Where(s, p) == s
  {
    if s != [] {
      assert forall x :: x in s[1..] ==> x in s;
      WhereAllKept(s[1..], p);
    }
  }
}
