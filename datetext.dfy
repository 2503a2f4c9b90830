/**
 * `parse_date`: turning a cell value into a calendar date. Date and datetime
 * values pass through; text is read with `strptime` as `%Y-%m-%d` and, failing
 * that, as `%d/%m/%Y`; anything else is no date.
 *
 * `strptime` compiles each directive to a regular expression and rejects
 * leftover characters ("unconverted data remains"):
 *   %Y  exactly four digits
 *   %m  `1[0-2]|0[1-9]|[1-9]`
 *   %d  `3[01]|[12]\d|0[1-9]|[1-9]| [1-9]`
 * and then builds the date, which fails for year 0 or a day past the end of
 * the month. Each directive below takes the first alternative that matches;
 * because every directive is followed by a separator that is not a digit (or
 * by the end of the text), a later alternative can never succeed where an
 * earlier one matched, so this is the regular expression's own result.
 */
module DateText {
  import opened Wrappers
  import opened Dates

  /** A number read by one directive and the position just after it. */
  datatype Field = Field(value: int, next: nat)

  predicate IsDigit(c: char) {
    '0' <= c <= '9'
  }

  function DigitValue(c: char): int {
    c as int - '0' as int
  }

  function DigitChar(n: int): (c: char)
    requires 0 <= n <= 9
    ensures IsDigit(c) && DigitValue(c) == n
  {
    ('0' as int + n) as char
  }

  /** `%Y`: four digits. */
  function MatchYear(s: string, i: nat): (r: Option<Field>)
    ensures r.Some? ==> 0 <= r.value.value <= 9999 && r.value.next == i + 4 <= |s|
  {
    if i + 4 <= |s| && IsDigit(s[i]) && IsDigit(s[i + 1]) && IsDigit(s[i + 2]) && IsDigit(s[i + 3]) then
      Some(Field(1000 * DigitValue(s[i]) + 100 * DigitValue(s[i + 1]) + 10 * DigitValue(s[i + 2]) + DigitValue(s[i + 3]), i + 4))
    else
      None
  }

  /** `%m`: `1[0-2]|0[1-9]|[1-9]`. */
  function MatchMonth(s: string, i: nat): (r: Option<Field>)
    ensures r.Some? ==> 1 <= r.value.value <= 12 && i < r.value.next <= |s|
  {
    if i + 2 <= |s| && s[i] == '1' && '0' <= s[i + 1] <= '2' then
      Some(Field(10 + DigitValue(s[i + 1]), i + 2))
    else if i + 2 <= |s| && s[i] == '0' && '1' <= s[i + 1] <= '9' then
      Some(Field(DigitValue(s[i + 1]), i + 2))
    else if i + 1 <= |s| && '1' <= s[i] <= '9' then
      Some(Field(DigitValue(s[i]), i + 1))
    else
      None
  }

  /** `%d`: `3[01]|[12]\d|0[1-9]|[1-9]| [1-9]`. */
  function MatchDay(s: string, i: nat): (r: Option<Field>)
    ensures r.Some? ==> 1 <= r.value.value <= 31 && i < r.value.next <= |s|
  {
    if i + 2 <= |s| && s[i] == '3' && '0' <= s[i + 1] <= '1' then
      Some(Field(30 + DigitValue(s[i + 1]), i + 2))
    else if i + 2 <= |s| && '1' <= s[i] <= '2' && IsDigit(s[i + 1]) then
      Some(Field(10 * DigitValue(s[i]) + DigitValue(s[i + 1]), i + 2))
    else if i + 2 <= |s| && s[i] == '0' && '1' <= s[i + 1] <= '9' then
      Some(Field(DigitValue(s[i + 1]), i + 2))
    else if i + 1 <= |s| && '1' <= s[i] <= '9' then
      Some(Field(DigitValue(s[i]), i + 1))
    else if i + 2 <= |s| && s[i] == ' ' && '1' <= s[i + 1] <= '9' then
      Some(Field(DigitValue(s[i + 1]), i + 2))
    else
      None
  }

  predicate LiteralAt(s: string, i: nat, c: char) {
    i < |s| && s[i] == c
  }

  /** The date the three numbers name, if the calendar has it. */
  function Build(y: int, m: int, d: int): (r: Option<CalendarDate>)
    ensures r.Some? <==> ValidDate(Date(y, m, d))
    ensures r.Some? ==> r.value == Date(y, m, d)
  {
    if ValidDate(Date(y, m, d)) then Some(Date(y, m, d)) else None
  }

  /** `datetime.strptime(s, "%Y-%m-%d").date()`, None where it raises. */
  function ParseIso(s: string): (r: Option<CalendarDate>)
  {
    match MatchYear(s, 0)
    case None => None
    case Some(y) =>
      if !LiteralAt(s, y.next, '-') then None else
      match MatchMonth(s, y.next + 1)
      case None => None
      case Some(m) =>
        if !LiteralAt(s, m.next, '-') then None else
        match MatchDay(s, m.next + 1)
        case None => None
        case Some(d) =>
          if d.next != |s| then None else Build(y.value, m.value, d.value)
  }

  /** `datetime.strptime(s, "%d/%m/%Y").date()`, None where it raises. */
  function ParseDmy(s: string): (r: Option<CalendarDate>)
  {
    match MatchDay(s, 0)
    case None => None
    case Some(d) =>
      if !LiteralAt(s, d.next, '/') then None else
      match MatchMonth(s, d.next + 1)
      case None => None
      case Some(m) =>
        if !LiteralAt(s, m.next, '/') then None else
        match MatchYear(s, m.next + 1)
        case None => None
        case Some(y) =>
          if y.next != |s| then None else Build(y.value, m.value, d.value)
  }

  /** The kinds of value `parse_date` is handed. */
  datatype DateInput =
    | DateTimeValue(date: CalendarDate, secondsOfDay: nat)  // a `datetime` (or a pandas Timestamp)
    | DateValue(date: CalendarDate)
    | TextValue(text: string)
    | OtherValue                                            // None, a number, NaN, ...

  /** `parse_date(d)`. */
  function ParseDate(v: DateInput): (r: Option<CalendarDate>)
    ensures v.DateTimeValue? || v.DateValue? ==> r == Some(v.date)
    ensures v.OtherValue? ==> r.None?
    ensures v.TextValue? && ParseIso(v.text).Some? ==> r == ParseIso(v.text)
    ensures v.TextValue? && ParseIso(v.text).None? ==> r == ParseDmy(v.text)
  {
    match v
    case DateTimeValue(d, _) => Some(d)
    case DateValue(d) => Some(d)
    case TextValue(s) => if ParseIso(s).Some? then ParseIso(s) else ParseDmy(s)
    case OtherValue => None
  }

  // ---- Formatting ----

  function Pad2(n: int): (r: string)
    requires 0 <= n <= 99
    ensures |r| == 2 && IsDigit(r[0]) && IsDigit(r[1])
    ensures 10 * DigitValue(r[0]) + DigitValue(r[1]) == n
  {
    [DigitChar(n / 10), DigitChar(n % 10)]
  }

  function Pad4(n: int): (r: string)
    requires 0 <= n <= 9999
    ensures |r| == 4 && IsDigit(r[0]) && IsDigit(r[1]) && IsDigit(r[2]) && IsDigit(r[3])
    ensures 1000 * DigitValue(r[0]) + 100 * DigitValue(r[1]) + 10 * DigitValue(r[2]) + DigitValue(r[3]) == n
  {
    Pad2(n / 100) + Pad2(n % 100)
  }

  /** `date.isoformat()`: `YYYY-MM-DD`. */
  function IsoFormat(d: CalendarDate): (r: string)
    requires d.year <= 9999
    ensures |r| == 10 && r[4] == '-' && r[7] == '-'
  {
    Pad4(d.year) + "-" + Pad2(d.month) + "-" + Pad2(d.day)
  }

  /** `date.strftime('%d/%m/%Y')`: the other layout the import accepts. */
  function DmyFormat(d: CalendarDate): (r: string)
    requires d.year <= 9999
    ensures |r| == 10 && r[2] == '/' && r[5] == '/'
  {
    Pad2(d.day) + "/" + Pad2(d.month) + "/" + Pad4(d.year)
  }

  // ---- Round trips ----

  lemma MonthOfPad2(s: string, i: nat, m: int)
    requires 1 <= m <= 12 && i + 2 <= |s| && s[i..i + 2] == Pad2(m)
    ensures MatchMonth(s, i) == Some(Field(m, i + 2))
  {
    assert s[i] == s[i..i + 2][0] && s[i + 1] == s[i..i + 2][1];
  }

  lemma DayOfPad2(s: string, i: nat, d: int)
    requires 1 <= d <= 31 && i + 2 <= |s| && s[i..i + 2] == Pad2(d)
    ensures MatchDay(s, i) == Some(Field(d, i + 2))
  {
    assert s[i] == s[i..i + 2][0] && s[i + 1] == s[i..i + 2][1];
  }

  lemma YearOfPad4(s: string, i: nat, y: int)
    requires 0 <= y <= 9999 && i + 4 <= |s| && s[i..i + 4] == Pad4(y)
    ensures MatchYear(s, i) == Some(Field(y, i + 4))
  {
    var p := s[i..i + 4];
    assert s[i] == p[0] && s[i + 1] == p[1] && s[i + 2] == p[2] && s[i + 3] == p[3];
  }

  /** `parse_date(d.isoformat()) == d`. */
  lemma ParseIsoFormat(d: CalendarDate)
    requires d.year <= 9999
    ensures ParseDate(TextValue(IsoFormat(d))) == Some(d)
  {
    var s := IsoFormat(d);
    assert s[0..4] == Pad4(d.year);
    assert s[5..7] == Pad2(d.month);
    assert s[8..10] == Pad2(d.day);
    YearOfPad4(s, 0, d.year);
    MonthOfPad2(s, 5, d.month);
    DayOfPad2(s, 8, d.day);
    assert ParseIso(s) == Some(d);
  }

  /** A date written day first, `DD/MM/YYYY`, is read back by the second format. */
  lemma ParseDmyFormat(d: CalendarDate)
    requires d.year <= 9999
    ensures ParseDate(TextValue(DmyFormat(d))) == Some(d)
  {
    var s := DmyFormat(d);
    assert !IsDigit(s[2]);
    assert ParseIso(s).None?;
    assert s[0..2] == Pad2(d.day);
    assert s[3..5] == Pad2(d.month);
    assert s[6..10] == Pad4(d.year);
    DayOfPad2(s, 0, d.day);
    MonthOfPad2(s, 3, d.month);
    YearOfPad4(s, 6, d.year);
    assert ParseDmy(s) == Some(d);
  }

  /** Single-digit months and days are accepted, as `strptime` does. */
  lemma UnpaddedIsAccepted()
    ensures ParseDate(TextValue("2024-1-5")) == Some(Date(2024, 1, 5))
    ensures ParseDate(TextValue("5/1/2024")) == Some(Date(2024, 1, 5))
  {
    assert MatchMonth("2024-1-5", 5) == Some(Field(1, 6));
    assert MatchDay("2024-1-5", 7) == Some(Field(5, 8));
    assert !IsDigit("5/1/2024"[1]);
    assert MatchDay("5/1/2024", 0) == Some(Field(5, 1));
    assert MatchMonth("5/1/2024", 2) == Some(Field(1, 3));
  }

  /** A day past the end of its month is no date. */
  lemma NonexistentDayIsRejected()
    ensures ParseDate(TextValue("2023-02-29")).None?
  {
    assert MatchDay("2023-02-29", 0) == Some(Field(20, 2));
  }

  /** A day field that does not match `%d` leaves unconverted text. */
  lemma DayOutOfRangeIsRejected()
    ensures ParseDate(TextValue("2024-01-32")).None?
  {
    assert MatchDay("2024-01-32", 8) == Some(Field(3, 9));
    assert MatchDay("2024-01-32", 0) == Some(Field(20, 2));
  }

  /** Year 0 is outside the calendar. */
  lemma YearZeroIsRejected()
    ensures ParseDate(TextValue("0000-01-01")).None?
  {
  }

  /** A time of day after the date is unconverted text. */
  lemma TrailingTimeIsRejected()
    ensures ParseDate(TextValue("2024-01-01 10:00")).None?
  {
    assert MatchDay("2024-01-01 10:00", 8) == Some(Field(1, 10));
    assert MatchDay("2024-01-01 10:00", 0) == Some(Field(20, 2));
  }
}
