/** The data of the expense tracker: transaction records, calendar dates,
    month keys and the raw contents of the entry form. */
module Records {

  datatype Option<T> = None | Some(value: T)

  /** Record identifiers are opaque strings. */
  type Id = string

  /** The two transaction types the form offers. The stored `type` field is
      a free string, so any other value can occur in loaded data. */
  const INCOME: string := "income"
  const EXPENSE: string := "expense"

  /** A calendar date, as held by an ISO `YYYY-MM-DD` string. */
  datatype Date = Date(year: int, month: int, day: int)

  /** `a` is strictly later than `b`: the order of the timestamps that
      `new Date(iso)` yields for two valid ISO dates. */
  predicate Later(a: Date, b: Date) {
    a.year > b.year
    || (a.year == b.year && a.month > b.month)
    || (a.year == b.year && a.month == b.month && a.day > b.day)
  }

  /** Two dates either coincide or one of them is strictly later. */
  lemma LaterTotal(a: Date, b: Date)
    ensures a == b || Later(a, b) || Later(b, a)
    ensures !(Later(a, b) && Later(b, a))
  {
  }

  /** A `YYYY-MM` month key, as offered by the month selector. */
  datatype MonthKey = MonthKey(year: int, month: int)

  /** The month a date belongs to: its year and month, read off the ISO string. */
  function MonthOf(d: Date): MonthKey {
    MonthKey(d.year, d.month)
  }

  /** Gregorian leap years: every fourth year, except centuries not divisible by 400. */
  predicate IsLeapYear(y: int) {
    y % 4 == 0 && (y % 100 != 0 || y % 400 == 0)
  }

  /** The number of days in month `m` of year `y`. */
  function DaysInMonth(y: int, m: int): nat
    requires 1 <= m <= 12
  {
    if m == 2 then (if IsLeapYear(y) then 29 else 28)
    else if m == 4 || m == 6 || m == 9 || m == 11 then 30
    else 31
  }

  /** A date of the proleptic Gregorian calendar, as the date input produces. */
  predicate ValidDate(d: Date) {
    1 <= d.month <= 12 && 1 <= d.day <= DaysInMonth(d.year, d.month)
  }

  /** The calendar day before `d`. */
  function PrevDay(d: Date): (r: Date)
    requires ValidDate(d)
    ensures ValidDate(r) && Later(d, r)
  {
    if d.day > 1 then Date(d.year, d.month, d.day - 1)
    else if d.month > 1 then Date(d.year, d.month - 1, DaysInMonth(d.year, d.month - 1))
    else Date(d.year - 1, 12, 31)
  }

  /** The calendar day after `d`. */
  function NextDay(d: Date): (r: Date)
    requires ValidDate(d)
    ensures ValidDate(r) && Later(r, d)
  {
    if d.day < DaysInMonth(d.year, d.month) then Date(d.year, d.month, d.day + 1)
    else if d.month < 12 then Date(d.year, d.month + 1, 1)
    else Date(d.year + 1, 1, 1)
  }

  /** Stepping back a day and forward a day are inverse to each other. */
  lemma {:induction false} PrevNextDay(d: Date)
    requires ValidDate(d)
    ensures NextDay(PrevDay(d)) == d
    ensures PrevDay(NextDay(d)) == d
  {
  }

  /** No valid date lies strictly between a date and the day before it. */
  lemma {:induction false} PrevDayIsAdjacent(d: Date, e: Date)
    requires ValidDate(d) && ValidDate(e)
    ensures !(Later(d, e) && Later(e, PrevDay(d)))
  {
  }

  /** One stored income or expense entry; `amount` is in minor currency units. */
  datatype Transaction = Transaction(
    id: Id,
    kind: string,
    amount: nat,
    description: string,
    category: string,
    date: Date)

  /** What `Number(amountEl.value)` yields: not a number, or an amount in minor units. */
  datatype AmountInput = NotANumber | Number(value: int)

  /** The raw contents of the entry form at submission. `date` is `None` when
      the date input is empty; description and category are untrimmed. */
  datatype Draft = Draft(
    kind: string,
    amount: AmountInput,
    description: string,
    category: string,
    date: Option<Date>)
}
