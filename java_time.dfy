/** java.time.LocalDate as a proleptic-Gregorian (year, month, day) triple, and instants
    (LocalDateTime) as a count of nanoseconds on one fixed time line. */
module JavaTime {

  predicate IsLeapYear(y: int) {
    y % 4 == 0 && (y % 100 != 0 || y % 400 == 0)
  }

  function DaysInMonth(y: int, m: int): int
    requires 1 <= m <= 12
  {
    if m == 2 then (if IsLeapYear(y) then 29 else 28)
    else if m == 4 || m == 6 || m == 9 || m == 11 then 30
    else 31
  }

  datatype Date = Date(year: int, month: int, day: int)

  predicate ValidDate(d: Date) {
    1 <= d.month <= 12 && 1 <= d.day <= DaysInMonth(d.year, d.month)
  }

  /** A LocalDate: only real calendar days can be built. */
  type LocalDate = d: Date | ValidDate(d) witness Date(2000, 1, 1)

  /** a.isBefore(b): calendar order, year first. */
  predicate IsBefore(a: LocalDate, b: LocalDate) {
    a.year < b.year || (a.year == b.year && (a.month < b.month || (a.month == b.month && a.day < b.day)))
  }

  /** a.isAfter(b). */
  predicate IsAfter(a: LocalDate, b: LocalDate) {
    IsBefore(b, a)
  }

  lemma BeforeIsStrictTotal(a: LocalDate, b: LocalDate)
    ensures !(IsBefore(a, b) && IsBefore(b, a))
    ensures a != b ==> IsBefore(a, b) || IsBefore(b, a)
  {
  }

  /** The month count LocalDate.getProlepticMonth: year × 12 + month − 1. */
  function ProlepticMonth(d: LocalDate): int {
    d.year * 12 + d.month - 1
  }

  /** ChronoUnit.MONTHS.between(a, b): the whole months from a to b, counting a month only once
      its day of the month has been reached. */
  function MonthsBetween(a: LocalDate, b: LocalDate): int {
    var total := ProlepticMonth(b) - ProlepticMonth(a);
    var days := b.day - a.day;
    if total > 0 && days < 0 then total - 1
    else if total < 0 && days > 0 then total + 1
    else total
  }

  /** Counting months forward from a date never gives a negative number. */
  lemma MonthsBetweenForward(a: LocalDate, b: LocalDate)
    requires !IsBefore(b, a)
    ensures MonthsBetween(a, b) >= 0
  {
  }

  /** A LocalDateTime, as nanoseconds on one time line. */
  type Instant = int

  const NanosPerMinute: int := 60_000_000_000

  /** t.plusMinutes(m). */
  function PlusMinutes(t: Instant, m: int): Instant {
    t + m * NanosPerMinute
  }
}
