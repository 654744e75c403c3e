/** The proleptic Gregorian calendar shared by loans, recurring expenses, budgets and statements.
    A date stands for the `YYYY-MM-DD` strings of the source: with four-digit years the string order the
    code compares by is the order `Before` below. */
module Calendar {

  predicate IsLeap(year: int) {
    year % 4 == 0 && (year % 100 != 0 || year % 400 == 0)
  }

  function DaysInMonth(year: int, month: int): (n: int)
    requires 1 <= month <= 12
    ensures 28 <= n <= 31
  {
    if month == 2 then (if IsLeap(year) then 29 else 28)
    else if month in {4, 6, 9, 11} then 30
    else 31
  }

  datatype CivilDate = CivilDate(year: int, month: int, day: int) {
    predicate Valid() {
      1 <= month <= 12 && 1 <= day <= DaysInMonth(year, month)
    }

    /** Months elapsed since January of year 0. */
    function MonthIndex(): int {
      12 * year + month - 1
    }
  }

  type Date = d: CivilDate | d.Valid() witness CivilDate(1970, 1, 1)

  /** Go's `time.Time{}` and `IsZero`. */
  const ZERO_TIME: Date := CivilDate(1, 1, 1)

  predicate Before(a: Date, b: Date) {
    a.year < b.year || (a.year == b.year && (a.month < b.month || (a.month == b.month && a.day < b.day)))
  }

  predicate NotAfter(a: Date, b: Date) {
    !Before(b, a)
  }

  /** The date in a month given by its index, the day clamped to the month's length. */
  function InMonth(monthIndex: int, day: int): (d: Date)
    ensures d.MonthIndex() == monthIndex
    ensures 1 <= day <= 28 ==> d.day == day
    ensures day >= 1 ==> d.day <= day
  {
    var year, month := monthIndex / 12, monthIndex % 12 + 1;
    var lowest := if day < 1 then 1 else day;
    var last := DaysInMonth(year, month);
    CivilDate(year, month, if lowest > last then last else lowest)
  }

  /** Moving to a later month always moves to a later date, however either day is clamped. */
  lemma LaterMonthIsLater(a: Date, b: Date)
    requires a.MonthIndex() < b.MonthIndex()
    ensures Before(a, b)
  {
  }

  lemma LaterYearIsLater(a: Date, b: Date)
    requires a.year < b.year
    ensures Before(a, b)
  {
  }

  // ---------------------------------------------------------------- day numbers

  function DaysBeforeYear(year: int): int {
    365 * year + (year + 3) / 4 - (year + 99) / 100 + (year + 399) / 400
  }

  function DaysBeforeMonth(year: int, month: int): (n: int)
    requires 1 <= month <= 12
    decreases month
  {
    if month == 1 then 0 else DaysBeforeMonth(year, month - 1) + DaysInMonth(year, month - 1)
  }

  /** Consecutive dates have consecutive ordinals. */
  function Ordinal(d: Date): int {
    DaysBeforeYear(d.year) + DaysBeforeMonth(d.year, d.month) + d.day
  }

  lemma YearLength(year: int)
    ensures DaysBeforeYear(year + 1) == DaysBeforeYear(year) + (if IsLeap(year) then 366 else 365)
  {
    FourthYear(year);
    HundredthYear(year);
    FourHundredthYear(year);
    MultiplesNest(year);
  }

  lemma FourthYear(year: int)
    ensures (year + 4) / 4 == (year + 3) / 4 + (if year % 4 == 0 then 1 else 0)
  {
  }

  lemma HundredthYear(year: int)
    ensures (year + 100) / 100 == (year + 99) / 100 + (if year % 100 == 0 then 1 else 0)
  {
  }

  lemma FourHundredthYear(year: int)
    ensures (year + 400) / 400 == (year + 399) / 400 + (if year % 400 == 0 then 1 else 0)
  {
  }

  lemma MultiplesNest(year: int)
    ensures year % 100 == 0 ==> year % 4 == 0
    ensures year % 400 == 0 ==> year % 100 == 0
  {
    if year % 100 == 0 {
      var centuries := year / 100;
      assert year == 4 * (25 * centuries);
    }
    if year % 400 == 0 {
      var cycles := year / 400;
      assert year == 100 * (4 * cycles);
    }
  }

  lemma MonthsOfYear(year: int)
    ensures DaysBeforeMonth(year, 12) + 31 == (if IsLeap(year) then 366 else 365)
  {
    var leap := if IsLeap(year) then 1 else 0;
    assert DaysBeforeMonth(year, 3) == 59 + leap;
    assert DaysBeforeMonth(year, 5) == 120 + leap;
    assert DaysBeforeMonth(year, 7) == 181 + leap;
    assert DaysBeforeMonth(year, 9) == 243 + leap;
    assert DaysBeforeMonth(year, 11) == 304 + leap;
  }

  lemma {:induction false} LaterMonthStartsLater(year: int, early: int, late: int)
    requires 1 <= early < late <= 12
    ensures DaysBeforeMonth(year, early) + DaysInMonth(year, early) <= DaysBeforeMonth(year, late)
    decreases late
  {
    if early + 1 < late {
      LaterMonthStartsLater(year, early, late - 1);
    }
  }

  lemma {:induction false} LaterYearStartsLater(early: int, late: int)
    requires early < late
    ensures DaysBeforeYear(early + 1) <= DaysBeforeYear(late)
    decreases late - early
  {
    if early + 1 < late {
      LaterYearStartsLater(early, late - 1);
      YearLength(late - 1);
    }
  }

  lemma OrdinalInYear(d: Date)
    ensures DaysBeforeYear(d.year) < Ordinal(d) <= DaysBeforeYear(d.year + 1)
  {
    YearLength(d.year);
    MonthsOfYear(d.year);
    if d.month < 12 {
      LaterMonthStartsLater(d.year, d.month, 12);
    }
    if d.month > 1 {
      LaterMonthStartsLater(d.year, 1, d.month);
    }
  }

  /** The ordinal is an order isomorphism: it settles both order and equality of dates. */
  lemma OrdinalOrder(a: Date, b: Date)
    ensures Before(a, b) <==> Ordinal(a) < Ordinal(b)
    ensures a == b <==> Ordinal(a) == Ordinal(b)
  {
    if Before(a, b) {
      EarlierHasSmallerOrdinal(a, b);
    } else if Before(b, a) {
      EarlierHasSmallerOrdinal(b, a);
    }
  }

  lemma EarlierHasSmallerOrdinal(a: Date, b: Date)
    requires Before(a, b)
    ensures Ordinal(a) < Ordinal(b)
  {
    if a.year < b.year {
      OrdinalInYear(a);
      OrdinalInYear(b);
      LaterYearStartsLater(a.year, b.year);
    } else if a.month < b.month {
      LaterMonthStartsLater(a.year, a.month, b.month);
    }
  }

  /** The first of January follows the last of December. */
  lemma NewYear(year: int)
    ensures Ordinal(CivilDate(year + 1, 1, 1)) == Ordinal(CivilDate(year, 12, 31)) + 1
  {
    YearLength(year);
    MonthsOfYear(year);
  }

  function NextDay(d: Date): (r: Date)
    ensures Ordinal(r) == Ordinal(d) + 1
  {
    hide DaysBeforeYear, IsLeap;
    NewYear(d.year);
    if d.day < DaysInMonth(d.year, d.month) then CivilDate(d.year, d.month, d.day + 1)
    else if d.month < 12 then CivilDate(d.year, d.month + 1, 1)
    else CivilDate(d.year + 1, 1, 1)
  }

  /** Clamping keeps the day or, where the month is too short for it, takes the month's last. */
  lemma ClampedToLastDay(monthIndex: int, day: int)
    requires day >= 1
    ensures var d := InMonth(monthIndex, day);
            d.day <= day && (d.day < day ==> NextDay(d).day == 1)
  {
  }

  function PreviousDay(d: Date): (r: Date)
    ensures Ordinal(r) == Ordinal(d) - 1
  {
    hide DaysBeforeYear, IsLeap;
    NewYear(d.year - 1);
    if d.day > 1 then CivilDate(d.year, d.month, d.day - 1)
    else if d.month > 1 then CivilDate(d.year, d.month - 1, DaysInMonth(d.year, d.month - 1))
    else CivilDate(d.year - 1, 12, 31)
  }

  /** Go's `AddDate(0, 0, n)`. */
  function AddDays(d: Date, n: int): (r: Date)
    ensures Ordinal(r) == Ordinal(d) + n
    decreases if n < 0 then -n else n
  {
    if n == 0 then d
    else if n > 0 then AddDays(NextDay(d), n - 1)
    else AddDays(PreviousDay(d), n + 1)
  }

  /** Go's `AddDate(0, n, 0)`: a day the target month lacks rolls over into the month after it. */
  function AddMonthsRollover(d: Date, n: int): Date {
    AddDays(InMonth(d.MonthIndex() + n, 1), d.day - 1)
  }

  /** That is, as many days after the first of the target month as the date is after the first of its own. */
  lemma RolloverMeans(d: Date, n: int, first: Date)
    requires first.day == 1 && 12 * first.year + first.month == 12 * d.year + d.month + n
    ensures Ordinal(AddMonthsRollover(d, n)) == Ordinal(first) + d.day - 1
  {
    var idx := d.MonthIndex() + n;
    assert InMonth(idx, 1) == first by {
      assert InMonth(idx, 1).MonthIndex() == first.MonthIndex() && InMonth(idx, 1).day == 1;
    }
    hide Ordinal, InMonth;
  }
}
