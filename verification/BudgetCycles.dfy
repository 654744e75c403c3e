/** Budget cycles: the backend searches for the window of a date one cycle at a time, the frontend computes it. */
module BudgetCycles {
  import opened Calendar
  import opened Common

  datatype Period = Weekly | Monthly | Yearly

  datatype Window = Window(start: Date, end: Date)

  /** The first day of cycle k, always counted from the anchor. */
  function Boundary(period: Period, anchor: Date, k: int): Date {
    match period
    case Weekly => AddDays(anchor, 7 * k)
    case Monthly => InMonth(anchor.MonthIndex() + k, anchor.day)
    case Yearly => InMonth(anchor.MonthIndex() + 12 * k, anchor.day)
  }

  function WindowOf(period: Period, anchor: Date, k: int): Window {
    Window(Boundary(period, anchor, k), PreviousDay(Boundary(period, anchor, k + 1)))
  }

  predicate Inside(d: Date, w: Window) {
    !Before(d, w.start) && !Before(w.end, d)
  }

  // ---------------------------------------------------------------- boundaries

  lemma NextBoundary(period: Period, anchor: Date, k: int)
    ensures Ordinal(Boundary(period, anchor, k)) < Ordinal(Boundary(period, anchor, k + 1))
  {
    hide Ordinal, InMonth, Before;
    var b, c := Boundary(period, anchor, k), Boundary(period, anchor, k + 1);
    if period != Weekly {
      LaterMonthIsLater(b, c);
    }
    OrdinalOrder(b, c);
  }

  lemma {:induction false} BoundariesIncrease(period: Period, anchor: Date, j: int, k: int)
    requires j < k
    ensures Ordinal(Boundary(period, anchor, j)) < Ordinal(Boundary(period, anchor, k))
    decreases k - j
  {
    hide Ordinal, Boundary;
    NextBoundary(period, anchor, k - 1);
    if j < k - 1 {
      BoundariesIncrease(period, anchor, j, k - 1);
    }
  }

  lemma AnchorIsFirst(period: Period, anchor: Date)
    ensures Boundary(period, anchor, 0) == anchor
  {
  }

  lemma InsideByOrdinal(period: Period, anchor: Date, k: int, d: Date)
    ensures Inside(d, WindowOf(period, anchor, k))
            <==> Ordinal(Boundary(period, anchor, k)) <= Ordinal(d) < Ordinal(Boundary(period, anchor, k + 1))
  {
    hide Ordinal, Boundary, Before;
    OrdinalOrder(d, Boundary(period, anchor, k));
    OrdinalOrder(PreviousDay(Boundary(period, anchor, k + 1)), d);
  }

  /** The windows tile the calendar: each ends on the eve of the next, and a date lies in one window only. */
  lemma WindowsTile(period: Period, anchor: Date, k: int)
    ensures NextDay(WindowOf(period, anchor, k).end) == WindowOf(period, anchor, k + 1).start
    ensures forall j: int, d: Date :: Inside(d, WindowOf(period, anchor, j)) && Inside(d, WindowOf(period, anchor, k)) ==> j == k
  {
    hide Ordinal, Boundary, Before, Inside;
    var eve, next := WindowOf(period, anchor, k).end, Boundary(period, anchor, k + 1);
    OrdinalOrder(NextDay(eve), next);
    forall j: int, d: Date | Inside(d, WindowOf(period, anchor, j)) && Inside(d, WindowOf(period, anchor, k))
      ensures j == k
    {
      InsideByOrdinal(period, anchor, j, d);
      InsideByOrdinal(period, anchor, k, d);
      if j < k && j + 1 < k {
        BoundariesIncrease(period, anchor, j + 1, k);
      }
      if k < j && k + 1 < j {
        BoundariesIncrease(period, anchor, k + 1, j);
      }
    }
  }

  /** Cycle k starts 7k days, k months or k years after the anchor, on its day or, where the month lacks it, the last. */
  lemma BoundaryMeans(period: Period, anchor: Date, k: int)
    ensures var d := Boundary(period, anchor, k);
            if period == Weekly then Ordinal(d) == Ordinal(anchor) + 7 * k
            else && 12 * d.year + d.month == 12 * anchor.year + anchor.month + (if period == Monthly then k else 12 * k)
                 && d.day <= anchor.day && (d.day < anchor.day ==> NextDay(d).day == 1)
  {
    hide Ordinal, InMonth, NextDay;
    if period != Weekly {
      ClampedToLastDay(anchor.MonthIndex() + (if period == Monthly then k else 12 * k), anchor.day);
    }
  }

  // ---------------------------------------------------------------- the backend's search

  /** `budgetCycleWindow`: advance from the anchor until the next cycle starts after the current date. */
  method BudgetCycleWindow(period: Period, anchor: Date, current: Date) returns (w: Window, ghost k: nat)
    ensures w == WindowOf(period, anchor, k)
    ensures !Before(current, anchor) ==> Inside(current, w)
    ensures Before(current, anchor) ==> k == 0
  {
    hide Ordinal, Boundary, Before;
    AnchorIsFirst(period, anchor);
    OrdinalOrder(current, anchor);
    var windowStart, n := anchor, 1;
    var next := Boundary(period, anchor, n);
    k := 0;
    NextBoundary(period, anchor, 0);
    while !Before(current, next)
      invariant n == k + 1 && windowStart == Boundary(period, anchor, k) && next == Boundary(period, anchor, n)
      invariant k > 0 ==> Ordinal(windowStart) <= Ordinal(current)
      invariant Ordinal(windowStart) < Ordinal(next) && Ordinal(anchor) <= Ordinal(windowStart)
      decreases Ordinal(current) - Ordinal(next)
    {
      OrdinalOrder(current, next);
      windowStart, k := next, k + 1;
      n := n + 1;
      NextBoundary(period, anchor, k);
      next := Boundary(period, anchor, n);
    }
    OrdinalOrder(current, next);
    w := Window(windowStart, PreviousDay(next));
    InsideByOrdinal(period, anchor, k, current);
  }

  // ---------------------------------------------------------------- the frontend's formula

  /** Cycles counted by dividing days or subtracting years, less one when that overshoots. */
  function Counted(period: Period, anchor: Date, asOf: Date): int {
    var n := if period == Weekly then (Ordinal(asOf) - Ordinal(anchor)) / 7 else asOf.year - anchor.year;
    if Before(asOf, Boundary(period, anchor, n)) then n - 1 else n
  }

  /** The calendar month of a date. */
  function CalendarMonth(asOf: Date): Window {
    Window(CivilDate(asOf.year, asOf.month, 1), CivilDate(asOf.year, asOf.month, DaysInMonth(asOf.year, asOf.month)))
  }

  /** It runs from the first of the month to the eve of the next month. */
  lemma CalendarMonthMeans(asOf: Date)
    ensures var w := CalendarMonth(asOf);
            && w.start.year == w.end.year == asOf.year && w.start.month == w.end.month == asOf.month
            && w.start.day == 1 && NextDay(w.end).day == 1 && Inside(asOf, w)
  {
    hide Ordinal;
  }

  method GetBudgetCycle(period: Period, anchor: Date, asOf: Date) returns (cycle: Option<Window>)
    ensures cycle == if Before(asOf, anchor) then None
                     else if period == Monthly then Some(CalendarMonth(asOf))
                     else Some(WindowOf(period, anchor, Counted(period, anchor, asOf)))
    ensures cycle.Some? && period != Monthly ==> Inside(asOf, cycle.value)
  {
    hide Ordinal, Boundary, Before;
    if Before(asOf, anchor) {
      return None;
    }
    if period != Monthly {
      CountedHolds(period, anchor, asOf);
    }
    if period == Monthly {
      return Some(Window(CivilDate(asOf.year, asOf.month, 1), CivilDate(asOf.year, asOf.month, DaysInMonth(asOf.year, asOf.month))));
    }
    var cycleCount := 0;
    if period == Weekly {
      cycleCount := (Ordinal(asOf) - Ordinal(anchor)) / 7;
    } else {
      cycleCount := asOf.year - anchor.year;
    }
    if Before(asOf, Boundary(period, anchor, cycleCount)) {
      cycleCount := cycleCount - 1;
    }
    cycle := Some(Window(Boundary(period, anchor, cycleCount), PreviousDay(Boundary(period, anchor, cycleCount + 1))));
  }

  lemma YearlyBoundary(anchor: Date, k: int)
    ensures Boundary(Yearly, anchor, k).year == anchor.year + k && Boundary(Yearly, anchor, k).month == anchor.month
  {
    assert (anchor.MonthIndex() + 12 * k) / 12 == anchor.year + k;
  }

  /** The counted window holds the date. */
  lemma CountedHolds(period: Period, anchor: Date, asOf: Date)
    requires period != Monthly && !Before(asOf, anchor)
    ensures Inside(asOf, WindowOf(period, anchor, Counted(period, anchor, asOf)))
  {
    hide Ordinal, InMonth, Before, Inside;
    var k := Counted(period, anchor, asOf);
    InsideByOrdinal(period, anchor, k, asOf);
    var b, c := Boundary(period, anchor, k), Boundary(period, anchor, k + 1);
    OrdinalOrder(asOf, b);
    OrdinalOrder(asOf, c);
    if period == Weekly {
      var days := Ordinal(asOf) - Ordinal(anchor);
      assert Ordinal(Boundary(period, anchor, days / 7)) == Ordinal(anchor) + 7 * (days / 7);
      OrdinalOrder(asOf, Boundary(period, anchor, days / 7));
    } else {
      var n := asOf.year - anchor.year;
      YearlyBoundary(anchor, n);
      YearlyBoundary(anchor, n - 1);
      YearlyBoundary(anchor, n + 1);
      if Before(asOf, Boundary(Yearly, anchor, n)) {
        LaterYearIsLater(Boundary(Yearly, anchor, n - 1), asOf);
        OrdinalOrder(Boundary(Yearly, anchor, n - 1), asOf);
      } else {
        LaterYearIsLater(asOf, Boundary(Yearly, anchor, n + 1));
      }
    }
  }

  /** For weekly and yearly budgets the direct formula finds the window of the search, whatever its number is. */
  lemma FormulaMatchesSearch(period: Period, anchor: Date, asOf: Date, k: int)
    requires period != Monthly && !Before(asOf, anchor) && Inside(asOf, WindowOf(period, anchor, k))
    ensures WindowOf(period, anchor, Counted(period, anchor, asOf)) == WindowOf(period, anchor, k)
  {
    hide Ordinal, Boundary, Before, Inside, Counted;
    CountedHolds(period, anchor, asOf);
    WindowsTile(period, anchor, k);
  }

  lemma MonthStart(anchor: Date, k: int)
    ensures Boundary(Monthly, anchor, k).day == 1 <==> anchor.day == 1
    ensures Boundary(Monthly, anchor, k).MonthIndex() == anchor.MonthIndex() + k
  {
  }

  /** Monthly windows of the two sides are equal exactly for budgets anchored on the first of a month. */
  lemma MonthlyMatchesOnTheFirst(anchor: Date, asOf: Date, k: int)
    requires !Before(asOf, anchor) && Inside(asOf, WindowOf(Monthly, anchor, k))
    ensures WindowOf(Monthly, anchor, k) == CalendarMonth(asOf) <==> anchor.day == 1
  {
    hide Ordinal, Boundary;
    var b, c := Boundary(Monthly, anchor, k), Boundary(Monthly, anchor, k + 1);
    MonthStart(anchor, k);
    MonthStart(anchor, k + 1);
    if anchor.day == 1 {
      InsideByOrdinal(Monthly, anchor, k, asOf);
      OrdinalOrder(asOf, b);
      OrdinalOrder(asOf, c);
      FirstOfMonth(b, asOf, c);
      EveOfNextMonth(asOf, c);
    }
  }

  lemma FirstOfMonth(b: Date, d: Date, c: Date)
    requires b.day == 1 && c.day == 1 && c.MonthIndex() == b.MonthIndex() + 1 && !Before(d, b) && Before(d, c)
    ensures d.MonthIndex() == b.MonthIndex() && b == CivilDate(d.year, d.month, 1)
  {
  }

  lemma EveOfNextMonth(d: Date, c: Date)
    requires c.day == 1 && c.MonthIndex() == d.MonthIndex() + 1
    ensures PreviousDay(c) == CivilDate(d.year, d.month, DaysInMonth(d.year, d.month))
  {
    hide Ordinal;
  }
}
