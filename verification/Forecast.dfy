/** The cash-flow forecast of the frontend projects recurring expenses on its own. Dates are compared as text there;
    with four-digit years that is the order of dates. */
module Forecast {
  import opened Calendar
  import opened Common
  import opened Recurring

  const FAST_FORWARD_GUARD := 1200
  const LISTING_GUARD := 120

  datatype Item = Item(active: bool, amount: int, frequency: Frequency, start: Date, next: Option<Date>)

  /** The next date is the k-th occurrence of the backend's schedule. */
  predicate NextIs(item: Item, k: nat) {
    if item.next.Some? then item.next.value == Occurrence(item.start, item.frequency, k) else k == 0
  }

  /** The number the listing starts from: the next one if it lies in the window, otherwise the first that does, as far
      as the first guard reaches. */
  function ListedFrom(item: Item, k: nat, from: Date): (c: nat) {
    if !Before(Occurrence(item.start, item.frequency, k), from) then k else FastForward(item, 1, from)
  }

  function FastForward(item: Item, n: nat, from: Date): (c: nat)
    requires n <= FAST_FORWARD_GUARD
    ensures n <= c <= FAST_FORWARD_GUARD
    ensures forall m :: n <= m < c ==> Before(Occurrence(item.start, item.frequency, m), from)
    ensures c < FAST_FORWARD_GUARD ==> !Before(Occurrence(item.start, item.frequency, c), from)
    decreases FAST_FORWARD_GUARD - n
  {
    if n == FAST_FORWARD_GUARD || !Before(Occurrence(item.start, item.frequency, n), from) then n else FastForward(item, n + 1, from)
  }

  /** At most `guard` occurrences from number n on, those in the window. */
  function Listing(item: Item, n: nat, guard: nat, from: Date, to: Date): seq<Date>
    decreases guard
  {
    var d := Occurrence(item.start, item.frequency, n);
    if guard == 0 || Before(to, d) then []
    else (if Before(d, from) then [] else [d]) + Listing(item, n + 1, guard - 1, from, to)
  }

  /** Months from occurrence n to the end of the window, past it. */
  function MonthsLeft(item: Item, n: nat, to: Date): nat {
    var d := Occurrence(item.start, item.frequency, n);
    if Before(to, d) then 0 else if to.MonthIndex() < d.MonthIndex() then 1 else to.MonthIndex() - d.MonthIndex() + 1
  }

  lemma MonthsShrink(item: Item, n: nat, to: Date)
    requires !Before(to, Occurrence(item.start, item.frequency, n))
    ensures MonthsLeft(item, n + 1, to) < MonthsLeft(item, n, to)
  {
    hide Occurrence;
    var d, e := Occurrence(item.start, item.frequency, n), Occurrence(item.start, item.frequency, n + 1);
    OccurrenceMonth(item.start, item.frequency, n, n + 1);
    if to.MonthIndex() < d.MonthIndex() {
      LaterMonthIsLater(to, d);
    }
    if to.MonthIndex() < e.MonthIndex() {
      LaterMonthIsLater(to, e);
    }
  }

  /** The reference: every occurrence numbered n or later inside the window, in order. */
  function InWindow(item: Item, n: nat, from: Date, to: Date): seq<Date>
    decreases MonthsLeft(item, n, to)
  {
    var d := Occurrence(item.start, item.frequency, n);
    if Before(to, d) then []
    else
      MonthsShrink(item, n, to);
      (if Before(d, from) then [] else [d]) + InWindow(item, n + 1, from, to)
  }

  /** The reference holds exactly the occurrences numbered n or later that lie in the window. */
  lemma {:induction false} InWindowIsExact(item: Item, n: nat, from: Date, to: Date, m: nat)
    requires m >= n
    ensures var d := Occurrence(item.start, item.frequency, m);
            d in InWindow(item, n, from, to) <==> !Before(d, from) && !Before(to, d)
    decreases MonthsLeft(item, n, to)
  {
    hide Occurrence, MonthsLeft, Before;
    var d := Occurrence(item.start, item.frequency, m);
    var first := Occurrence(item.start, item.frequency, n);
    if Before(to, first) {
      LaterStillLater(item, n, m, to);
    } else {
      MonthsShrink(item, n, to);
      if m > n {
        InWindowIsExact(item, n + 1, from, to, m);
        OccurrencesIncrease(item.start, item.frequency, n, m);
        Irreflexive(first, d);
      } else {
        OccurrencesIncrease(item.start, item.frequency, n, n + 1);
        NotAgain(item, n + 1, from, to, d);
      }
    }
  }

  lemma Irreflexive(a: Date, b: Date)
    requires Before(a, b)
    ensures a != b
  {
  }

  /** Later listings hold later dates only. */
  lemma {:induction false} NotAgain(item: Item, n: nat, from: Date, to: Date, d: Date)
    requires Before(d, Occurrence(item.start, item.frequency, n))
    ensures d !in InWindow(item, n, from, to)
    decreases MonthsLeft(item, n, to)
  {
    hide Occurrence, MonthsLeft, Before;
    var e := Occurrence(item.start, item.frequency, n);
    OccurrencesIncrease(item.start, item.frequency, n, n + 1);
    Irreflexive(d, e);
    Chain(d, e, Occurrence(item.start, item.frequency, n + 1));
    if !Before(to, e) {
      MonthsShrink(item, n, to);
      NotAgain(item, n + 1, from, to, d);
    }
  }

  lemma Chain(a: Date, b: Date, c: Date)
    ensures Before(a, b) && Before(b, c) ==> Before(a, c)
    ensures Before(a, b) && !Before(c, b) ==> Before(a, c)
  {
  }

  lemma LaterStillLater(item: Item, n: nat, m: nat, to: Date)
    requires m >= n && Before(to, Occurrence(item.start, item.frequency, n))
    ensures Before(to, Occurrence(item.start, item.frequency, m))
  {
    hide Occurrence, Before;
    if m > n {
      OccurrencesIncrease(item.start, item.frequency, n, m);
      Chain(to, Occurrence(item.start, item.frequency, n), Occurrence(item.start, item.frequency, m));
    }
  }

  lemma EarlierStillEarlier(item: Item, n: nat, m: nat, from: Date)
    requires m <= n && Before(Occurrence(item.start, item.frequency, n), from)
    ensures Before(Occurrence(item.start, item.frequency, m), from)
  {
    hide Occurrence, Before;
    if m < n {
      OccurrencesIncrease(item.start, item.frequency, m, n);
      Chain(Occurrence(item.start, item.frequency, m), Occurrence(item.start, item.frequency, n), from);
    }
  }

  /** Occurrences before the window do not count. */
  lemma {:induction false} SkipEarly(item: Item, n: nat, m: nat, from: Date, to: Date)
    requires n <= m && (n < m ==> Before(Occurrence(item.start, item.frequency, m - 1), from))
    ensures InWindow(item, n, from, to) == InWindow(item, m, from, to)
    decreases m - n
  {
    hide Occurrence, MonthsLeft, Before;
    if n < m {
      EarlierStillEarlier(item, m - 1, n, from);
      var d := Occurrence(item.start, item.frequency, n);
      if Before(to, d) {
        LaterStillLater(item, n, m, to);
      } else {
        MonthsShrink(item, n, to);
        SkipEarly(item, n + 1, m, from, to);
      }
    }
  }

  /** The listing is the reference exactly when no occurrence of the window lies beyond its guard. */
  lemma {:induction false} ListingIsComplete(item: Item, n: nat, guard: nat, from: Date, to: Date)
    ensures Listing(item, n, guard, from, to) == InWindow(item, n, from, to) <==> InWindow(item, n + guard, from, to) == []
    decreases guard
  {
    hide Occurrence, MonthsLeft, Before;
    var d := Occurrence(item.start, item.frequency, n);
    if Before(to, d) {
      LaterStillLater(item, n, n + guard, to);
    } else if guard > 0 {
      MonthsShrink(item, n, to);
      ListingIsComplete(item, n + 1, guard - 1, from, to);
      var head := if Before(d, from) then [] else [d];
      var listed, all := Listing(item, n + 1, guard - 1, from, to), InWindow(item, n + 1, from, to);
      assert n + 1 + (guard - 1) == n + guard;
      if head + listed == head + all {
        assert (head + listed)[|head|..] == listed && (head + all)[|head|..] == all;
      }
    }
  }

  /** What the projection of the frontend lists. */
  function Projection(item: Item, k: nat, from: Date, to: Date): seq<Date> {
    if !item.active || item.amount <= 0 then [] else Listing(item, ListedFrom(item, k, from), LISTING_GUARD, from, to)
  }

  /** For a template whose next date is the backend's k-th occurrence, the projection lists exactly the occurrences
      numbered k or later inside the window, in order, if and only if none of them lies 120 or more past its start. */
  lemma ProjectionIsComplete(item: Item, k: nat, from: Date, to: Date)
    requires item.active && item.amount > 0
    ensures Projection(item, k, from, to) == InWindow(item, k, from, to)
            <==> InWindow(item, ListedFrom(item, k, from) + LISTING_GUARD, from, to) == []
  {
    hide Occurrence, MonthsLeft, Before, Listing, InWindow;
    var c := ListedFrom(item, k, from);
    ListingIsComplete(item, c, LISTING_GUARD, from, to);
    if Before(Occurrence(item.start, item.frequency, k), from) {
      if c <= k {
        SkipEarlyTo(item, c, k, from, to);
      } else {
        assert Before(Occurrence(item.start, item.frequency, c - 1), from);
        SkipEarly(item, k, c, from, to);
      }
    }
  }

  lemma SkipEarlyTo(item: Item, c: nat, k: nat, from: Date, to: Date)
    requires c <= k && Before(Occurrence(item.start, item.frequency, k), from)
    ensures InWindow(item, c, from, to) == InWindow(item, k, from, to)
  {
    hide Occurrence, MonthsLeft, Before, InWindow;
    if c < k {
      EarlierStillEarlier(item, k, k - 1, from);
    }
    SkipEarly(item, c, k, from, to);
  }

  lemma NinetyDaysLater(from: Date, to: Date)
    requires Ordinal(to) <= Ordinal(from) + 90
    ensures to.year <= from.year + 1
  {
    if to.year > from.year + 1 {
      OrdinalInYear(from);
      OrdinalInYear(to);
      YearLength(from.year + 1);
      if from.year + 2 < to.year {
        LaterYearStartsLater(from.year + 2, to.year);
        YearLength(from.year + 2);
      }
    }
  }

  lemma NothingAfter(item: Item, n: nat, from: Date, to: Date)
    requires Before(to, Occurrence(item.start, item.frequency, n))
    ensures InWindow(item, n, from, to) == []
  {
    hide Occurrence, MonthsLeft, Before;
  }

  /** With a horizon of at most ninety days, and a window that starts no later than occurrence 1200, the forecast
      lists every backend occurrence of the window and no other. */
  lemma ForecastMatchesBackend(item: Item, k: nat, from: Date, to: Date)
    requires item.active && item.amount > 0 && Ordinal(to) <= Ordinal(from) + 90
    requires !Before(Occurrence(item.start, item.frequency, FAST_FORWARD_GUARD), from)
    ensures Projection(item, k, from, to) == InWindow(item, k, from, to)
  {
    hide Occurrence, MonthsLeft, Ordinal, InWindow, Listing, Projection;
    ProjectionIsComplete(item, k, from, to);
    NinetyDaysLater(from, to);
    var c := ListedFrom(item, k, from);
    var first, beyond := Occurrence(item.start, item.frequency, c), Occurrence(item.start, item.frequency, c + LISTING_GUARD);
    YearsApart(item.start, item.frequency, c);
    YearOf(first);
    YearOf(beyond);
    assert Before(to, beyond);
    NothingAfter(item, c + LISTING_GUARD, from, to);
  }

  lemma YearOf(d: Date)
    ensures 12 * d.year <= d.MonthIndex() < 12 * d.year + 12
  {
  }

  lemma YearsApart(start: Date, f: Frequency, n: nat)
    ensures Occurrence(start, f, n + LISTING_GUARD).MonthIndex() >= Occurrence(start, f, n).MonthIndex() + LISTING_GUARD
  {
    hide InMonth;
    assert MonthsBetween(f) * (n + LISTING_GUARD) == MonthsBetween(f) * n + MonthsBetween(f) * LISTING_GUARD;
  }

  // ---------------------------------------------------------------- the loops

  /** `addMonthsClamped`, from a base month and with the day the schedule is anchored on. */
  function AddMonthsClamped(base: Date, anchorDay: int, months: int): Date {
    InMonth(base.MonthIndex() + months, anchorDay)
  }

  lemma NextCursor(start: Date, f: Frequency, n: nat)
    ensures AddMonthsClamped(Occurrence(start, f, n), start.day, MonthsBetween(f)) == Occurrence(start, f, n + 1)
  {
    hide InMonth;
    assert MonthsBetween(f) * (n + 1) == MonthsBetween(f) * n + MonthsBetween(f);
  }

  lemma TurnOfListing(item: Item, n: nat, guard: nat, from: Date, to: Date, done: seq<Date>)
    requires guard > 0 && !Before(to, Occurrence(item.start, item.frequency, n))
    ensures var d := Occurrence(item.start, item.frequency, n);
            done + Listing(item, n, guard, from, to)
            == (if Before(d, from) then done else done + [d]) + Listing(item, n + 1, guard - 1, from, to)
  {
    hide Occurrence, Before;
  }

  lemma EndOfListing(item: Item, n: nat, guard: nat, from: Date, to: Date, done: seq<Date>)
    requires guard == 0 || Before(to, Occurrence(item.start, item.frequency, n))
    ensures done + Listing(item, n, guard, from, to) == done
  {
    hide Occurrence, Before;
  }

  lemma TurnOfFastForward(item: Item, i: nat, from: Date)
    requires i <= FAST_FORWARD_GUARD
    ensures var d := Occurrence(item.start, item.frequency, i);
            FastForward(item, i, from) == if i < FAST_FORWARD_GUARD && Before(d, from) then FastForward(item, i + 1, from) else i
  {
    hide Occurrence, Before;
  }

  method ProjectRecurringOccurrences(item: Item, ghost k: nat, from: Date, to: Date) returns (occurrences: seq<Date>)
    requires NextIs(item, k)
    ensures occurrences == Projection(item, k, from, to)
  {
    hide InMonth, Before, Occurrence, Listing, FastForward, AddMonthsClamped;
    occurrences := [];
    if !item.active || item.amount <= 0 {
      return;
    }
    FirstOccurrence(item.start, item.frequency);
    var interval := MonthsBetween(item.frequency);
    var cursor := if item.next.Some? then item.next.value else item.start;
    ghost var n := k;
    if Before(cursor, from) {
      var i := 0;
      while Before(cursor, from) && i < FAST_FORWARD_GUARD
        invariant 0 <= i <= FAST_FORWARD_GUARD
        invariant cursor == Occurrence(item.start, item.frequency, if i == 0 then k else i)
        invariant i == 0 ==> Before(cursor, from)
        invariant i > 0 ==> FastForward(item, 1, from) == FastForward(item, i, from)
        decreases FAST_FORWARD_GUARD - i
      {
        TurnOfFastForward(item, i, from);
        i := i + 1;
        cursor := AddMonthsClamped(item.start, item.start.day, i * interval);
        CursorIs(item, i);
      }
      n := i;
      TurnOfFastForward(item, i, from);
    }
    ghost var c := n;
    assert c == ListedFrom(item, k, from);
    var guard := 0;
    while !Before(to, cursor) && guard < LISTING_GUARD
      invariant guard <= LISTING_GUARD && n == c + guard && cursor == Occurrence(item.start, item.frequency, n)
      invariant occurrences + Listing(item, n, LISTING_GUARD - guard, from, to) == Listing(item, c, LISTING_GUARD, from, to)
    {
      TurnOfListing(item, n, LISTING_GUARD - guard, from, to, occurrences);
      if !Before(cursor, from) {
        occurrences := occurrences + [cursor];
      }
      NextCursor(item.start, item.frequency, n);
      cursor := AddMonthsClamped(cursor, item.start.day, interval);
      guard, n := guard + 1, n + 1;
    }
    EndOfListing(item, n, LISTING_GUARD - guard, from, to, occurrences);
  }

  lemma CursorIs(item: Item, i: nat)
    ensures AddMonthsClamped(item.start, item.start.day, i * MonthsBetween(item.frequency)) == Occurrence(item.start, item.frequency, i)
  {
    hide InMonth;
    assert i * MonthsBetween(item.frequency) == MonthsBetween(item.frequency) * i;
  }
}
