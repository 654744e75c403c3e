/** Laws of the loan ledger: the projected schedule is canonical in every reachable state, regeneration never
    rejects except for a reconciled balance, and undo is the inverse of the latest event. */
module LoanLaws {
  import opened Amortization
  import opened Calendar
  import opened Common
  import opened ExtraPayment
  import opened Ledger
  import opened LedgerLaws
  import opened LoanLedger

  // ---------------------------------------------------------------- the invariant

  /** Terms a loan can be opened with. */
  ghost predicate SoundTerms(t: Terms) {
    && ValidTerms(t) && ValidLoanDate(t.start) && t.start == InMonth(t.start.MonthIndex(), t.day)
    && Closes(t.FixedPart(), t.principal, t.months)
  }

  /** The monthly payment repays this balance within the longest term. */
  ghost predicate Feasible(t: Terms, balance: int) {
    && t.rateBps >= 0 && 0 <= balance <= MAX_AMOUNT
    && (balance > 0 ==> t.payment > MonthlyInterest(balance, t.rateBps) && Closes(t.FixedPart(), balance, MAX_MONTHS))
  }

  predicate Numbered(h: seq<Event>, e: Event) {
    if e.adjustment then e.line == Line(-1, e.on, 0, 0, 0) && e.transaction.None? && e.total == 0
    else
      && e.transaction.Some? && e.total > 0 && e.principal >= 0
      && (e.line.sequence == LastNumber(h) + 1 || e.line == Line(0, e.on, e.principal, 0, e.principal))
  }

  /** What settling one more event requires of the ones before it. */
  ghost predicate Follows(t: Terms, h: seq<Event>, e: Event)
    requires t.rateBps >= 0
  {
    && Numbered(h, e)
    && Feasible(t, t.principal - Repaid(h) - e.principal)
    && (LatestDate(h).Some? ==> !Before(e.on, LatestDate(h).value))
    && 2000 <= e.on.year && 2000 <= e.line.due.year
    && (h != [] ==> h[|h| - 1].created < e.created && h[|h| - 1].id < e.id)
  }

  ghost predicate Chronicle(t: Terms, h: seq<Event>)
    requires t.rateBps >= 0
  {
    h == [] || (Chronicle(t, h[..|h| - 1]) && Follows(t, h[..|h| - 1], h[|h| - 1]))
  }

  /** The pending rows show these schedule rows. */
  predicate Shows(pending: seq<Planned>, rows: seq<Row>) {
    |pending| == |rows| && forall i :: 0 <= i < |rows| ==> pending[i].line == LineOf(rows[i])
  }

  /** The schedule of what remains, numbered after the paid installments. */
  function Canonical(d: Debt, monthIndex: int): seq<Row>
    requires d.terms.rateBps >= 0
  {
    Installments(d.terms.FixedPart(), Remaining(d), MAX_MONTHS, LastNumber(d.history) + 1, monthIndex)
  }

  ghost predicate Projects(d: Debt)
    requires d.terms.rateBps >= 0
  {
    if Remaining(d) <= 0 then d.pending == []
    else
      && d.pending != [] && 2000 <= d.pending[0].line.due.year
      && Shows(d.pending, Canonical(d, d.pending[0].line.due.MonthIndex()))
  }

  /** Row ids grow along the table and `tick` is past all of them. */
  ghost predicate Fresh(d: Debt) {
    && (d.history != [] ==> d.history[|d.history| - 1].created < d.tick && d.history[|d.history| - 1].id < d.tick)
    && (forall i :: 0 <= i < |d.pending| ==> d.pending[i].id < d.tick)
    && (forall i, j :: 0 <= i < j < |d.pending| ==> d.pending[i].id < d.pending[j].id)
    && (forall i :: 0 <= i < |d.pending| && d.history != [] ==> d.history[|d.history| - 1].id < d.pending[i].id)
  }

  ghost predicate Sound(d: Debt) {
    && SoundTerms(d.terms) && Chronicle(d.terms, d.history) && Feasible(d.terms, Remaining(d))
    && Projects(d) && Fresh(d) && (d.paidOff <==> Remaining(d) == 0)
  }

  // ---------------------------------------------------------------- queries on a sound debt

  lemma RepaidMore(h: seq<Event>, e: Event)
    ensures Repaid(h + [e]) == Repaid(h) + e.principal
    ensures LastNumber(h + [e]) == (if !e.adjustment && e.line.sequence > LastNumber(h) then e.line.sequence else LastNumber(h))
    ensures (h + [e])[..|h|] == h
  {
    assert (h + [e])[..|h + [e]| - 1] == h;
  }

  /** Less debt is feasible when more debt is. */
  lemma FeasibleMonotone(t: Terms, low: int, high: int)
    requires 0 <= low <= high && Feasible(t, high)
    ensures Feasible(t, low)
  {
    hide Closes, MonthlyInterest;
    if low > 0 {
      InterestMonotone(low, high, t.rateBps);
      ClosesMonotone(t.FixedPart(), low, high, MAX_MONTHS, MAX_MONTHS);
    }
  }

  lemma OpeningIsFeasible(t: Terms)
    requires SoundTerms(t)
    ensures Feasible(t, t.principal)
  {
    hide Closes, MonthlyInterest;
    ClosesMonotone(t.FixedPart(), t.principal, t.principal, t.months, MAX_MONTHS);
  }

  /** Rows a month apart, numbered one by one. */
  predicate Monthly(pending: seq<Planned>) {
    forall i :: 0 <= i < |pending| ==>
      && pending[i].line.due.MonthIndex() == pending[0].line.due.MonthIndex() + i
      && pending[i].line.sequence == pending[0].line.sequence + i
  }

  lemma {:induction false} FirstIsNext(pending: seq<Planned>)
    requires pending != [] && Monthly(pending)
    ensures NextDue(pending) == Some(pending[0].line.due)
    ensures NextPending(pending) == 0
  {
    if |pending| > 1 {
      var init := pending[..|pending| - 1];
      assert forall i :: 0 <= i < |init| ==> init[i] == pending[i];
      FirstIsNext(init);
      LaterMonthIsLater(pending[0].line.due, pending[|pending| - 1].line.due);
    }
  }

  lemma TailIsMonthly(pending: seq<Planned>)
    requires pending != [] && Monthly(pending)
    ensures Monthly(pending[1..])
  {
  }

  lemma RowIsDated(plan: Plan, balance: int, sequence: int, monthIndex: int)
    ensures var row := RowAt(plan, balance, sequence, monthIndex);
            row.due == InMonth(monthIndex, plan.day) && row.due.MonthIndex() == monthIndex && row.sequence == sequence
  {
  }

  lemma ShownIsMonthly(pending: seq<Planned>, plan: Plan, balance: int, sequence: int, monthIndex: int)
    requires balance > 0 && Shows(pending, Installments(plan, balance, MAX_MONTHS, sequence, monthIndex))
    ensures pending != [] && Monthly(pending)
    ensures pending[0].line.due == InMonth(monthIndex, plan.day) && pending[0].line.sequence == sequence
  {
    hide Installments, RowAt, InMonth;
    var rows := Installments(plan, balance, MAX_MONTHS, sequence, monthIndex);
    forall i | 0 <= i < |rows|
      ensures rows[i].due.MonthIndex() == monthIndex + i && rows[i].sequence == sequence + i
      ensures i == 0 ==> rows[0].due == InMonth(monthIndex, plan.day)
    {
      RowOfSchedule(plan, balance, MAX_MONTHS, sequence, monthIndex, i);
      RowIsDated(plan, BalanceBefore(balance, rows, i), sequence + i, monthIndex + i);
    }
  }

  /** What a sound debt knows about its next installment. */
  lemma NextOfSound(d: Debt)
    requires SoundTerms(d.terms) && Projects(d) && Remaining(d) > 0
    ensures d.pending != [] && Monthly(d.pending)
    ensures NextDue(d.pending) == Some(d.pending[0].line.due) && NextPending(d.pending) == 0
    ensures d.pending[0].line.sequence == LastNumber(d.history) + 1
    ensures d.pending[0].line.due == InMonth(d.pending[0].line.due.MonthIndex(), d.terms.day)
  {
    hide Installments, InMonth, Closes, MonthlyInterest;
    ShownIsMonthly(d.pending, d.terms.FixedPart(), Remaining(d), LastNumber(d.history) + 1, d.pending[0].line.due.MonthIndex());
    FirstIsNext(d.pending);
  }

  // ---------------------------------------------------------------- regeneration

  lemma NotEarlierYear(a: Date, b: Date)
    requires Ordinal(a) <= Ordinal(b)
    ensures a.year <= b.year
  {
    hide Ordinal;
    OrdinalOrder(a, b);
    OrdinalOrder(b, a);
  }

  lemma RolloverStaysLater(d: Date, n: nat)
    ensures d.year <= AddMonthsRollover(d, n).year
  {
    hide Ordinal;
    NotEarlierYear(InMonth(d.MonthIndex() + n, 1), AddMonthsRollover(d, n));
  }

  predicate Dated(date: Option<Date>) {
    date.Some? ==> 2000 <= date.value.year
  }

  lemma RestartIsDated(d: Debt, fallback: Option<Date>)
    requires ValidLoanDate(d.terms.start) && Dated(fallback) && Dated(NextDue(d.pending))
    ensures 2000 <= Restart(d, fallback).year
  {
    hide AddMonthsRollover;
    RolloverStaysLater(d.terms.start, LastNumber(d.history));
  }

  /** A schedule of the rest exists exactly when what remains is feasible. */
  lemma RestSchedule(d: Debt, start: Date)
    requires SoundTerms(d.terms) && Remaining(d) > 0 && 2000 <= start.year
    ensures var rows := Schedule(RestOf(d, start));
            && (Feasible(d.terms, Remaining(d)) <==> rows != [] && rows[|rows| - 1].remaining == 0)
            && (Feasible(d.terms, Remaining(d)) ==>
                  Renumbered(rows, LastNumber(d.history) + 1) == Canonical(d, start.MonthIndex()))
  {
    hide Closes, MonthlyInterest, Installments, Renumbered;
    var r := Remaining(d);
    ScheduleEndsAtZero(d.terms.FixedPart(), r, MAX_MONTHS, 1, start.MonthIndex());
    RenumberedSchedule(d.terms.FixedPart(), r, MAX_MONTHS, 1, LastNumber(d.history) + 1, start.MonthIndex());
  }

  /** Regeneration rejects exactly an infeasible balance, and otherwise projects it canonically. */
  lemma Regenerates(d: Debt, fallback: Option<Date>)
    requires SoundTerms(d.terms) && Dated(fallback) && Dated(NextDue(d.pending))
    ensures Regenerate(d, fallback).Ok? <==> Remaining(d) <= 0 || Feasible(d.terms, Remaining(d))
    ensures Regenerate(d, fallback).Err? ==> Regenerate(d, fallback).error == LoanInvalid
    ensures Regenerate(d, fallback).Ok? ==>
              var r := Regenerate(d, fallback).value;
              && r == d.(pending := r.pending, paidOff := r.paidOff, tick := r.tick)
              && Projects(r) && (r.paidOff <==> Remaining(d) <= 0) && r.tick == d.tick + |r.pending|
              && (forall i :: 0 <= i < |r.pending| ==> r.pending[i].id == d.tick + i)
              && (Remaining(d) > 0 ==> r.pending != [] && r.pending[0].line.due == InMonth(Restart(d, fallback).MonthIndex(), d.terms.day))
  {
    hide Schedule, Installments, InMonth, Restart, Stored, Renumbered, Closes, MonthlyInterest;
    if Remaining(d) > 0 {
      var start := Restart(d, fallback);
      RestartIsDated(d, fallback);
      RestSchedule(d, start);
      if Feasible(d.terms, Remaining(d)) {
        var r := Regenerate(d, fallback).value;
        ShownIsMonthly(r.pending, d.terms.FixedPart(), Remaining(d), LastNumber(d.history) + 1, start.MonthIndex());
        MonthYear(r.pending[0].line.due, start);
      }
    }
  }

  lemma MonthYear(a: Date, b: Date)
    requires a.MonthIndex() == b.MonthIndex()
    ensures a.year == b.year
  {
  }

  /** What regeneration projects, by the month it restarts in. */
  lemma RegeneratedShows(d: Debt, fallback: Option<Date>)
    requires SoundTerms(d.terms) && Dated(fallback) && Dated(NextDue(d.pending))
    requires Regenerate(d, fallback).Ok?
    ensures var r := Regenerate(d, fallback).value;
            if Remaining(d) <= 0 then r.pending == [] else Shows(r.pending, Canonical(d, Restart(d, fallback).MonthIndex()))
  {
    hide SoundTerms, Feasible, Regenerate, InMonth, Repaid, NextDue, Dated, Restart, LastNumber, Installments;
    RateIsNatural(d.terms);
    Regenerates(d, fallback);
    RedatedMonth(Restart(d, fallback).MonthIndex(), d.terms.day);
  }

  lemma RedatedMonth(monthIndex: int, day: int)
    ensures InMonth(monthIndex, day).MonthIndex() == monthIndex
  {
  }

  lemma RegeneratedIsFresh(d: Debt, r: Debt)
    requires d.history != [] ==> d.history[|d.history| - 1].created < d.tick && d.history[|d.history| - 1].id < d.tick
    requires r == d.(pending := r.pending, paidOff := r.paidOff, tick := d.tick + |r.pending|)
    requires forall i :: 0 <= i < |r.pending| ==> r.pending[i].id == d.tick + i
    ensures Fresh(r)
  {
  }

  /** An event ready to be followed by a regeneration. */
  ghost predicate Ready(d: Debt) {
    && SoundTerms(d.terms) && Dated(NextDue(d.pending))
    && Chronicle(d.terms, d.history) && Feasible(d.terms, Remaining(d))
    && (d.history != [] ==> d.history[|d.history| - 1].created < d.tick && d.history[|d.history| - 1].id < d.tick)
  }

  lemma RegeneratedIsSound(d: Debt, fallback: Option<Date>)
    requires Ready(d) && Dated(fallback)
    ensures Regenerate(d, fallback).Ok? && Sound(Regenerate(d, fallback).value)
  {
    hide SoundTerms, Chronicle, Feasible, Projects, Regenerate, InMonth, Repaid, Fresh, NextDue, Dated, Restart;
    RateIsNatural(d.terms);
    Regenerates(d, fallback);
    RegeneratedIsFresh(d, Regenerate(d, fallback).value);
    FeasibleIsNonNegative(d.terms, Remaining(d));
  }

  lemma FeasibleIsNonNegative(t: Terms, balance: int)
    requires Feasible(t, balance)
    ensures 0 <= balance <= MAX_AMOUNT
  {
  }

  // ---------------------------------------------------------------- events keep the debt sound

  lemma ChronicleExtends(t: Terms, h: seq<Event>, e: Event)
    requires t.rateBps >= 0 && Chronicle(t, h) && Follows(t, h, e)
    ensures Chronicle(t, h + [e])
  {
    hide Follows;
    assert (h + [e])[..|h + [e]| - 1] == h;
  }

  /** The next installment is the next row of the schedule and costs something. */
  lemma NextLine(d: Debt)
    requires SoundTerms(d.terms) && Feasible(d.terms, Remaining(d)) && Projects(d) && Remaining(d) > 0
    ensures d.pending != []
    ensures var line, plan, mi := d.pending[0].line, d.terms.FixedPart(), d.pending[0].line.due.MonthIndex();
            && line == LineOf(RowAt(plan, Remaining(d), LastNumber(d.history) + 1, mi))
            && 0 < line.principal <= Remaining(d) && line.interest >= 0 && line.total == line.principal + line.interest
  {
    hide Installments, Closes, MonthlyInterest;
    var plan, mi := d.terms.FixedPart(), d.pending[0].line.due.MonthIndex();
    PeelRow(plan, Remaining(d), MAX_MONTHS, LastNumber(d.history) + 1, mi);
    StepRepays(plan, Remaining(d));
    InterestMonotone(Remaining(d), Remaining(d), plan.rateBps);
  }

  /** Settling an event after a sound history gets it ready, provided the new balance is feasible. */
  lemma SettledIsReady(d: Debt, e: Event, pending: seq<Planned>)
    requires Sound(d) && Numbered(d.history, e) && ValidLoanDate(e.on) && ValidEventDate(d, e.on, false)
    requires 2000 <= e.line.due.year && e.created == d.tick && Dated(NextDue(pending))
    requires d.history != [] ==> d.history[|d.history| - 1].id < e.id
    requires e.id <= d.tick
    requires Feasible(d.terms, Remaining(d) - e.principal)
    ensures Ready(d.(history := d.history + [e], pending := pending, tick := d.tick + 1))
  {
    hide SoundTerms, Chronicle, Feasible, Projects, Numbered, NextDue;
    RateIsNatural(d.terms);
    RepaidMore(d.history, e);
    ChronicleExtends(d.terms, d.history, e);
  }

  lemma RateIsNatural(t: Terms)
    requires SoundTerms(t)
    ensures t.rateBps >= 0
  {
  }

  /** The row after the next installment is dated, and the installment has a number of its own. */
  lemma AfterNext(d: Debt)
    requires Sound(d) && d.pending != []
    ensures Remaining(d) > 0 && Without(d.pending, 0) == d.pending[1..]
    ensures Dated(NextDue(d.pending[1..])) && 2000 <= d.pending[0].line.due.year
    ensures |d.pending| > 1 ==> NextDue(d.pending[1..]) == Some(d.pending[1].line.due)
    ensures d.pending[0].line.sequence == LastNumber(d.history) + 1
  {
    hide Chronicle, Feasible, Installments, InMonth, LastNumber;
    NextOfSound(d);
    TailIsMonthly(d.pending);
    if |d.pending| > 1 {
      FirstIsNext(d.pending[1..]);
    }
  }

  /** What a payment records is a numbered event with a feasible balance after it. */
  lemma SoundProjects(d: Debt)
    requires Sound(d) && Remaining(d) > 0
    ensures SoundTerms(d.terms) && Feasible(d.terms, Remaining(d)) && Projects(d) && d.terms.rateBps >= 0
  {
    hide Chronicle, Feasible, Projects;
  }

  lemma PaidEvent(d: Debt, input: PayInput, transaction: Id)
    requires Sound(d) && d.pending != []
    requires ValidPayInput(input) && ValidSplit(d.pending[0].line, input, Remaining(d))
    ensures var paid := SettleInstallment(d, 0, input, transaction);
            var e := paid.history[|d.history|];
            && paid == d.(history := d.history + [e], pending := d.pending[1..], tick := d.tick + 1)
            && d.terms.rateBps >= 0 && Numbered(d.history, e) && Feasible(d.terms, Remaining(d) - e.principal)
            && 0 <= e.principal <= Remaining(d) && e.on == input.date && e.line == d.pending[0].line && e.id == d.pending[0].id && e.created == d.tick
  {
    hide Chronicle, Closes, MonthlyInterest, Installments, InMonth, LastNumber, Feasible, RowAt, Projects, SoundTerms, NextDue, Without;
    AfterNext(d);
    SoundProjects(d);
    NextLine(d);
    var (total, principal, interest) := Settle(d.pending[0].line, input);
    FeasibleMonotone(d.terms, Remaining(d) - principal, Remaining(d));
  }

  lemma PaidIsReady(d: Debt, input: PayInput, transaction: Id)
    requires Sound(d) && d.pending != []
    requires ValidPayInput(input) && ValidEventDate(d, input.date, false) && ValidSplit(d.pending[0].line, input, Remaining(d))
    ensures Ready(SettleInstallment(d, 0, input, transaction))
  {
    hide Chronicle, SoundTerms, Feasible, Projects, LastNumber, NextDue, SettleInstallment, ValidSplit, Numbered, Ready;
    AfterNext(d);
    PaidEvent(d, input, transaction);
    SettledIsReady(d, SettleInstallment(d, 0, input, transaction).history[|d.history|], d.pending[1..]);
  }

  lemma PrepaidIsReady(d: Debt, amount: int, date: Date, transaction: Id)
    requires Sound(d) && ValidLoanDate(date) && ValidEventDate(d, date, true) && 0 < amount <= Remaining(d)
    ensures Ready(SettleExtra(d, amount, date, transaction))
  {
    hide Chronicle, Closes, MonthlyInterest, Installments, InMonth, Feasible;
    NextOfSound(d);
    FeasibleMonotone(d.terms, Remaining(d) - amount, Remaining(d));
    SettledIsReady(d, SettleExtra(d, amount, date, transaction).history[|d.history|], d.pending);
  }

  lemma SoundNext(d: Debt)
    requires Sound(d)
    ensures Dated(NextDue(d.pending)) && Remaining(d) >= 0 && d.terms.rateBps >= 0
  {
    hide Chronicle, Closes, MonthlyInterest, Installments, InMonth;
    if Remaining(d) > 0 {
      NextOfSound(d);
    }
  }

  lemma AdjustedIsReady(d: Debt, actual: int, date: Date)
    requires Sound(d) && ValidLoanDate(date) && ValidEventDate(d, date, false) && Feasible(d.terms, actual)
    ensures Ready(SettleAdjustment(d, Remaining(d) - actual, date))
  {
    hide Chronicle, Closes, MonthlyInterest, Installments, InMonth, Feasible, Projects;
    SoundNext(d);
    SettledIsReady(d, SettleAdjustment(d, Remaining(d) - actual, date).history[|d.history|], d.pending);
  }

  lemma {:induction false} LatestIsLast(t: Terms, h: seq<Event>)
    requires t.rateBps >= 0 && Chronicle(t, h) && h != []
    ensures LatestEvent(h) == |h| - 1
  {
    hide Feasible, Numbered;
    if |h| > 1 {
      LatestIsLast(t, h[..|h| - 1]);
    }
  }

  /** Whatever was owed after some event was feasible. */
  lemma HistoryIsFeasible(t: Terms, h: seq<Event>)
    requires SoundTerms(t) && t.rateBps >= 0 && Chronicle(t, h)
    ensures Feasible(t, t.principal - Repaid(h))
  {
    hide SoundTerms, Feasible, Numbered;
    if h == [] {
      OpeningIsFeasible(t);
      assert t.principal - Repaid(h) == t.principal;
    } else {
      var before, last := h[..|h| - 1], h[|h| - 1];
      assert Follows(t, before, last);
      assert t.principal - Repaid(h) == t.principal - Repaid(before) - last.principal;
    }
  }

  lemma UnsettledIsReady(d: Debt)
    requires Sound(d) && d.history != []
    ensures Ready(Unsettle(d, |d.history| - 1))
    ensures Dated(Some(d.history[|d.history| - 1].line.due))
  {
    hide SoundTerms, Projects, Feasible, Numbered, Repaid, LatestDate, LastNumber;
    SoundNext(d);
    var last, init := |d.history| - 1, d.history[..|d.history| - 1];
    assert Without(d.history, last) == init;
    assert Chronicle(d.terms, init) && Follows(d.terms, init, d.history[last]);
    HistoryIsFeasible(d.terms, init);
    var u := Unsettle(d, last);
    assert Remaining(u) == d.terms.principal - Repaid(init);
    assert Dated(NextDue(u.pending)) && Feasible(u.terms, Remaining(u));
  }
}
