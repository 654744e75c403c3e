/** What the loan feature promises: a canonical schedule in every reachable state, payments that leave the rest of
    the schedule alone, and an undo that takes back exactly the latest event. */
module LoanTheorems {
  import opened Amortization
  import opened Calendar
  import opened Common
  import opened ExtraPayment
  import opened Ledger
  import opened LedgerLaws
  import opened LoanLaws
  import opened LoanLedger
  import opened LoanRuns
  import opened ManagedLaws

  // ---------------------------------------------------------------- opening

  lemma OpenedTerms(input: LoanInput)
    requires ValidLoanInput(input)
    ensures SoundTerms(input.terms)
    ensures var t := input.terms;
            Schedule(t) == Installments(t.FixedPart(), t.principal, MAX_MONTHS, 1, t.start.MonthIndex())
            && Schedule(t)[0].due == t.start
  {
    hide Closes, MonthlyInterest, InMonth, Installments, IsBlank, RowAt;
    var t := input.terms;
    ScheduleEndsAtZero(t.FixedPart(), t.principal, t.months, 1, t.start.MonthIndex());
    ClosedScheduleIsStable(t.FixedPart(), t.principal, t.months, MAX_MONTHS, 1, t.start.MonthIndex());
    PeelRow(t.FixedPart(), t.principal, t.months, 1, t.start.MonthIndex());
    RowIsDated(t.FixedPart(), t.principal, 1, t.start.MonthIndex());
  }

  /** A new loan starts in a sound state. */
  lemma CreateIsSound(b: Books, input: LoanInput)
    requires Consistent(b) && CreateLoan(b, input).Ok?
    ensures WorldSound(CreateLoan(b, input).value)
  {
    hide Consistent, Closes, MonthlyInterest, InMonth, Installments, IsBlank, Schedule, SoundTerms;
    OpenedTerms(input);
    OpeningIsFeasible(input.terms);
    FeasibleIsNonNegative(input.terms, input.terms.principal);
    OpenedPrincipal(input.terms);
  }

  lemma OpenedPrincipal(t: Terms)
    requires SoundTerms(t)
    ensures t.principal > 0
  {
  }

  // ---------------------------------------------------------------- the canonical schedule

  /** Numbers of the paid installments, in the order they were paid. */
  function PaidNumbers(h: seq<Event>): seq<int> {
    if h == [] then []
    else PaidNumbers(h[..|h| - 1]) + (if !h[|h| - 1].adjustment && h[|h| - 1].line.sequence > 0 then [h[|h| - 1].line.sequence] else [])
  }

  lemma {:induction false} PaidInOrder(t: Terms, h: seq<Event>)
    requires t.rateBps >= 0 && Chronicle(t, h)
    ensures |PaidNumbers(h)| == LastNumber(h)
    ensures forall i :: 0 <= i < LastNumber(h) ==> PaidNumbers(h)[i] == i + 1
  {
    hide Feasible;
    if h != [] {
      PaidInOrder(t, h[..|h| - 1]);
    }
  }

  function PlannedPrincipal(pending: seq<Planned>): int {
    if pending == [] then 0 else pending[0].line.principal + PlannedPrincipal(pending[1..])
  }

  lemma {:induction false} ShownPrincipal(pending: seq<Planned>, rows: seq<Row>)
    requires Shows(pending, rows)
    ensures PlannedPrincipal(pending) == TotalPrincipal(rows)
    decreases |rows|
  {
    if rows != [] {
      ShownPrincipal(pending[1..], rows[1..]);
    }
  }

  /** The pending principal is what remains. */
  lemma PendingSumsToRemaining(d: Debt)
    requires Sound(d)
    ensures PlannedPrincipal(d.pending) == Remaining(d)
  {
    hide Chronicle, Closes, MonthlyInterest, InMonth, Installments, Repaid;
    SoundNext(d);
    if Remaining(d) > 0 {
      var plan, mi := d.terms.FixedPart(), d.pending[0].line.due.MonthIndex();
      var rows := Canonical(d, mi);
      ShownPrincipal(d.pending, rows);
      PrincipalConserved(plan, Remaining(d), MAX_MONTHS, LastNumber(d.history) + 1, mi);
      ScheduleEndsAtZero(plan, Remaining(d), MAX_MONTHS, LastNumber(d.history) + 1, mi);
    }
  }

  /** In every state reached from a new loan by requests on it and on anything else: the debt is never negative,
      the loan is paid off exactly when nothing remains, the paid installments are 1, 2, ... in that order, and
      the pending rows are the schedule of what remains, numbered on from there, whose principal sums to it. */
  lemma LoanIsAlwaysCanonical(b: Books, input: LoanInput, actions: seq<Action>)
    requires Consistent(b) && CreateLoan(b, input).Ok?
    ensures var w := RunLoan(CreateLoan(b, input).value, actions);
            var d := w.debt;
            && 0 <= Remaining(d) && (d.paidOff <==> Remaining(d) == 0) && (Remaining(d) == 0 <==> d.pending == [])
            && |PaidNumbers(d.history)| == LastNumber(d.history)
            && (forall i :: 0 <= i < LastNumber(d.history) ==> PaidNumbers(d.history)[i] == i + 1)
            && d.terms.rateBps >= 0
            && (d.pending != [] ==> Shows(d.pending, Canonical(d, d.pending[0].line.due.MonthIndex())))
            && PlannedPrincipal(d.pending) == Remaining(d)
            && Consistent(w.books)
  {
    hide Consistent, AllBacked, Chronicle, Closes, MonthlyInterest, InMonth, Installments, Repaid, LastNumber, PaidNumbers, CreateLoan, RunLoan, Feasible;
    CreateIsSound(b, input);
    RunLoanKeeps(CreateLoan(b, input).value, actions);
    var d := RunLoan(CreateLoan(b, input).value, actions).debt;
    SoundNext(d);
    PaidInOrder(d.terms, d.history);
    PendingSumsToRemaining(d);
  }

  // ---------------------------------------------------------------- paying as scheduled

  predicate AsScheduled(input: PayInput) {
    input.total.None? && input.principal.None? && input.interest.None?
  }

  predicate SameLines(a: seq<Planned>, b: seq<Planned>) {
    |a| == |b| && forall i :: 0 <= i < |a| ==> a[i].line == b[i].line
  }

  lemma SameRows(a: seq<Planned>, b: seq<Planned>, rows: seq<Row>)
    requires Shows(a, rows) && Shows(b, rows)
    ensures SameLines(a, b)
  {
  }

  lemma TailShows(pending: seq<Planned>, plan: Plan, balance: int, sequence: int, monthIndex: int)
    requires balance > 0 && NextBalance(plan, balance) > 0 && Closes(plan, balance, MAX_MONTHS)
    requires Shows(pending, Installments(plan, balance, MAX_MONTHS, sequence, monthIndex))
    ensures |pending| > 1 && Shows(pending[1..], Installments(plan, NextBalance(plan, balance), MAX_MONTHS, sequence + 1, monthIndex + 1))
  {
    hide Installments, RowAt, NextBalance;
    PeelRow(plan, balance, MAX_MONTHS, sequence, monthIndex);
    RowLeavesNextBalance(plan, balance, sequence, monthIndex);
    var rows := Installments(plan, balance, MAX_MONTHS, sequence, monthIndex);
    assert rows[1..] == Installments(plan, NextBalance(plan, balance), MAX_MONTHS - 1, sequence + 1, monthIndex + 1);
    ClosedScheduleIsStable(plan, NextBalance(plan, balance), MAX_MONTHS - 1, MAX_MONTHS, sequence + 1, monthIndex + 1);
  }

  lemma LastShows(pending: seq<Planned>, plan: Plan, balance: int, sequence: int, monthIndex: int)
    requires NextBalance(plan, balance) <= 0
    requires Shows(pending, Installments(plan, balance, MAX_MONTHS, sequence, monthIndex))
    ensures |pending| == 1
  {
    hide Installments, RowAt, NextBalance;
    PeelRow(plan, balance, MAX_MONTHS, sequence, monthIndex);
    RowLeavesNextBalance(plan, balance, sequence, monthIndex);
  }

  lemma RowRepays(plan: Plan, balance: int, sequence: int, monthIndex: int)
    ensures var row := RowAt(plan, balance, sequence, monthIndex); row.remaining == balance - row.principal
  {
  }

  lemma ScheduledShape(d: Debt, input: PayInput, transaction: Id)
    requires Sound(d) && d.pending != [] && Remaining(d) > 0 && AsScheduled(input)
    ensures var paid := SettleInstallment(d, 0, input, transaction);
            && paid.terms == d.terms && paid.pending == d.pending[1..]
            && Remaining(paid) == NextBalance(d.terms.FixedPart(), Remaining(d))
            && LastNumber(paid.history) == LastNumber(d.history) + 1
  {
    hide Installments, MonthlyInterest, InMonth, Chronicle, Closes, Repaid, LastNumber, Projects, Fresh, Feasible, RowAt;
    AfterNext(d);
    NextLine(d);
    RowLeavesNextBalance(d.terms.FixedPart(), Remaining(d), LastNumber(d.history) + 1, d.pending[0].line.due.MonthIndex());
    RowRepays(d.terms.FixedPart(), Remaining(d), LastNumber(d.history) + 1, d.pending[0].line.due.MonthIndex());
    var paid := SettleInstallment(d, 0, input, transaction);
    RepaidMore(d.history, paid.history[|d.history|]);
  }

  /** Regenerating after a scheduled payment gives back the rows that were left. */
  lemma ScheduledRest(d: Debt, input: PayInput, transaction: Id)
    requires Sound(d) && d.pending != [] && AsScheduled(input)
    ensures var paid := SettleInstallment(d, 0, input, transaction);
            Regenerate(paid, None).Ok? ==> SameLines(Regenerate(paid, None).value.pending, d.pending[1..])
  {
    hide Installments, MonthlyInterest, InMonth, Chronicle, Regenerate, LastNumber, Repaid, Closes, NextBalance, SettleInstallment, Shows, NextDue, Fresh;
    AfterNext(d);
    ScheduledShape(d, input, transaction);
    var paid := SettleInstallment(d, 0, input, transaction);
    var plan, n, mi := d.terms.FixedPart(), LastNumber(d.history), d.pending[0].line.due.MonthIndex();
    if Regenerate(paid, None).Ok? {
      RegeneratedShows(paid, None);
      if Remaining(paid) > 0 {
        TailShows(d.pending, plan, Remaining(d), n + 1, mi);
        NextOfSound(d);
        assert Restart(paid, None) == d.pending[1].line.due;
        SameRows(Regenerate(paid, None).value.pending, d.pending[1..], Canonical(paid, mi + 1));
      } else {
        LastShows(d.pending, plan, Remaining(d), n + 1, mi);
      }
    }
  }

  /** Paying an installment as scheduled leaves every other row of the schedule unchanged. */
  lemma ScheduledPaymentKeepsTheRest(w: World, input: PayInput)
    requires WorldSound(w) && w.debt.pending != [] && AsScheduled(input)
    requires Pay(w, w.debt.pending[0].id, input).Ok?
    ensures SameLines(Pay(w, w.debt.pending[0].id, input).value.debt.pending, w.debt.pending[1..])
  {
    hide Consistent, AllBacked, Sound, Pay, Regenerate, Book, SettleInstallment, SameLines, PayGuard;
    PayIsAccepted(w, input);
    ScheduledRest(w.debt, input, w.books.nextId);
  }

  // ---------------------------------------------------------------- undo is the inverse of the latest event

  /** The debt p is d with one event settled and the schedule not yet rebuilt. */
  predicate Settling(d: Debt, p: Debt) {
    && p.terms == d.terms && |p.history| == |d.history| + 1 && p.history[..|d.history|] == d.history
    && var e := p.history[|d.history|];
       if e.line.sequence > 0 then d.pending != [] && e.line == d.pending[0].line && p.pending == d.pending[1..]
       else e.line.due == e.on && p.pending == d.pending
  }

  /** Undo gives the schedule back, except after an extra payment or an adjustment that closed the loan in another
      month than the one its next installment was due in. */
  predicate UndoneExactly(d: Debt, e: Event) {
    || e.line.sequence > 0 || Remaining(d) != e.principal
    || d.pending == [] || e.on.MonthIndex() == d.pending[0].line.due.MonthIndex()
  }

  lemma SettledRemaining(d: Debt, p: Debt)
    requires Settling(d, p)
    ensures Remaining(p) == Remaining(d) - p.history[|d.history|].principal
    ensures p.history == d.history + [p.history[|d.history|]]
  {
    assert p.history == d.history + [p.history[|d.history|]];
    RepaidMore(d.history, p.history[|d.history|]);
  }

  lemma NextDueOfOne(p: Planned)
    ensures NextDue([p]) == Some(p.line.due)
  {
  }

  /** The month the schedule restarts in once the event is undone. */
  lemma UndoneRestart(d: Debt, p: Debt)
    requires Sound(d) && Settling(d, p) && Ready(p) && Regenerate(p, None).Ok? && d.pending != []
    ensures var e, u := p.history[|d.history|], Unsettle(Regenerate(p, None).value, |d.history|);
            Restart(u, Some(e.line.due)).MonthIndex() ==
            (if UndoneExactly(d, e) then d.pending[0].line.due.MonthIndex() else e.on.MonthIndex())
  {
    hide Installments, InMonth, Chronicle, Feasible, Regenerate, LastNumber, Repaid, Fresh, Shows, SoundTerms, AddMonthsRollover;
    var e, r := p.history[|d.history|], Regenerate(p, None).value;
    SettledRemaining(d, p);
    NextOfSound(d);
    SoundRemaining(d);
    RegenerateKeepsHistory(p, None);
    if e.line.sequence > 0 {
      NextDueOfOne(Planned(r.tick, e.line));
    } else {
      Regenerates(p, None);
      RegeneratedNext(p);
      FeasibleIsNonNegative(p.terms, Remaining(p));
      RedatedMonth(d.pending[0].line.due.MonthIndex(), d.terms.day);
    }
  }

  lemma SoundRemaining(d: Debt)
    requires Sound(d)
    ensures Remaining(d) > 0 <==> d.pending != []
    ensures Remaining(d) >= 0
  {
    hide Chronicle, SoundTerms, Shows;
    SoundNext(d);
  }

  /** After regeneration the next due date lies in the month the projection restarted in. */
  lemma RegeneratedNext(p: Debt)
    requires Ready(p) && Regenerate(p, None).Ok?
    ensures var r := Regenerate(p, None).value;
            if Remaining(p) <= 0 then r.pending == [] else NextDue(r.pending) == Some(InMonth(Restart(p, None).MonthIndex(), p.terms.day))
  {
    hide Installments, InMonth, Chronicle, Feasible, Regenerate, LastNumber, Repaid, Restart, SoundTerms;
    Regenerates(p, None);
    if Remaining(p) > 0 {
      NextOfSound(Regenerate(p, None).value);
    }
  }

  /** Undoing rebuilds the schedule there was, exactly when it restarts in the month there was. */
  lemma UndoDebt(d: Debt, p: Debt)
    requires Sound(d) && Settling(d, p) && Ready(p) && Regenerate(p, None).Ok?
    ensures var e, u := p.history[|d.history|], Unsettle(Regenerate(p, None).value, |d.history|);
            && Regenerate(u, Some(e.line.due)).Ok?
            && var z := Regenerate(u, Some(e.line.due)).value;
               && z.history == d.history && z.terms == d.terms && z.paidOff == d.paidOff
               && (SameLines(z.pending, d.pending) <==> UndoneExactly(d, e))
  {
    hide Installments, InMonth, Chronicle, Feasible, Regenerate, LastNumber, Repaid, Fresh, Shows, SoundTerms, Restart, Unsettle, Follows, NextDue, Ready;
    var e, r := p.history[|d.history|], Regenerate(p, None).value;
    RegenerateKeepsHistory(p, None);
    var u := Unsettle(r, |d.history|);
    RegeneratedIsSound(p, None);
    UnsettledIsReady(r);
    UnsettledHistory(r);
    RegeneratedIsSound(u, Some(e.line.due));
    RegenerateKeepsHistory(u, Some(e.line.due));
    var z := Regenerate(u, Some(e.line.due)).value;
    assert z.history == d.history && z.terms == d.terms;
    SoundRemaining(d);
    SoundRemaining(z);
    if d.pending != [] {
      UndoneRestart(d, p);
      UndoneLines(d, z, u, e);
    }
  }

  lemma UndoneLines(d: Debt, z: Debt, u: Debt, e: Event)
    requires Sound(d) && Sound(z) && d.pending != [] && z.history == d.history && z.terms == d.terms
    requires Ready(u) && Dated(Some(e.line.due)) && Regenerate(u, Some(e.line.due)) == Ok(z)
    requires Restart(u, Some(e.line.due)).MonthIndex() == (if UndoneExactly(d, e) then d.pending[0].line.due.MonthIndex() else e.on.MonthIndex())
    ensures SameLines(z.pending, d.pending) <==> UndoneExactly(d, e)
  {
    hide Installments, InMonth, Chronicle, Feasible, Regenerate, LastNumber, Repaid, Fresh, SoundTerms, Restart, NextDue, Follows, Canonical, Shows;
    SoundRemaining(d);
    RateIsNatural(d.terms);
    RegenerateKeepsHistory(u, Some(e.line.due));
    RegeneratedShows(u, Some(e.line.due));
    assert Remaining(z) == Remaining(d) == Remaining(u);
    var mi := d.pending[0].line.due.MonthIndex();
    if UndoneExactly(d, e) {
      SameSchedule(d, z, u, mi);
    } else {
      Regenerates(u, Some(e.line.due));
      RedatedMonth(Restart(u, Some(e.line.due)).MonthIndex(), u.terms.day);
      assert z.pending[0].line.due.MonthIndex() != mi;
    }
  }

  lemma SameSchedule(d: Debt, z: Debt, u: Debt, monthIndex: int)
    requires d.terms.rateBps >= 0 && Remaining(d) > 0 && d.pending != [] && monthIndex == d.pending[0].line.due.MonthIndex()
    requires Projects(d) && u.history == d.history && u.terms == d.terms && Shows(z.pending, Canonical(u, monthIndex))
    ensures SameLines(z.pending, d.pending)
  {
    hide Installments;
    SameRows(z.pending, d.pending, Canonical(d, monthIndex));
  }
}
