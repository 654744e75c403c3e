/** The loan repository over its rows: one table of payments in which settled rows are updated in place and pending
    rows are deleted and inserted again. Each method ends in the state LoanLedger specifies or in the state it
    started from. */
module LoanStore {
  import opened Amortization
  import opened Calendar
  import opened Common
  import opened ExtraPayment
  import opened Ledger
  import opened LedgerLaws
  import opened LedgerStore
  import opened LoanLaws
  import opened LoanLedger
  import opened LoanRuns
  import opened LoanTheorems

  datatype Payment = Open(planned: Planned) | Closed(event: Event)

  function HistoryOf(rows: seq<Payment>): seq<Event> {
    if rows == [] then []
    else
      var last := rows[|rows| - 1];
      HistoryOf(rows[..|rows| - 1]) + (if last.Closed? then [last.event] else [])
  }

  function PendingOf(rows: seq<Payment>): seq<Planned> {
    if rows == [] then []
    else
      var last := rows[|rows| - 1];
      PendingOf(rows[..|rows| - 1]) + (if last.Open? then [last.planned] else [])
  }

  /** Settled rows come before pending ones. */
  predicate Sorted(rows: seq<Payment>) {
    forall i, j :: 0 <= i < j < |rows| && rows[i].Open? ==> rows[j].Open?
  }

  lemma OneMoreRow(rows: seq<Payment>, row: Payment)
    ensures HistoryOf(rows + [row]) == if row.Closed? then HistoryOf(rows) + [row.event] else HistoryOf(rows)
    ensures PendingOf(rows + [row]) == if row.Open? then PendingOf(rows) + [row.planned] else PendingOf(rows)
  {
    assert (rows + [row])[..|rows|] == rows;
  }

  lemma PrefixRow(rows: seq<Payment>, i: nat)
    requires i < |rows|
    ensures HistoryOf(rows[..i + 1]) == if rows[i].Closed? then HistoryOf(rows[..i]) + [rows[i].event] else HistoryOf(rows[..i])
    ensures PendingOf(rows[..i + 1]) == if rows[i].Open? then PendingOf(rows[..i]) + [rows[i].planned] else PendingOf(rows[..i])
  {
    assert rows[..i + 1] == rows[..i] + [rows[i]];
    OneMoreRow(rows[..i], rows[i]);
  }

  predicate InPlace(rows: seq<Payment>, history: seq<Event>, pending: seq<Planned>) {
    && |history| + |pending| == |rows|
    && (forall k :: 0 <= k < |history| ==> rows[k] == Closed(history[k]))
    && (forall k :: |history| <= k < |rows| ==> rows[k] == Open(pending[k - |history|]))
  }

  /** The position of every row among its own kind. */
  lemma {:induction false} Positions(rows: seq<Payment>)
    requires Sorted(rows)
    ensures InPlace(rows, HistoryOf(rows), PendingOf(rows))
  {
    if rows != [] {
      var init, last := rows[..|rows| - 1], rows[|rows| - 1];
      assert Sorted(init);
      Positions(init);
      assert init + [last] == rows;
      OneMoreRow(init, last);
      OneMoreInPlace(init, last, HistoryOf(init), PendingOf(init));
      hide *;
    }
  }

  lemma OneMoreInPlace(init: seq<Payment>, last: Payment, history: seq<Event>, pending: seq<Planned>)
    requires Sorted(init + [last]) && InPlace(init, history, pending)
    ensures InPlace(init + [last], if last.Closed? then history + [last.event] else history,
                    if last.Open? then pending + [last.planned] else pending)
  {
    if pending != [] {
      assert init[|init| - 1].Open?;
      assert (init + [last])[|init| - 1] == init[|init| - 1] && (init + [last])[|init|] == last;
    }
  }

  lemma {:induction false} Concatenated(a: seq<Payment>, b: seq<Payment>)
    ensures HistoryOf(a + b) == HistoryOf(a) + HistoryOf(b) && PendingOf(a + b) == PendingOf(a) + PendingOf(b)
    decreases |b|
  {
    hide HistoryOf, PendingOf;
    EmptyTable();
    if b == [] {
      assert a + b == a;
    } else {
      var init, last := b[..|b| - 1], b[|b| - 1];
      Concatenated(a, init);
      assert init + [last] == b;
      assert a + b == (a + init) + [last];
      OneMoreRow(a + init, last);
      OneMoreRow(init, last);
    }
  }

  lemma {:induction false} OneKind(rows: seq<Payment>)
    ensures (forall i :: 0 <= i < |rows| ==> rows[i].Closed?) ==> PendingOf(rows) == [] && |HistoryOf(rows)| == |rows|
    ensures (forall i :: 0 <= i < |rows| ==> rows[i].Open?) ==> HistoryOf(rows) == [] && |PendingOf(rows)| == |rows|
  {
    if rows != [] {
      OneKind(rows[..|rows| - 1]);
    }
  }

  /** The table split where the settled rows end. */
  lemma SplitTable(rows: seq<Payment>)
    requires Sorted(rows)
    ensures var h := |HistoryOf(rows)|;
            && h <= |rows| && rows == rows[..h] + rows[h..]
            && HistoryOf(rows[..h]) == HistoryOf(rows) && PendingOf(rows[..h]) == []
            && HistoryOf(rows[h..]) == [] && PendingOf(rows[h..]) == PendingOf(rows)
  {
    hide HistoryOf, PendingOf;
    var h := |HistoryOf(rows)|;
    Positions(rows);
    Concatenated(rows[..h], rows[h..]);
    OneKind(rows[..h]);
    OneKind(rows[h..]);
    assert rows == rows[..h] + rows[h..];
  }

  /** Settling the first pending row in place. */
  lemma SettleRow(rows: seq<Payment>, e: Event)
    requires Sorted(rows) && |HistoryOf(rows)| < |rows|
    ensures var after := rows[|HistoryOf(rows)| := Closed(e)];
            Sorted(after) && HistoryOf(after) == HistoryOf(rows) + [e] && PendingOf(rows) != [] && PendingOf(after) == PendingOf(rows)[1..]
  {
    hide HistoryOf, PendingOf;
    var h := |HistoryOf(rows)|;
    SplitTable(rows);
    Positions(rows);
    var after := rows[h := Closed(e)];
    SettledParts(rows[..h], rows[h], rows[h + 1..], e);
    assert after == rows[..h] + [Closed(e)] + rows[h + 1..];
    assert rows[h..] == [rows[h]] + rows[h + 1..];
  }

  lemma SettledParts(before: seq<Payment>, row: Payment, rest: seq<Payment>, e: Event)
    ensures HistoryOf(before + [Closed(e)] + rest) == HistoryOf(before) + [e] + HistoryOf(rest)
    ensures PendingOf(before + [Closed(e)] + rest) == PendingOf(before) + PendingOf(rest)
    ensures row.Open? ==> HistoryOf([row] + rest) == HistoryOf(rest) && PendingOf([row] + rest) == [row.planned] + PendingOf(rest)
  {
    hide HistoryOf, PendingOf;
    OneMoreRow(before, Closed(e));
    Concatenated(before + [Closed(e)], rest);
    Concatenated([row], rest);
    OneMoreRow([], row);
    EmptyTable();
    assert [] + [row] == [row];
    if row.Open? {
      assert [] + HistoryOf(rest) == HistoryOf(rest) && [] + [row.planned] == [row.planned];
    }
  }

  lemma EmptyTable()
    ensures HistoryOf([]) == [] && PendingOf([]) == [] && Sorted([])
  {
  }

  /** Deleting the last settled row. */
  lemma DropLastSettled(rows: seq<Payment>)
    requires Sorted(rows) && HistoryOf(rows) != []
    ensures var k := |HistoryOf(rows)| - 1;
            && k < |rows| && rows[k] == Closed(HistoryOf(rows)[k])
            && var after := rows[..k] + rows[k + 1..];
               Sorted(after) && HistoryOf(after) == HistoryOf(rows)[..k] && PendingOf(after) == PendingOf(rows)
  {
    hide HistoryOf, PendingOf;
    var k := |HistoryOf(rows)| - 1;
    SplitTable(rows);
    Positions(rows);
    assert rows[..k + 1] == rows[..k] + [rows[k]];
    OneMoreRow(rows[..k], rows[k]);
    Concatenated(rows[..k], rows[k + 1..]);
  }

  /** Ids tell rows apart. */
  lemma {:induction false} EventIds(t: Terms, h: seq<Event>, k: nat)
    requires t.rateBps >= 0 && Chronicle(t, h) && k < |h|
    ensures FindEvent(h, h[k].id) == Some(k) && h[k].id <= h[|h| - 1].id
  {
    hide Feasible, Numbered;
    if k < |h| - 1 {
      var init := h[..|h| - 1];
      EventIds(t, init, k);
      assert Follows(t, init, h[|h| - 1]);
      assert init[k] == h[k];
    }
  }

  lemma RowLookup(rows: seq<Payment>, d: Debt, k: nat)
    requires Sorted(rows) && Sound(d) && d.history == HistoryOf(rows) && d.pending == PendingOf(rows) && k < |rows|
    ensures rows[k].Closed? ==> k < |d.history| && d.history[k] == rows[k].event && FindEvent(d.history, RowId(rows[k])) == Some(k)
    ensures rows[k].Open? ==>
              && k >= |d.history| && FindEvent(d.history, RowId(rows[k])) == None && HasPlanned(d.pending, RowId(rows[k]))
              && forall j :: |d.history| <= j < |rows| ==> (RowId(rows[j]) == RowId(rows[k]) <==> j == k)
  {
    hide Projects, Feasible, SoundTerms, HistoryOf, PendingOf, Chronicle, FindEvent, Sorted;
    RateIsNatural(d.terms);
    Positions(rows);
    if rows[k].Closed? {
      EventIds(d.terms, d.history, k);
    } else {
      LaterIdIsNew(d.terms, d.history, RowId(rows[k]));
      assert d.pending[k - |d.history|] in d.pending;
    }
  }

  lemma {:induction false} NoSuchEvent(h: seq<Event>, id: Id)
    requires forall i :: 0 <= i < |h| ==> h[i].id != id
    ensures FindEvent(h, id) == None
  {
    if h != [] {
      NoSuchEvent(h[..|h| - 1], id);
    }
  }

  lemma NoSuchRow(rows: seq<Payment>, id: Id)
    requires Sorted(rows) && forall i :: 0 <= i < |rows| ==> RowId(rows[i]) != id
    ensures FindEvent(HistoryOf(rows), id) == None && !HasPlanned(PendingOf(rows), id)
  {
    hide HistoryOf, PendingOf, FindEvent;
    Positions(rows);
    var h, p := HistoryOf(rows), PendingOf(rows);
    forall i | 0 <= i < |h| ensures h[i].id != id { assert rows[i] == Closed(h[i]); }
    forall i | 0 <= i < |p| ensures p[i].id != id { assert rows[|h| + i] == Open(p[i]); }
    NoSuchEvent(h, id);
  }

  lemma NothingLatest()
    ensures HistoryOf([]) == [] && LatestDate([]) == None
  {
  }

  lemma LatestMore(h: seq<Event>, e: Event)
    ensures LatestDate(h + [e]) == if LatestDate(h).Some? && Before(e.on, LatestDate(h).value) then LatestDate(h) else Some(e.on)
  {
    assert (h + [e])[..|h|] == h;
  }

  lemma ScheduleIsNotEmpty(p: Terms)
    requires ValidTerms(p)
    ensures Schedule(p) != []
  {
    hide Installments, MonthlyInterest;
  }

  class Loans {
    const ledger: Store
    var terms: Terms
    var paidOff: bool
    var account: Id
    var description: string
    var payments: seq<Payment>
    var tick: nat

    function TheDebt(): Debt
      reads this
    {
      Debt(terms, paidOff, HistoryOf(payments), PendingOf(payments), tick)
    }

    function TheWorld(): World
      reads this, ledger
    {
      World(ledger.Tables(), TheDebt(), account, description)
    }

    ghost predicate Valid()
      reads this, ledger
    {
      Sorted(payments) && WorldSound(TheWorld())
    }

    /** An inserted loan, without rows yet. */
    constructor (ledger: Store, terms: Terms, account: Id, description: string)
      ensures this.ledger == ledger && TheDebt() == Debt(terms, false, [], [], 0) && payments == []
      ensures this.account == account && this.description == description
    {
      this.ledger, this.terms, this.account, this.description := ledger, terms, account, description;
      paidOff, payments, tick := false, [], 0;
    }

    /** Insert the loan and its schedule. */
    static method Create(ledger: Store, input: LoanInput) returns (r: Result<Loans>)
      requires ledger.Valid()
      ensures r.Ok? <==> CreateLoan(ledger.Tables(), input).Ok?
      ensures r.Err? ==> r.error == CreateLoan(ledger.Tables(), input).error
      ensures r.Ok? ==> fresh(r.value) && r.value.ledger == ledger && r.value.Valid() && r.value.TheWorld() == CreateLoan(ledger.Tables(), input).value
    {
      hide Consistent, WorldSound, Stored, Sorted, HistoryOf, PendingOf, ValidLoanAccount, CreateLoan;
      var checked := CheckLoan(ledger, input);
      if checked.Err? {
        return Err(checked.error);
      }
      CreateIsSound(ledger.Tables(), input);
      var loan := new Loans(ledger, input.terms, input.account, input.description);
      EmptyTable();
      loan.InsertSchedule(checked.value);
      assert [] + Stored(checked.value, 0) == Stored(checked.value, 0);
      r := Ok(loan);
    }

    /** The checks of a new loan, and its schedule. */
    static method CheckLoan(ledger: Store, input: LoanInput) returns (r: Result<seq<Row>>)
      ensures r.Ok? <==> CreateLoan(ledger.Tables(), input).Ok?
      ensures r.Err? ==> r.error == CreateLoan(ledger.Tables(), input).error
      ensures r.Ok? ==> CreateLoan(ledger.Tables(), input).value
                        == World(ledger.Tables(), Debt(input.terms, false, [], Stored(r.value, 0), |r.value|), input.account, input.description)
    {
      hide Schedule, IsBlank, Stored, ValidTerms, ValidLoanAccount;
      if IsBlank(input.description) || |input.description| > 500 || !ValidLoanDate(input.terms.start) || !ValidTerms(input.terms) {
        return Err(BadRequest);
      }
      var rows := BuildSchedule(input.terms);
      ScheduleIsNotEmpty(input.terms);
      if rows[0].due != input.terms.start || rows[|rows| - 1].remaining != 0 {
        return Err(BadRequest);
      }
      var valid := ValidLoanAccount(ledger.Tables(), input.account);
      if valid.Err? {
        return Err(valid.error);
      }
      r := Ok(rows);
    }

    // -------------------------------------------------------------- queries

    method TrackedRemaining() returns (remaining: int)
      ensures remaining == Remaining(TheDebt())
    {
      var repaid := 0;
      for i := 0 to |payments|
        invariant repaid == Repaid(HistoryOf(payments[..i]))
      {
        PrefixRow(payments, i);
        if payments[i].Closed? {
          RepaidMore(HistoryOf(payments[..i]), payments[i].event);
          repaid := repaid + payments[i].event.principal;
        }
      }
      assert payments[..|payments|] == payments;
      remaining := terms.principal - repaid;
    }

    method NextDueDate() returns (next: Option<Date>)
      ensures next == NextDue(PendingOf(payments))
    {
      hide HistoryOf, PendingOf, NextDue;
      EmptyTable();
      NothingDue();
      next := None;
      for i := 0 to |payments|
        invariant next == NextDue(PendingOf(payments[..i]))
      {
        PrefixRow(payments, i);
        if payments[i].Open? {
          var due := payments[i].planned.line.due;
          NextDueMore(PendingOf(payments[..i]), payments[i].planned);
          if next.None? || Before(due, next.value) {
            next := Some(due);
          }
        }
      }
      assert payments[..|payments|] == payments;
    }

    method MaxSequence() returns (number: nat)
      ensures number == LastNumber(HistoryOf(payments))
    {
      number := 0;
      for i := 0 to |payments|
        invariant number == LastNumber(HistoryOf(payments[..i]))
      {
        PrefixRow(payments, i);
        if payments[i].Closed? {
          RepaidMore(HistoryOf(payments[..i]), payments[i].event);
          if !payments[i].event.adjustment && payments[i].event.line.sequence > number {
            number := payments[i].event.line.sequence;
          }
        }
      }
      assert payments[..|payments|] == payments;
    }

    method LatestPaidAt() returns (latest: Option<Date>)
      ensures latest == LatestDate(HistoryOf(payments))
    {
      hide HistoryOf, PendingOf, Before, LatestDate;
      NothingLatest();
      latest := None;
      for i := 0 to |payments|
        invariant latest == LatestDate(HistoryOf(payments[..i]))
      {
        PrefixRow(payments, i);
        if payments[i].Closed? {
          LatestMore(HistoryOf(payments[..i]), payments[i].event);
          if latest.None? || !Before(payments[i].event.on, latest.value) {
            latest := Some(payments[i].event.on);
          }
        }
      }
      assert payments[..|payments|] == payments;
    }

    /** `validateLoanEventDate`. */
    method CheckEventDate(date: Date, extra: bool) returns (valid: bool)
      ensures valid == ValidEventDate(TheDebt(), date, extra)
    {
      var latest := LatestPaidAt();
      var next := NextDueDate();
      if latest.Some? && Before(date, latest.value) {
        return false;
      }
      if extra && next.Some? && Before(next.value, date) {
        return false;
      }
      valid := true;
    }

    // -------------------------------------------------------------- regeneration

    /** Delete the pending rows. */
    method DeletePending()
      modifies this`payments
      ensures HistoryOf(payments) == old(HistoryOf(payments)) && PendingOf(payments) == []
      ensures forall i :: 0 <= i < |payments| ==> payments[i].Closed?
    {
      hide HistoryOf, PendingOf;
      EmptyTable();
      var kept: seq<Payment> := [];
      for i := 0 to |payments|
        invariant payments == old(payments)
        invariant HistoryOf(kept) == HistoryOf(payments[..i]) && PendingOf(kept) == []
        invariant forall j :: 0 <= j < |kept| ==> kept[j].Closed?
      {
        PrefixRow(payments, i);
        if payments[i].Closed? {
          OneMoreRow(kept, payments[i]);
          kept := kept + [payments[i]];
        }
      }
      assert payments[..|payments|] == payments;
      payments := kept;
    }

    /** `insertLoanSchedule`. */
    method InsertSchedule(rows: seq<Row>)
      requires Sorted(payments)
      modifies this`payments, this`tick
      ensures Sorted(payments) && tick == old(tick) + |rows|
      ensures HistoryOf(payments) == old(HistoryOf(payments))
      ensures PendingOf(payments) == old(PendingOf(payments)) + Stored(rows, old(tick))
    {
      hide HistoryOf, PendingOf, Stored, LineOf;
      for i := 0 to |rows|
        invariant Sorted(payments) && tick == old(tick) + i
        invariant HistoryOf(payments) == old(HistoryOf(payments))
        invariant PendingOf(payments) == old(PendingOf(payments)) + Stored(rows, old(tick))[..i]
      {
        var row := Open(Planned(tick, LineOf(rows[i])));
        OneMoreRow(payments, row);
        assert Stored(rows, old(tick))[..i + 1] == Stored(rows, old(tick))[..i] + [row.planned];
        payments, tick := payments + [row], tick + 1;
      }
    }

    /** `regenerateLoanSchedule`. */
    method RegenerateSchedule(fallback: Option<Date>) returns (r: Result<()>)
      modifies this`payments, this`tick, this`paidOff
      ensures r == Answer(Regenerate(old(TheDebt()), fallback), ())
      ensures r.Ok? ==> Sorted(payments) && TheDebt() == Regenerate(old(TheDebt()), fallback).value
    {
      hide Schedule, AddMonthsRollover, Repaid, LastNumber, NextDue, Stored, HistoryOf, PendingOf, Renumbered;
      var remaining := TrackedRemaining();
      var next := NextDueDate();
      var maxSeq := MaxSequence();
      DeletePending();
      if remaining > 0 {
        var start := AddMonthsRollover(terms.start, maxSeq);
        if next.Some? {
          start := next.value;
        } else if fallback.Some? {
          start := fallback.value;
        }
        var rows := BuildSchedule(Terms(remaining, terms.rateBps, terms.payment, MAX_MONTHS, start, terms.day));
        if rows == [] || rows[|rows| - 1].remaining != 0 {
          return Err(LoanInvalid);
        }
        rows := Renumber(rows, maxSeq + 1);
        InsertSchedule(rows);
      }
      paidOff := remaining <= 0;
      r := Ok(());
    }

    // -------------------------------------------------------------- requests

    /** What the database does when a request returns an error. */
    method Rollback(saved: Books, savedPayments: seq<Payment>, savedTick: nat, savedPaidOff: bool)
      modifies this`payments, this`tick, this`paidOff, ledger
      ensures ledger.Tables() == saved && payments == savedPayments && tick == savedTick && paidOff == savedPaidOff
    {
      ledger.Rollback(saved);
      payments, tick, paidOff := savedPayments, savedTick, savedPaidOff;
    }

    method FindRow(id: Id) returns (k: Option<nat>)
      ensures k.Some? ==> k.value < |payments| && RowId(payments[k.value]) == id
      ensures k.None? ==> forall i :: 0 <= i < |payments| ==> RowId(payments[i]) != id
    {
      for i := 0 to |payments|
        invariant forall j :: 0 <= j < i ==> RowId(payments[j]) != id
      {
        if RowId(payments[i]) == id {
          return Some(i);
        }
      }
      k := None;
    }

    /** The pending row with the smallest number. */
    method NextPendingRow() returns (k: Option<nat>)
      requires Sorted(payments)
      ensures k.Some? <==> PendingOf(payments) != []
      ensures k.Some? ==> k.value == |HistoryOf(payments)| + NextPending(PendingOf(payments)) < |payments|
                          && payments[k.value] == Open(PendingOf(payments)[NextPending(PendingOf(payments))])
    {
      hide HistoryOf, PendingOf, NextPending;
      Positions(payments);
      var h := |HistoryOf(payments)|;
      k := None;
      for i := 0 to |payments|
        invariant i <= h ==> k.None?
        invariant i > h ==> k == Some(h + NextPending(PendingOf(payments)[..i - h]))
      {
        if payments[i].Open? {
          var p := PendingOf(payments);
          assert p[..i - h + 1] == p[..i - h] + [p[i - h]];
          NextPendingMore(p[..i - h], p[i - h]);
          if k.None? || payments[i].planned.line.sequence < payments[k.value].planned.line.sequence {
            k := Some(i);
          }
        }
      }
      assert PendingOf(payments)[..|payments| - h] == PendingOf(payments);
    }

    /** The row settled last. */
    method LatestRow() returns (k: Option<nat>)
      requires Sorted(payments)
      ensures k.Some? <==> HistoryOf(payments) != []
      ensures k.Some? ==> k.value == LatestEvent(HistoryOf(payments)) && k.value < |payments|
                          && payments[k.value] == Closed(HistoryOf(payments)[k.value])
    {
      hide HistoryOf, PendingOf, LatestEvent;
      Positions(payments);
      var h := HistoryOf(payments);
      k := None;
      for i := 0 to |payments|
        invariant k.Some? <==> 0 < i && 0 < |h|
        invariant k.Some? ==> k.value == LatestEvent(h[..if i < |h| then i else |h|])
      {
        if payments[i].Closed? {
          assert h[..i + 1] == h[..i] + [h[i]];
          LatestEventMore(h[..i], h[i]);
          if k.None? || payments[i].event.created >= payments[k.value].event.created {
            k := Some(i);
          }
        }
      }
      assert h[..|h|] == h;
    }

    /** Create the expense behind a payment and mark it as managed. */
    method BookExpense(t: Transaction) returns (r: Result<Id>)
      requires ledger.Valid()
      modifies ledger
      ensures ledger.Valid()
      ensures r == Answer(Book(old(TheWorld()), t), old(ledger.nextId))
      ensures ledger.Tables() == Committed(old(ledger.Tables()), Book(old(TheWorld()), t))
    {
      hide Consistent, Ledger.CreateTransaction;
      ghost var before := ledger.Tables();
      var valid := ValidLoanAccount(ledger.Tables(), account);
      if valid.Err? {
        return Err(valid.error);
      }
      if Perform(before, NewManaged(t, LoanPayment)).Ok? {
        PerformKeeps(before, NewManaged(t, LoanPayment));
      }
      r := ledger.CreateTransaction(t);
      if r.Ok? {
        ledger.managers := ledger.managers[r.value := LoanPayment];
      }
    }

    /** UPDATE the first pending row to a settled one. */
    method MarkSettled(k: nat, event: Event)
      requires Sorted(payments) && k == |HistoryOf(payments)| < |payments|
      modifies this`payments, this`tick
      ensures Sorted(payments) && old(PendingOf(payments)) != []
      ensures TheDebt() == FirstSettled(old(TheDebt()), event)
    {
      hide HistoryOf, PendingOf, Sorted;
      SettleRow(payments, event);
      payments, tick := payments[k := Closed(event)], tick + 1;
    }

    /** UPDATE the row, then rebuild the pending ones. */
    method MarkAndRegenerate(k: nat, event: Event) returns (r: Result<()>)
      requires Sorted(payments) && k == |HistoryOf(payments)| < |payments|
      modifies this`payments, this`tick, this`paidOff
      ensures old(PendingOf(payments)) != []
      ensures r == Answer(Regenerate(FirstSettled(old(TheDebt()), event), None), ())
      ensures r.Ok? ==> Sorted(payments) && TheDebt() == Regenerate(FirstSettled(old(TheDebt()), event), None).value
    {
      hide HistoryOf, PendingOf, Sorted, Regenerate;
      MarkSettled(k, event);
      r := RegenerateSchedule(None);
    }

    /** The part of a payment after its checks. */
    method SettleNext(k: nat, input: PayInput) returns (r: Result<()>)
      requires Valid() && k == |HistoryOf(payments)| < |payments|
      requires PendingOf(payments) != [] && payments[k] == Open(PendingOf(payments)[0])
      modifies this, ledger
      ensures Sorted(payments) && r == Answer(Settled(old(TheWorld()), input), ())
      ensures r.Ok? ==> TheWorld() == Settled(old(TheWorld()), input).value
      ensures r.Err? ==> TheWorld() == old(TheWorld())
    {
      hide WorldSound, Consistent, HistoryOf, PendingOf, Regenerate, Book, Sorted, Repaid, InstallmentLabel, Settle, SettleInstallment, PayExpense, FirstSettled, Expensed;
      var saved, savedPayments, savedTick, savedPaidOff := ledger.Tables(), payments, tick, paidOff;
      var w, row := TheWorld(), payments[k].planned;
      WorldParts(w);
      var (total, principal, interest) := Settle(row.line, input);
      var expense := Expensed(w, total, input.category, input.date, InstallmentLabel(w, row.line.sequence));
      PayExpenseOf(w, input);
      var booked := BookExpense(expense);
      if booked.Err? {
        return Err(booked.error);
      }
      var event := Event(row.id, row.line, false, principal, Some(interest), total, Some(booked.value), input.date, tick);
      SettledForm(w.debt, input, booked.value);
      var regenerated := MarkAndRegenerate(k, event);
      if regenerated.Err? {
        Rollback(saved, savedPayments, savedTick, savedPaidOff);
        return Err(regenerated.error);
      }
      r := Ok(());
    }

    /** Settle one installment. */
    method Pay(id: Id, input: PayInput) returns (r: Result<()>)
      requires Valid()
      modifies this, ledger
      ensures Valid()
      ensures TheWorld() == Committed(old(TheWorld()), LoanLedger.Pay(old(TheWorld()), id, input))
      ensures r == Answer(LoanLedger.Pay(old(TheWorld()), id, input), ())
    {
      hide WorldSound, Consistent, Sound, HistoryOf, PendingOf, Regenerate, Book, ValidPayInput, ValidEventDate, ValidSplit, SameSettlement,
           InstallmentLabel, FindEvent, HasPlanned, NextPending, Sorted, Repaid;
      ghost var before := TheWorld();
      if LoanLedger.Pay(before, id, input).Ok? {
        PayKeeps(before, id, input);
      }
      if !ValidPayInput(input) {
        return Err(BadRequest);
      }
      var found := FindRow(id);
      if found.None? {
        NoSuchRow(payments, id);
        return Err(NotFound);
      }
      var k := found.value;
      WorldParts(before);
      RowLookup(payments, before.debt, k);
      if payments[k].Closed? {
        if !payments[k].event.adjustment && SameSettlement(payments[k].event, input) {
          return Ok(());
        }
        return Err(LoanInvalid);
      }
      var line := payments[k].planned.line;
      var next := NextPendingRow();
      if next != Some(k) {
        return Err(LoanInvalid);
      }
      var dated := CheckEventDate(input.date, false);
      if !dated {
        return Err(LoanInvalid);
      }
      var remaining := TrackedRemaining();
      if !ValidSplit(line, input, remaining) {
        return Err(LoanInvalid);
      }
      PendingIsNew(before.debt);
      r := SettleNext(k, input);
    }

    /** INSERT a settled row, then rebuild the pending ones. */
    method InsertAndRegenerate(event: Event) returns (r: Result<()>)
      requires Sorted(payments)
      modifies this`payments, this`tick, this`paidOff
      ensures r == Answer(Regenerate(Appended(old(TheDebt()), event), None), ())
      ensures r.Ok? ==> Sorted(payments) && TheDebt() == Regenerate(Appended(old(TheDebt()), event), None).value
    {
      hide HistoryOf, PendingOf, Regenerate;
      OneMoreRow(payments, Closed(event));
      payments, tick := payments + [Closed(event)], tick + 1;
      r := RegenerateSchedule(None);
    }

    method AddExtraPayment(amount: int, date: Date, category: Option<Id>) returns (r: Result<()>)
      requires Valid()
      modifies this, ledger
      ensures Valid()
      ensures TheWorld() == Committed(old(TheWorld()), LoanLedger.AddExtraPayment(old(TheWorld()), amount, date, category))
      ensures r == Answer(LoanLedger.AddExtraPayment(old(TheWorld()), amount, date, category), ())
    {
      hide WorldSound, Consistent, HistoryOf, PendingOf, Regenerate, Book, Sorted, Repaid, ValidEventDate, ExtraGuard, Appended, SettleExtra, Expensed;
      ghost var before := TheWorld();
      ExtraIsAccepted(before, amount, date, category);
      if !ValidLoanDate(date) || amount <= 0 || amount > MAX_AMOUNT {
        return Err(BadRequest);
      }
      if paidOff {
        return Err(LoanInvalid);
      }
      var dated := CheckEventDate(date, true);
      var remaining := TrackedRemaining();
      if !dated || amount > remaining {
        return Err(LoanInvalid);
      }
      WorldParts(before);
      var saved, savedPayments, savedTick, savedPaidOff := ledger.Tables(), payments, tick, paidOff;
      var booked := BookExpense(Expensed(TheWorld(), amount, category, date, description + " — aportación a capital"));
      if booked.Err? {
        return Err(booked.error);
      }
      ExtraForm(before.debt, amount, date, booked.value);
      var settled := InsertAndRegenerate(Event(tick, Line(0, date, amount, 0, amount), false, amount, None, amount, Some(booked.value), date, tick));
      if settled.Err? {
        Rollback(saved, savedPayments, savedTick, savedPaidOff);
        return Err(settled.error);
      }
      r := Ok(());
    }

    method Reconcile(actual: int, date: Date) returns (r: Result<()>)
      requires Valid()
      modifies this, ledger
      ensures Valid()
      ensures TheWorld() == Committed(old(TheWorld()), LoanLedger.Reconcile(old(TheWorld()), actual, date))
      ensures r == Answer(LoanLedger.Reconcile(old(TheWorld()), actual, date), ())
    {
      hide WorldSound, Consistent, HistoryOf, PendingOf, Regenerate, Sorted, Repaid, ValidEventDate, Appended, SettleAdjustment, Feasible;
      ghost var before := TheWorld();
      ReconcileIsAccepted(before, actual, date);
      if !ValidLoanDate(date) || actual < 0 || actual > MAX_AMOUNT {
        return Err(BadRequest);
      }
      var dated := CheckEventDate(date, false);
      if !dated {
        return Err(LoanInvalid);
      }
      var tracked := TrackedRemaining();
      var delta := tracked - actual;
      if delta == 0 {
        return Ok(());
      }
      AdjustmentForm(before.debt, delta, date);
      var saved, savedPayments, savedTick, savedPaidOff := ledger.Tables(), payments, tick, paidOff;
      var settled := InsertAndRegenerate(Event(tick, Line(-1, date, 0, 0, 0), true, delta, None, 0, None, date, tick));
      if settled.Err? {
        Rollback(saved, savedPayments, savedTick, savedPaidOff);
        return Err(settled.error);
      }
      r := Ok(());
    }

    /** Delete the expense behind an event. */
    method DeleteExpense(event: Event) returns (r: Result<()>)
      requires ledger.Valid()
      modifies ledger
      ensures r == Answer(Unbook(old(ledger.Tables()), event), ())
      ensures r.Ok? ==> ledger.Tables() == Unbook(old(ledger.Tables()), event).value
      ensures r.Err? ==> event.transaction.Some?
    {
      hide Remove;
      if event.transaction.None? {
        return Ok(());
      }
      if event.transaction.value !in ledger.managers {
        return Err(NotFound);
      }
      r := ledger.RemoveTransaction(event.transaction.value);
    }

    /** Delete the last settled row; an installment becomes pending again in place of the projection. */
    method RestoreRow(k: nat)
      requires Sorted(payments) && HistoryOf(payments) != [] && k == |HistoryOf(payments)| - 1
      modifies this`payments, this`tick
      ensures Sorted(payments) && TheDebt() == Unsettle(old(TheDebt()), k)
    {
      hide HistoryOf, PendingOf;
      DropLastSettled(payments);
      assert Without(HistoryOf(payments), k) == HistoryOf(payments)[..k];
      var event := payments[k].event;
      payments := payments[..k] + payments[k + 1..];
      if event.line.sequence > 0 {
        DeletePending();
        var row := Open(Planned(tick, event.line));
        OneMoreRow(payments, row);
        assert [] + [row.planned] == [row.planned];
        payments, tick := payments + [row], tick + 1;
      }
    }

    /** Undo the latest event. */
    method Undo(id: Id) returns (r: Result<()>)
      requires Valid()
      modifies this, ledger
      ensures Valid()
      ensures TheWorld() == Committed(old(TheWorld()), LoanLedger.Undo(old(TheWorld()), id))
      ensures r == Answer(LoanLedger.Undo(old(TheWorld()), id), ())
    {
      hide WorldSound, Consistent, Sound, HistoryOf, PendingOf, Regenerate, Sorted, Unbook, Unsettle, FindEvent, HasPlanned, LatestEvent;
      ghost var before := TheWorld();
      if LoanLedger.Undo(before, id).Ok? {
        UndoKeeps(before, id);
      }
      WorldParts(before);
      var found := FindRow(id);
      if found.None? {
        NoSuchRow(payments, id);
        return Err(NotFound);
      }
      var k := found.value;
      RowLookup(payments, before.debt, k);
      var latest := LatestRow();
      if latest.None? {
        return Err(NotFound);
      }
      if latest != Some(k) {
        return Err(LoanInvalid);
      }
      LastOfSound(before.debt);
      r := UndoRow(k);
    }

    /** The part of an undo after its checks. */
    method UndoRow(k: nat) returns (r: Result<()>)
      requires Valid() && HistoryOf(payments) != [] && k == |HistoryOf(payments)| - 1
      modifies this, ledger
      ensures Sorted(payments) && r == Answer(Undone(old(TheWorld())), ())
      ensures r.Ok? ==> TheWorld() == Undone(old(TheWorld())).value
      ensures r.Err? ==> TheWorld() == old(TheWorld())
    {
      hide WorldSound, Consistent, Sound, HistoryOf, PendingOf, Regenerate, Sorted, Unbook, Unsettle;
      WorldParts(TheWorld());
      DropLastSettled(payments);
      var saved, savedPayments, savedTick, savedPaidOff := ledger.Tables(), payments, tick, paidOff;
      var event := payments[k].event;
      var unbooked := DeleteExpense(event);
      if unbooked.Err? {
        Rollback(saved, savedPayments, savedTick, savedPaidOff);
        return Err(unbooked.error);
      }
      RestoreRow(k);
      var regenerated := RegenerateSchedule(Some(event.line.due));
      if regenerated.Err? {
        Rollback(saved, savedPayments, savedTick, savedPaidOff);
        return Err(regenerated.error);
      }
      r := Ok(());
    }

    /** Labels and the payment account; financial terms stay as they are. */
    method Update(newAccount: Option<Id>, newDescription: Option<string>) returns (r: Result<()>)
      requires Valid()
      modifies this`account, this`description
      ensures Valid()
      ensures TheWorld() == Committed(old(TheWorld()), UpdateLoan(old(TheWorld()), newAccount, newDescription))
      ensures r == Answer(UpdateLoan(old(TheWorld()), newAccount, newDescription), ())
    {
      hide Consistent, Sound, AllBacked, ValidLoanAccount, IsBlank;
      if newDescription.Some? && (IsBlank(newDescription.value) || |newDescription.value| > 500) {
        return Err(BadRequest);
      }
      var chosen := Or(newAccount, account);
      var valid := ValidLoanAccount(ledger.Tables(), chosen);
      if valid.Err? {
        return Err(valid.error);
      }
      account := chosen;
      if newDescription.Some? {
        description := newDescription.value;
      }
      r := Ok(());
    }
  }

  /** Inserting a settled row. */
  function Appended(d: Debt, event: Event): Debt {
    d.(history := d.history + [event], tick := d.tick + 1)
  }

  lemma ExtraForm(d: Debt, amount: int, date: Date, transaction: Id)
    ensures SettleExtra(d, amount, date, transaction)
            == Appended(d, Event(d.tick, Line(0, date, amount, 0, amount), false, amount, None, amount, Some(transaction), date, d.tick))
  {
  }

  lemma AdjustmentForm(d: Debt, delta: int, date: Date)
    ensures SettleAdjustment(d, delta, date) == Appended(d, Event(d.tick, Line(-1, date, 0, 0, 0), true, delta, None, 0, None, date, d.tick))
  {
  }

  /** Take back the last event. */
  function Undone(w: World): Result<World>
    requires w.debt.history != []
  {
    var last := |w.debt.history| - 1;
    var event := w.debt.history[last];
    var books :- Unbook(w.books, event);
    var debt :- Regenerate(Unsettle(w.debt, last), Some(event.line.due));
    Ok(w.(books := books, debt := debt))
  }

  lemma LastOfSound(d: Debt)
    requires Sound(d) && d.history != []
    ensures LatestEvent(d.history) == |d.history| - 1
  {
    hide Follows, Projects, Feasible, Closes;
    LatestIsLast(d.terms, d.history);
  }

  function RowId(row: Payment): Id {
    if row.Open? then row.planned.id else row.event.id
  }

  lemma LatestEventMore(h: seq<Event>, e: Event)
    ensures h == [] ==> LatestEvent(h + [e]) == 0
    ensures h != [] ==> LatestEvent(h + [e]) == if e.created >= h[LatestEvent(h)].created then |h| else LatestEvent(h)
  {
    assert (h + [e])[..|h|] == h;
  }

  /** Book an installment and settle the first pending row. */
  function Settled(w: World, input: PayInput): Result<World>
    requires w.debt.pending != []
  {
    var booked :- Book(w, PayExpense(w, input));
    var debt :- Regenerate(SettleInstallment(w.debt, 0, input, w.books.nextId), None);
    Ok(w.(books := booked, debt := debt))
  }

  lemma PayExpenseOf(w: World, input: PayInput)
    requires w.debt.pending != []
    ensures var line := w.debt.pending[0].line;
            PayExpense(w, input) == Expensed(w, Settle(line, input).0, input.category, input.date, InstallmentLabel(w, line.sequence))
  {
  }

  /** The first pending row has become this event. */
  function FirstSettled(d: Debt, event: Event): Debt {
    d.(history := d.history + [event], pending := if d.pending == [] then [] else d.pending[1..], tick := d.tick + 1)
  }

  lemma SettledForm(d: Debt, input: PayInput, transaction: Id)
    requires d.pending != []
    ensures var row := d.pending[0];
            var (total, principal, interest) := Settle(row.line, input);
            SettleInstallment(d, 0, input, transaction)
            == FirstSettled(d, Event(row.id, row.line, false, principal, Some(interest), total, Some(transaction), input.date, d.tick))
  {
    assert Without(d.pending, 0) == d.pending[1..];
  }

  lemma WorldParts(w: World)
    requires WorldSound(w)
    ensures Sound(w.debt) && Consistent(w.books)
  {
    hide Sound, Consistent;
  }

  lemma NothingDue()
    ensures NextDue([]) == None
  {
  }

  lemma NextDueMore(p: seq<Planned>, row: Planned)
    ensures NextDue(p + [row])
         == if NextDue(p).None? || Before(row.line.due, NextDue(p).value) then Some(row.line.due) else NextDue(p)
  {
    assert (p + [row])[..|p|] == p;
  }

  lemma NextPendingMore(p: seq<Planned>, row: Planned)
    ensures p == [] ==> NextPending(p + [row]) == 0
    ensures p != [] ==> NextPending(p + [row]) == if row.line.sequence < p[NextPending(p)].line.sequence then |p| else NextPending(p)
  {
    assert (p + [row])[..|p|] == p;
  }
}
