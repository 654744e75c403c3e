/** The simulation of an extra payment on a loan (`calculate`, backend/internal/httpapi/loans.go): the engine is given
    what the loan still owes and as many months as rows are pending. */
module LoanSimulation {
  import opened Amortization
  import opened Calendar
  import opened ExtraPayment
  import opened LoanLaws
  import opened LoanLedger

  function SimulationTerms(d: Debt): Terms
    requires d.pending != []
  {
    Terms(Remaining(d), d.terms.rateBps, d.terms.payment, |d.pending|, d.pending[0].line.due, d.terms.day)
  }

  /** A closing schedule closes within the number of its own rows. */
  lemma {:induction false} ClosesInItsRows(plan: Plan, balance: int, months: int, sequence: int, monthIndex: int)
    requires balance > 0 && months > 0 && Closes(plan, balance, months)
    ensures Closes(plan, balance, |Installments(plan, balance, months, sequence, monthIndex)|)
    decreases months
  {
    hide Installments, PrincipalDue, InMonth;
    PeelRow(plan, balance, months, sequence, monthIndex);
    RowLeavesNextBalance(plan, balance, sequence, monthIndex);
    var next := NextBalance(plan, balance);
    if next > 0 {
      ClosesInItsRows(plan, next, months - 1, sequence + 1, monthIndex + 1);
    }
  }

  /** The baseline of a simulation is the loan's own pending schedule, numbered from 1. */
  lemma BaselineIsPending(d: Debt)
    requires Sound(d) && d.pending != []
    ensures var p := SimulationTerms(d);
            ValidTerms(p) && p.start.year >= 2000 && Shows(d.pending, Renumbered(Schedule(p), LastNumber(d.history) + 1))
  {
    hide Installments, Closes, MonthlyInterest, InMonth, Chronicle, Repaid, LastNumber, Renumbered;
    NextOfSound(d);
    var plan, due, number := d.terms.FixedPart(), d.pending[0].line.due, LastNumber(d.history) + 1;
    var rows := Canonical(d, due.MonthIndex());
    ClosesInItsRows(plan, Remaining(d), MAX_MONTHS, number, due.MonthIndex());
    ClosedScheduleIsStable(plan, Remaining(d), |rows|, MAX_MONTHS, number, due.MonthIndex());
    RenumberedSchedule(plan, Remaining(d), |rows|, 1, number, due.MonthIndex());
  }

  /** Whatever amount and date the route accepts for a loan in a reachable state: the simulated rows, the extra and what
      stays unpaid add up to what the loan owes, and the savings are measured against the loan's pending rows and are
      not negative. */
  lemma SimulationAddsUp(d: Debt, amount: int, date: Date)
    requires Sound(d) && d.pending != [] && amount >= 0
    ensures var p := SimulationTerms(d);
            var r := WithExtra(p, amount, date);
            && TotalPrincipal(r.schedule) + r.extra + Unpaid(p, amount, date) == Remaining(d)
            && 0 <= r.monthsSaved == |d.pending| - |r.schedule| && 0 <= r.interestSaved
            && forall i :: 0 <= i < |r.schedule| ==> r.schedule[i].due == d.pending[i].line.due
  {
    hide Schedule, WithExtra, Unpaid, TotalPrincipal, TotalInterest, Chronicle, Feasible, Projects, SoundTerms, Repaid, LastNumber;
    BaselineIsPending(d);
    var p := SimulationTerms(d);
    AcceptedExtraConserves(p, amount, date);
    ExtraPaymentNeverCosts(p, amount, date);
  }
}
