/** The amortization engine: a rounding loop with a residual rule, and the splice of two schedules that
    an extra principal payment causes. Amounts are cents, rates basis points a year. */
module Amortization {
  import opened Calendar

  const MAX_AMOUNT := 1_000_000_000_000
  const MAX_RATE_BPS := 100_000
  const MAX_MONTHS := 600
  const RESIDUAL_CENTS := 100

  /** What stays fixed from one installment to the next. */
  datatype Plan = Plan(rateBps: nat, payment: int, day: int)

  datatype Terms = Terms(principal: int, rateBps: int, payment: int, months: int, start: Date, day: int) {
    function FixedPart(): Plan
      requires rateBps >= 0
    {
      Plan(rateBps, payment, day)
    }
  }

  datatype Row = Row(sequence: int, due: Date, principal: int, interest: int, total: int, remaining: int)

  /** Interest of one month, rounded to the nearest cent. */
  function MonthlyInterest(balance: int, rateBps: nat): (interest: int)
  {
    if balance <= 0 then 0 else (balance * rateBps + 60000) / 120000
  }

  predicate ValidTerms(p: Terms) {
    && 0 < p.principal <= MAX_AMOUNT
    && 0 <= p.rateBps <= MAX_RATE_BPS
    && 1 <= p.months <= MAX_MONTHS
    && 0 < p.payment <= MAX_AMOUNT
    && 1 <= p.day <= 31
    && p.start != ZERO_TIME
    && p.payment > MonthlyInterest(p.principal, p.rateBps)
  }

  /** Principal repaid by the next installment; the last one absorbs a residual of up to one unit. */
  function PrincipalDue(plan: Plan, balance: int): int {
    var principal := plan.payment - MonthlyInterest(balance, plan.rateBps);
    if principal > balance || balance - principal <= RESIDUAL_CENTS then balance else principal
  }

  function NextBalance(plan: Plan, balance: int): int {
    balance - PrincipalDue(plan, balance)
  }

  function RowAt(plan: Plan, balance: int, sequence: int, monthIndex: int): Row {
    var principal, interest := PrincipalDue(plan, balance), MonthlyInterest(balance, plan.rateBps);
    Row(sequence, InMonth(monthIndex, plan.day), principal, interest, principal + interest, balance - principal)
  }

  /** The rows still to come from a balance, at most `months` of them. */
  function Installments(plan: Plan, balance: int, months: int, sequence: int, monthIndex: int): (rows: seq<Row>)
    ensures months > 0 ==> 0 < |rows| <= months
    decreases months
  {
    if months <= 0 then []
    else
      var row := RowAt(plan, balance, sequence, monthIndex);
      [row] + (if row.remaining <= 0 then []
               else Installments(plan, row.remaining, months - 1, sequence + 1, monthIndex + 1))
  }

  function Schedule(p: Terms): seq<Row> {
    if !ValidTerms(p) then [] else Installments(p.FixedPart(), p.principal, p.months, 1, p.start.MonthIndex())
  }

  /** The balance reaches zero within the given number of installments. */
  predicate Closes(plan: Plan, balance: int, months: int)
    decreases months
  {
    balance <= 0 || (months > 0 && Closes(plan, NextBalance(plan, balance), months - 1))
  }

  function TotalInterest(rows: seq<Row>): int {
    if rows == [] then 0 else rows[0].interest + TotalInterest(rows[1..])
  }

  function TotalPrincipal(rows: seq<Row>): int {
    if rows == [] then 0 else rows[0].principal + TotalPrincipal(rows[1..])
  }

  function PayoffDate(rows: seq<Row>): Date {
    if rows == [] then ZERO_TIME else rows[|rows| - 1].due
  }

  // ---------------------------------------------------------------- the rounded step

  lemma ProductMonotone(low: int, high: int, factor: int)
    requires low <= high && 0 <= factor
    ensures low * factor <= high * factor
  {
  }

  lemma InterestMonotone(low: int, high: int, rateBps: nat)
    requires low <= high
    ensures 0 <= MonthlyInterest(low, rateBps) <= MonthlyInterest(high, rateBps)
  {
    if low > 0 {
      ProductMonotone(low, high, rateBps);
    }
  }

  /** The rounded step, residual rule included, preserves the order of balances. */
  lemma StepMonotone(plan: Plan, low: int, high: int)
    requires 0 <= low <= high
    ensures 0 <= NextBalance(plan, low) <= NextBalance(plan, high)
  {
    InterestMonotone(low, high, plan.rateBps);
  }

  /** While the payment exceeds the interest the balance strictly falls, so every installment repays principal. */
  lemma StepRepays(plan: Plan, balance: int)
    requires balance > 0 && plan.payment > MonthlyInterest(balance, plan.rateBps)
    ensures 0 <= NextBalance(plan, balance) < balance
    ensures 0 < PrincipalDue(plan, balance) <= balance
    ensures plan.payment > MonthlyInterest(NextBalance(plan, balance), plan.rateBps)
  {
    InterestMonotone(NextBalance(plan, balance), balance, plan.rateBps);
  }

  /** Prepaying x cents now lowers the balance after the next installment by at least x, unless it closes. */
  lemma StepContracts(plan: Plan, balance: int, x: int)
    requires 0 <= x <= balance
    ensures NextBalance(plan, balance - x) <= (if NextBalance(plan, balance) > x then NextBalance(plan, balance) - x else 0)
  {
    InterestMonotone(balance - x, balance, plan.rateBps);
  }

  /** Interest is a twelfth of the yearly rate, rounded to the nearest cent (a half goes up), and what is divided for it
      stays inside a signed 64-bit word for every balance the engine accepts. */
  lemma NoOverflow(balance: int, rateBps: int)
    requires 0 <= balance <= MAX_AMOUNT && 0 <= rateBps <= MAX_RATE_BPS
    ensures 0 <= balance * rateBps + 60000 < 0x7FFF_FFFF_FFFF_FFFF
    ensures -60000 < 120000 * MonthlyInterest(balance, rateBps) - balance * rateBps <= 60000
  {
    ProductMonotone(0, balance, rateBps);
    ProductMonotone(balance, MAX_AMOUNT, rateBps);
  }

  // ---------------------------------------------------------------- schedules

  /** A schedule is its first row followed by the schedule of what that row leaves. */
  lemma PeelRow(plan: Plan, balance: int, months: int, sequence: int, monthIndex: int)
    requires months > 0
    ensures var row := RowAt(plan, balance, sequence, monthIndex);
            Installments(plan, balance, months, sequence, monthIndex)
            == [row] + (if row.remaining <= 0 then []
                        else Installments(plan, row.remaining, months - 1, sequence + 1, monthIndex + 1))
  {
    hide RowAt;
  }

  lemma NoMonthsLeft(plan: Plan, balance: int, months: int, sequence: int, monthIndex: int)
    requires months <= 0
    ensures Installments(plan, balance, months, sequence, monthIndex) == []
  {
  }

  lemma RowLeavesNextBalance(plan: Plan, balance: int, sequence: int, monthIndex: int)
    ensures RowAt(plan, balance, sequence, monthIndex).remaining == NextBalance(plan, balance)
    ensures RowAt(plan, balance, sequence, monthIndex).due.MonthIndex() == monthIndex
  {
  }

  lemma {:induction false} ClosesMonotone(plan: Plan, low: int, high: int, months: int, more: int)
    requires low <= high && months <= more
    requires Closes(plan, high, months)
    ensures Closes(plan, low, more)
    decreases months
  {
    if low > 0 {
      StepMonotone(plan, low, high);
      ClosesMonotone(plan, NextBalance(plan, low), NextBalance(plan, high), months - 1, more - 1);
    }
  }

  /** A schedule ends at zero exactly when its balance closes within its months. */
  lemma {:induction false} ScheduleEndsAtZero(plan: Plan, balance: int, months: int, sequence: int, monthIndex: int)
    requires balance > 0 && months > 0
    ensures var rows := Installments(plan, balance, months, sequence, monthIndex);
            (rows[|rows| - 1].remaining == 0 <==> Closes(plan, balance, months))
            && rows[|rows| - 1].remaining >= 0
    decreases months
  {
    hide Installments, InMonth, MonthlyInterest, PrincipalDue, NextBalance, RowAt;
    StepMonotone(plan, balance, balance);
    PeelRow(plan, balance, months, sequence, monthIndex);
    RowLeavesNextBalance(plan, balance, sequence, monthIndex);
    var next := NextBalance(plan, balance);
    if next > 0 && months == 1 {
      NoMonthsLeft(plan, next, 0, sequence + 1, monthIndex + 1);
    } else if next > 0 {
      ScheduleEndsAtZero(plan, next, months - 1, sequence + 1, monthIndex + 1);
    }
  }

  /** Once a schedule closes, allowing it more months changes nothing. */
  lemma {:induction false} ClosedScheduleIsStable(plan: Plan, balance: int, months: int, more: int, sequence: int, monthIndex: int)
    requires balance > 0 && 0 < months <= more
    requires Closes(plan, balance, months)
    ensures Installments(plan, balance, months, sequence, monthIndex) == Installments(plan, balance, more, sequence, monthIndex)
    decreases months
  {
    StepMonotone(plan, balance, balance);
    if NextBalance(plan, balance) > 0 {
      ClosedScheduleIsStable(plan, NextBalance(plan, balance), months - 1, more - 1, sequence + 1, monthIndex + 1);
    }
  }

  function BalanceBefore(balance: int, rows: seq<Row>, k: nat): int
    requires k <= |rows|
  {
    if k == 0 then balance else rows[k - 1].remaining
  }

  /** The tail of a schedule is the schedule of the balance it starts from. */
  lemma {:induction false} TailIsSchedule(plan: Plan, balance: int, months: int, sequence: int, monthIndex: int, k: nat)
    requires balance > 0
    requires k < |Installments(plan, balance, months, sequence, monthIndex)|
    ensures var rows := Installments(plan, balance, months, sequence, monthIndex);
            BalanceBefore(balance, rows, k) > 0
            && rows[k..] == Installments(plan, BalanceBefore(balance, rows, k), months - k, sequence + k, monthIndex + k)
    decreases k
  {
    hide RowAt, NextBalance, Installments;
    var rows := Installments(plan, balance, months, sequence, monthIndex);
    if k > 0 {
      if months <= 0 {
        NoMonthsLeft(plan, balance, months, sequence, monthIndex);
      }
      PeelRow(plan, balance, months, sequence, monthIndex);
      var next := rows[0].remaining;
      var rest := Installments(plan, next, months - 1, sequence + 1, monthIndex + 1);
      TailIsSchedule(plan, next, months - 1, sequence + 1, monthIndex + 1, k - 1);
      assert rows[k..] == rest[k - 1..];
      assert BalanceBefore(balance, rows, k) == BalanceBefore(next, rest, k - 1);
    }
  }

  /** Row k is numbered, dated and split as its own balance demands. */
  lemma RowOfSchedule(plan: Plan, balance: int, months: int, sequence: int, monthIndex: int, k: nat)
    requires balance > 0
    requires k < |Installments(plan, balance, months, sequence, monthIndex)|
    ensures var rows := Installments(plan, balance, months, sequence, monthIndex);
            rows[k] == RowAt(plan, BalanceBefore(balance, rows, k), sequence + k, monthIndex + k)
  {
    TailIsSchedule(plan, balance, months, sequence, monthIndex, k);
    var rows := Installments(plan, balance, months, sequence, monthIndex);
    assert rows[k] == rows[k..][0];
  }

  /** Conservation: repaid principal and what is left add up to the balance. */
  lemma {:induction false} PrincipalConserved(plan: Plan, balance: int, months: int, sequence: int, monthIndex: int)
    requires months > 0
    ensures var rows := Installments(plan, balance, months, sequence, monthIndex);
            TotalPrincipal(rows) + rows[|rows| - 1].remaining == balance
    decreases months
  {
    var rows := Installments(plan, balance, months, sequence, monthIndex);
    var next := NextBalance(plan, balance);
    if next > 0 && months > 1 {
      PrincipalConserved(plan, next, months - 1, sequence + 1, monthIndex + 1);
      assert rows[1..] == Installments(plan, next, months - 1, sequence + 1, monthIndex + 1);
    }
  }

  /** A smaller balance never takes more installments nor more interest. */
  lemma {:induction false} SmallerBalanceIsCheaper(plan: Plan, low: int, high: int, months: int, sequence: int, monthIndex: int)
    requires 0 < low <= high
    ensures var cheap, dear := Installments(plan, low, months, sequence, monthIndex), Installments(plan, high, months, sequence, monthIndex);
            |cheap| <= |dear|
            && TotalInterest(cheap) <= TotalInterest(dear)
            && (forall i :: 0 <= i < |cheap| ==> cheap[i].due == dear[i].due && cheap[i].sequence == dear[i].sequence)
    decreases months
  {
    hide MonthlyInterest, InMonth, PrincipalDue;
    if months > 0 {
      InterestMonotone(low, high, plan.rateBps);
      StepMonotone(plan, low, high);
      PeelRow(plan, low, months, sequence, monthIndex);
      PeelRow(plan, high, months, sequence, monthIndex);
      var next := NextBalance(plan, low);
      if next > 0 {
        SmallerBalanceIsCheaper(plan, next, NextBalance(plan, high), months - 1, sequence + 1, monthIndex + 1);
      } else {
        InterestIsNonNegative(plan, NextBalance(plan, high), months - 1, sequence + 1, monthIndex + 1);
      }
    }
  }

  lemma {:induction false} InterestIsNonNegative(plan: Plan, balance: int, months: int, sequence: int, monthIndex: int)
    ensures TotalInterest(Installments(plan, balance, months, sequence, monthIndex)) >= 0
    decreases months
  {
    if months > 0 {
      InterestMonotone(balance, balance, plan.rateBps);
      var rows := Installments(plan, balance, months, sequence, monthIndex);
      if rows[0].remaining > 0 {
        InterestIsNonNegative(plan, rows[0].remaining, months - 1, sequence + 1, monthIndex + 1);
        assert rows[1..] == Installments(plan, rows[0].remaining, months - 1, sequence + 1, monthIndex + 1);
      } else {
        assert rows[1..] == [];
      }
    }
  }

  lemma {:induction false} TotalsSplit(a: seq<Row>, b: seq<Row>)
    ensures TotalInterest(a + b) == TotalInterest(a) + TotalInterest(b)
    ensures TotalPrincipal(a + b) == TotalPrincipal(a) + TotalPrincipal(b)
    decreases |a|
  {
    if a == [] {
      assert a + b == b;
    } else {
      assert (a + b)[1..] == a[1..] + b;
      TotalsSplit(a[1..], b);
    }
  }

  /** No later row starts from a larger balance. */
  lemma {:induction false} BalancesFall(plan: Plan, balance: int, months: int, sequence: int, monthIndex: int, k: nat)
    requires balance > 0 && plan.payment > MonthlyInterest(balance, plan.rateBps)
    requires k < |Installments(plan, balance, months, sequence, monthIndex)|
    ensures 0 < BalanceBefore(balance, Installments(plan, balance, months, sequence, monthIndex), k) <= balance
    decreases k
  {
    hide RowAt, NextBalance, Installments, MonthlyInterest;
    if months <= 0 {
      NoMonthsLeft(plan, balance, months, sequence, monthIndex);
    }
    PeelRow(plan, balance, months, sequence, monthIndex);
    if k > 0 {
      StepRepays(plan, balance);
      RowLeavesNextBalance(plan, balance, sequence, monthIndex);
      var rest := Installments(plan, NextBalance(plan, balance), months - 1, sequence + 1, monthIndex + 1);
      BalancesFall(plan, NextBalance(plan, balance), months - 1, sequence + 1, monthIndex + 1, k - 1);
      assert BalanceBefore(balance, Installments(plan, balance, months, sequence, monthIndex), k)
          == BalanceBefore(NextBalance(plan, balance), rest, k - 1);
    }
  }

  // ---------------------------------------------------------------- what a schedule says

  /** There is a schedule exactly for terms in these ranges whose payment exceeds the first month's interest. */
  lemma TermsAreAccepted(p: Terms)
    ensures Schedule(p) != []
      <==> && 0 < p.principal <= 1_000_000_000_000 && 0 < p.payment <= 1_000_000_000_000
           && 0 <= p.rateBps <= 100_000 && 1 <= p.months <= 600 && 1 <= p.day <= 31
           && !(p.start.year == 1 && p.start.month == 1 && p.start.day == 1)
           && 120000 * p.payment > p.principal * p.rateBps + 60000
  {
    hide Installments;
  }

  lemma SplitOfRow(plan: Plan, before: int, sequence: int, monthIndex: int)
    requires before > 0 && plan.payment > MonthlyInterest(before, plan.rateBps)
    ensures var row := RowAt(plan, before, sequence, monthIndex);
            && row.sequence == sequence && row.due == InMonth(monthIndex, plan.day)
            && -60000 < 120000 * row.interest - before * plan.rateBps <= 60000
            && row.principal + row.interest == row.total
            && row.remaining == before - row.principal
            && 0 < row.principal
            && (row.remaining == 0 <==> before - (plan.payment - row.interest) <= 100)
            && (row.remaining != 0 ==> row.remaining > 100 && row.total == plan.payment)
  {
    hide InMonth;
  }

  /** Every row, from the terms and the columns alone. Interest is a twelfth of the yearly rate on the balance before the
      row, to the nearest cent; principal and interest make the total; the row is due in its month, on the agreed day
      or, where the month lacks it, the last. The total is the agreed payment unless the row closes the debt, and
      the row closes it exactly when the payment would leave at most 100 cents. */
  lemma RowsAreDue(p: Terms, k: nat)
    requires k < |Schedule(p)|
    ensures var rows := Schedule(p);
            var row, before := rows[k], if k == 0 then p.principal else rows[k - 1].remaining;
            && row.sequence == k + 1
            && 12 * row.due.year + row.due.month == 12 * p.start.year + p.start.month + k
            && row.due.day <= p.day && (row.due.day < p.day ==> NextDay(row.due).day == 1)
            && before > 0
            && -60000 < 120000 * row.interest - before * p.rateBps <= 60000
            && row.principal + row.interest == row.total
            && row.remaining == before - row.principal
            && 0 < row.principal
            && (row.remaining == 0 <==> before - (p.payment - row.interest) <= 100)
            && (row.remaining != 0 ==> row.remaining > 100 && row.total == p.payment)
            && (k + 1 < |rows| <==> row.remaining != 0 && k + 1 < p.months)
  {
    hide Installments, InMonth, NextDay, Closes, RowAt, MonthlyInterest;
    var plan, first := p.FixedPart(), p.start.MonthIndex();
    var rows := Schedule(p);
    var before := BalanceBefore(p.principal, rows, k);
    BalancesFall(plan, p.principal, p.months, 1, first, k);
    InterestMonotone(before, p.principal, plan.rateBps);
    TailIsSchedule(plan, p.principal, p.months, 1, first, k);
    PeelRow(plan, before, p.months - k, 1 + k, first + k);
    var row := RowAt(plan, before, 1 + k, first + k);
    SplitOfRow(plan, before, 1 + k, first + k);
    ClampedToLastDay(first + k, plan.day);
    assert rows[k..][0] == row;
    if row.remaining > 0 && k + 1 < p.months {
      assert |Installments(plan, row.remaining, p.months - k - 1, k + 2, first + k + 1)| > 0;
    } else {
      NoMonthsLeft(plan, row.remaining, 0, k + 2, first + k + 1);
    }
  }

  // ---------------------------------------------------------------- building a schedule

  /** The loop of the engine computes the recursive schedule. */
  method BuildSchedule(p: Terms) returns (rows: seq<Row>)
    ensures rows == Schedule(p)
  {
    hide InMonth, MonthlyInterest, Installments;
    rows := [];
    if !ValidTerms(p) {
      return;
    }
    ghost var plan, first := p.FixedPart(), p.start.MonthIndex();
    ghost var ahead := Installments(plan, p.principal, p.months, 1, first);
    var balance := p.principal;
    var seqNo := 1;
    while seqNo <= p.months
      invariant 1 <= seqNo <= p.months + 1
      invariant ahead == Installments(plan, balance, p.months - seqNo + 1, seqNo, first + seqNo - 1)
      invariant Schedule(p) == rows + ahead
    {
      PeelRow(plan, balance, p.months - seqNo + 1, seqNo, first + seqNo - 1);
      var interest := MonthlyInterest(balance, p.rateBps);
      var principal := p.payment - interest;
      if principal > balance || balance - principal <= RESIDUAL_CENTS {
        principal := balance;
      }
      var total := principal + interest;
      balance := balance - principal;
      var row := Row(seqNo, InMonth(p.start.MonthIndex() + seqNo - 1, p.day), principal, interest, total, balance);
      assert ahead[0] == row;
      rows, ahead := rows + [row], ahead[1..];
      if balance <= 0 {
        break;
      }
      seqNo := seqNo + 1;
    }
    NoMonthsLeft(plan, balance, 0, seqNo, first + seqNo - 1);
  }

  method SumInterest(rows: seq<Row>) returns (sum: int)
    ensures sum == TotalInterest(rows)
  {
    sum := 0;
    for i := 0 to |rows|
      invariant sum + TotalInterest(rows[i..]) == TotalInterest(rows)
    {
      assert rows[i..][1..] == rows[i + 1..];
      sum := sum + rows[i].interest;
    }
  }
}
