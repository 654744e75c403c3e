/** What an additional principal payment does to a schedule: rows due strictly before its date are kept, the
    balance drops, and the rest is rebuilt with the same payment. */
module ExtraPayment {
  import opened Calendar
  import opened Amortization

  datatype Outcome = Outcome(extra: int, appliedOn: Date, interestSaved: int, monthsSaved: int, payoff: Date, schedule: seq<Row>)

  /** Leading rows due strictly before the date. */
  function KeptRows(rows: seq<Row>, date: Date): (k: nat)
    ensures k <= |rows|
    ensures forall i :: 0 <= i < k ==> Before(rows[i].due, date)
    ensures k < |rows| ==> !Before(rows[k].due, date)
  {
    if rows == [] || !Before(rows[0].due, date) then 0 else 1 + KeptRows(rows[1..], date)
  }

  function Renumbered(rows: seq<Row>, first: int): (renumbered: seq<Row>)
    ensures |renumbered| == |rows|
  {
    seq(|rows|, i requires 0 <= i < |rows| => rows[i].(sequence := first + i))
  }

  function Finish(extra: int, date: Date, baseline: seq<Row>, actual: seq<Row>): Outcome {
    var saved := TotalInterest(baseline) - TotalInterest(actual);
    Outcome(extra, date, if saved < 0 then 0 else saved, |baseline| - |actual|, PayoffDate(actual), actual)
  }

  function RestTerms(p: Terms, balance: int, kept: nat, anchor: Date): Terms {
    Terms(balance, p.rateBps, p.payment, p.months - kept, anchor, p.day)
  }

  function BalanceAt(p: Terms, date: Date): int {
    BalanceBefore(p.principal, Schedule(p), KeptRows(Schedule(p), date))
  }

  function WithExtra(p: Terms, extra: int, date: Date): Outcome {
    var baseline := Schedule(p);
    var k := KeptRows(baseline, date);
    var balance := BalanceAt(p, date);
    if baseline == [] || Before(PayoffDate(baseline), date) then
      Outcome(0, ZERO_TIME, 0, 0, PayoffDate(baseline), baseline)
    else if extra <= 0 then
      Outcome(extra, date, 0, 0, PayoffDate(baseline), baseline)
    else if extra >= balance then
      Finish(balance, date, baseline, baseline[..k]).(payoff := date)
    else
      var rest := Schedule(RestTerms(p, balance - extra, k, baseline[k].due));
      Finish(extra, date, baseline, baseline[..k] + Renumbered(rest, k + 1))
  }

  method ApplyExtraPayment(p: Terms, extraCents: int, extraDate: Date) returns (result: Outcome)
    ensures result == WithExtra(p, extraCents, extraDate)
  {
    hide InMonth, MonthlyInterest, Installments, Schedule, TotalInterest, Renumbered;
    var baseline := BuildSchedule(p);
    if |baseline| == 0 || Before(PayoffDate(baseline), extraDate) {
      return Outcome(0, ZERO_TIME, 0, 0, PayoffDate(baseline), baseline);
    }
    if extraCents <= 0 {
      return Outcome(extraCents, extraDate, 0, 0, PayoffDate(baseline), baseline);
    }
    var extra := extraCents;
    var kept: seq<Row> := [];
    var balance := p.principal;
    var anchor := extraDate;
    for i := 0 to |baseline|
      invariant kept == baseline[..i]
      invariant balance == BalanceBefore(p.principal, baseline, i)
      invariant extra == extraCents && anchor == extraDate
      invariant KeptRows(baseline, extraDate) == i + KeptRows(baseline[i..], extraDate)
    {
      var row := baseline[i];
      assert baseline[i..][0] == row && baseline[i..][1..] == baseline[i + 1..];
      if Before(row.due, extraDate) {
        kept := kept + [row];
        balance := row.remaining;
        continue;
      }
      anchor := row.due;
      if extra > balance {
        extra := balance;
      }
      balance := balance - extra;
      break;
    }
    if balance <= 0 {
      result := FinishResult(extra, extraDate, baseline, kept);
      result := result.(payoff := extraDate, monthsSaved := |baseline| - |kept|);
      return;
    }
    var rest := BuildSchedule(RestTerms(p, balance, |kept|, anchor));
    rest := Renumber(rest, |kept| + 1);
    result := FinishResult(extra, extraDate, baseline, kept + rest);
  }

  method Renumber(rows: seq<Row>, nextSeq: int) returns (rest: seq<Row>)
    ensures rest == Renumbered(rows, nextSeq)
  {
    rest := rows;
    for i := 0 to |rest|
      invariant |rest| == |rows|
      invariant forall j :: 0 <= j < |rows| ==> rest[j] == if j < i then rows[j].(sequence := nextSeq + j) else rows[j]
    {
      rest := rest[i := rest[i].(sequence := nextSeq + i)];
    }
  }

  method FinishResult(extra: int, date: Date, baseline: seq<Row>, actual: seq<Row>) returns (result: Outcome)
    ensures result == Finish(extra, date, baseline, actual)
  {
    var baseInterest := SumInterest(baseline);
    var actualInterest := SumInterest(actual);
    var saved := baseInterest - actualInterest;
    if saved < 0 {
      saved := 0;
    }
    result := Outcome(extra, date, saved, |baseline| - |actual|, PayoffDate(actual), actual);
  }

  // ---------------------------------------------------------------- one recursive view of the splice

  /** A schedule that prepays x cents after its first k installments. */
  function Prepaid(plan: Plan, balance: int, months: int, sequence: int, monthIndex: int, k: nat, x: int): seq<Row>
    decreases k
  {
    if k == 0 then (if x >= balance then [] else Installments(plan, balance - x, months, sequence, monthIndex))
    else
      var row := RowAt(plan, balance, sequence, monthIndex);
      [row] + Prepaid(plan, row.remaining, months - 1, sequence + 1, monthIndex + 1, k - 1, x)
  }

  /** Renumbering a schedule is building it with another first number. */
  lemma {:induction false} RenumberedSchedule(plan: Plan, balance: int, months: int, from: int, to: int, monthIndex: int)
    ensures Renumbered(Installments(plan, balance, months, from, monthIndex), to) == Installments(plan, balance, months, to, monthIndex)
    decreases months
  {
    hide Installments, NextBalance, PrincipalDue, MonthlyInterest, InMonth;
    if months <= 0 {
      NoMonthsLeft(plan, balance, months, from, monthIndex);
      NoMonthsLeft(plan, balance, months, to, monthIndex);
    } else {
      PeelRow(plan, balance, months, from, monthIndex);
      PeelRow(plan, balance, months, to, monthIndex);
      var next := RowAt(plan, balance, from, monthIndex).remaining;
      if next > 0 {
        RenumberedSchedule(plan, next, months - 1, from + 1, to + 1, monthIndex + 1);
      }
    }
  }

  /** Keeping k rows and rebuilding the tail is prepaying after k rows. */
  lemma {:induction false} SpliceIsPrepaid(plan: Plan, balance: int, months: int, sequence: int, monthIndex: int, k: nat, x: int)
    requires balance > 0 && k < |Installments(plan, balance, months, sequence, monthIndex)|
    ensures var rows := Installments(plan, balance, months, sequence, monthIndex);
            var at := BalanceBefore(balance, rows, k);
            Prepaid(plan, balance, months, sequence, monthIndex, k, x)
            == rows[..k] + (if x >= at then [] else Installments(plan, at - x, months - k, sequence + k, monthIndex + k))
    decreases k
  {
    hide RowAt, NextBalance, Installments;
    if months <= 0 {
      NoMonthsLeft(plan, balance, months, sequence, monthIndex);
    }
    PeelRow(plan, balance, months, sequence, monthIndex);
    if k > 0 {
      var rows := Installments(plan, balance, months, sequence, monthIndex);
      var next := rows[0].remaining;
      var rest := Installments(plan, next, months - 1, sequence + 1, monthIndex + 1);
      SpliceIsPrepaid(plan, next, months - 1, sequence + 1, monthIndex + 1, k - 1, x);
      assert BalanceBefore(balance, rows, k) == BalanceBefore(next, rest, k - 1);
      assert rows[..k] == [rows[0]] + rest[..k - 1];
    }
  }

  predicate NotLonger(short: seq<Row>, long: seq<Row>) {
    && |short| <= |long|
    && forall i :: 0 <= i < |short| ==> short[i].due == long[i].due && short[i].sequence == long[i].sequence
  }

  /** Prepaying never lengthens a schedule and never adds interest. */
  lemma {:induction false} PrepaidIsCheaper(plan: Plan, balance: int, months: int, sequence: int, monthIndex: int, k: nat, x: int)
    requires balance > 0 && x >= 0 && k < |Installments(plan, balance, months, sequence, monthIndex)|
    ensures var paid, rows := Prepaid(plan, balance, months, sequence, monthIndex, k, x), Installments(plan, balance, months, sequence, monthIndex);
            NotLonger(paid, rows) && TotalInterest(paid) <= TotalInterest(rows)
    decreases k
  {
    hide RowAt, NextBalance, Installments;
    if k == 0 {
      if x >= balance {
        InterestIsNonNegative(plan, balance, months, sequence, monthIndex);
      } else {
        SmallerBalanceIsCheaper(plan, balance - x, balance, months, sequence, monthIndex);
      }
    } else {
      if months <= 0 {
        NoMonthsLeft(plan, balance, months, sequence, monthIndex);
      }
      PeelRow(plan, balance, months, sequence, monthIndex);
      var next := RowAt(plan, balance, sequence, monthIndex).remaining;
      PrepaidIsCheaper(plan, next, months - 1, sequence + 1, monthIndex + 1, k - 1, x);
    }
  }

  /** Prepaying more never lengthens the schedule nor adds interest. */
  lemma {:induction false} PrepayingMoreIsCheaper(plan: Plan, balance: int, months: int, sequence: int, monthIndex: int, k: nat, x: int, y: int)
    requires balance > 0 && 0 <= x <= y && k < |Installments(plan, balance, months, sequence, monthIndex)|
    ensures var less, more := Prepaid(plan, balance, months, sequence, monthIndex, k, x), Prepaid(plan, balance, months, sequence, monthIndex, k, y);
            |more| <= |less| && TotalInterest(more) <= TotalInterest(less)
    decreases k
  {
    hide RowAt, NextBalance, Installments;
    if k == 0 {
      if x < balance {
        InterestIsNonNegative(plan, balance - x, months, sequence, monthIndex);
        if y < balance {
          SmallerBalanceIsCheaper(plan, balance - y, balance - x, months, sequence, monthIndex);
        }
      }
    } else {
      if months <= 0 {
        NoMonthsLeft(plan, balance, months, sequence, monthIndex);
      }
      PeelRow(plan, balance, months, sequence, monthIndex);
      PrepayingMoreIsCheaper(plan, RowAt(plan, balance, sequence, monthIndex).remaining, months - 1, sequence + 1, monthIndex + 1, k - 1, x, y);
    }
  }

  /** Prepaying one installment earlier never lengthens the schedule nor adds interest. */
  lemma {:induction false} PrepayingEarlierIsCheaper(plan: Plan, balance: int, months: int, sequence: int, monthIndex: int, k: nat, x: int)
    requires balance > 0 && x >= 0 && k + 1 < |Installments(plan, balance, months, sequence, monthIndex)|
    ensures var early, late := Prepaid(plan, balance, months, sequence, monthIndex, k, x), Prepaid(plan, balance, months, sequence, monthIndex, k + 1, x);
            |early| <= |late| && TotalInterest(early) <= TotalInterest(late)
    decreases k
  {
    hide RowAt, NextBalance, Installments, MonthlyInterest;
    if months <= 0 {
      NoMonthsLeft(plan, balance, months, sequence, monthIndex);
    }
    PeelRow(plan, balance, months, sequence, monthIndex);
    RowLeavesNextBalance(plan, balance, sequence, monthIndex);
    var next := NextBalance(plan, balance);
    if k > 0 {
      PrepayingEarlierIsCheaper(plan, next, months - 1, sequence + 1, monthIndex + 1, k - 1, x);
    } else {
      PrepaidFirstRows(plan, balance, months, sequence, monthIndex, x);
    }
  }

  /** The base case: before the first installment against after it. */
  lemma PrepaidFirstRows(plan: Plan, balance: int, months: int, sequence: int, monthIndex: int, x: int)
    requires balance > 0 && x >= 0 && months > 0 && NextBalance(plan, balance) > 0
    ensures var early, late := Prepaid(plan, balance, months, sequence, monthIndex, 0, x), Prepaid(plan, balance, months, sequence, monthIndex, 1, x);
            |early| <= |late| && TotalInterest(early) <= TotalInterest(late)
  {
    hide NextBalance, Installments, MonthlyInterest, InMonth;
    var next := NextBalance(plan, balance);
    RowLeavesNextBalance(plan, balance, sequence, monthIndex);
    var late0 := Prepaid(plan, next, months - 1, sequence + 1, monthIndex + 1, 0, x);
    if x < next {
      InterestIsNonNegative(plan, next - x, months - 1, sequence + 1, monthIndex + 1);
    }
    InterestMonotone(balance, balance, plan.rateBps);
    assert Prepaid(plan, balance, months, sequence, monthIndex, 1, x) == [RowAt(plan, balance, sequence, monthIndex)] + late0;
    assert TotalInterest(Prepaid(plan, balance, months, sequence, monthIndex, 1, x)) == MonthlyInterest(balance, plan.rateBps) + TotalInterest(late0);
    if x < balance {
      InterestMonotone(balance - x, balance, plan.rateBps);
      StepContracts(plan, balance, x);
      PeelRow(plan, balance - x, months, sequence, monthIndex);
      RowLeavesNextBalance(plan, balance - x, sequence, monthIndex);
      var sooner := NextBalance(plan, balance - x);
      if sooner > 0 {
        SmallerBalanceIsCheaper(plan, sooner, next - x, months - 1, sequence + 1, monthIndex + 1);
      }
    }
  }

  /** Repaid principal, the prepayment and what is left add up to the balance. */
  lemma {:induction false} PrepaidConserves(plan: Plan, balance: int, months: int, sequence: int, monthIndex: int, k: nat, x: int)
    requires balance > 0 && k < |Installments(plan, balance, months, sequence, monthIndex)|
    ensures var rows := Installments(plan, balance, months, sequence, monthIndex);
            var at := BalanceBefore(balance, rows, k);
            var paid := Prepaid(plan, balance, months, sequence, monthIndex, k, x);
            if x >= at then TotalPrincipal(paid) + at == balance
            else paid != [] && TotalPrincipal(paid) + x + paid[|paid| - 1].remaining == balance
    decreases k
  {
    hide NextBalance, Installments, MonthlyInterest, InMonth, PrincipalDue;
    if months <= 0 {
      NoMonthsLeft(plan, balance, months, sequence, monthIndex);
    }
    PeelRow(plan, balance, months, sequence, monthIndex);
    var rows := Installments(plan, balance, months, sequence, monthIndex);
    if k == 0 {
      if x < balance {
        PrincipalConserved(plan, balance - x, months, sequence, monthIndex);
        PeelRow(plan, balance - x, months, sequence, monthIndex);
      }
    } else {
      var next := RowAt(plan, balance, sequence, monthIndex).remaining;
      var rest := Installments(plan, next, months - 1, sequence + 1, monthIndex + 1);
      PrepaidConserves(plan, next, months - 1, sequence + 1, monthIndex + 1, k - 1, x);
      assert BalanceBefore(balance, rows, k) == BalanceBefore(next, rest, k - 1);
    }
  }

  // ---------------------------------------------------------------- the theorems

  /** The schedule an effective extra payment produces, when the anchor of the rest is not Go's zero time. */
  lemma OutcomeIsPrepaid(p: Terms, extra: int, date: Date)
    requires ValidTerms(p) && extra > 0 && !Before(PayoffDate(Schedule(p)), date)
    ensures var k := KeptRows(Schedule(p), date);
            k < |Schedule(p)|
            && 0 < BalanceAt(p, date) <= p.principal
            && (extra >= BalanceAt(p, date) || Schedule(p)[k].due != ZERO_TIME ==>
                  WithExtra(p, extra, date).schedule == Prepaid(p.FixedPart(), p.principal, p.months, 1, p.start.MonthIndex(), k, extra))
  {
    hide Installments, NextBalance, PrincipalDue, MonthlyInterest, InMonth, Prepaid, Renumbered;
    var plan, first := p.FixedPart(), p.start.MonthIndex();
    var rows, k := Schedule(p), KeptRows(Schedule(p), date);
    assert |rows| > 0;
    BalancesFall(plan, p.principal, p.months, 1, first, k);
    SpliceIsPrepaid(plan, p.principal, p.months, 1, first, k, extra);
    RowOfSchedule(plan, p.principal, p.months, 1, first, k);
    RowLeavesNextBalance(plan, BalanceAt(p, date), 1 + k, first + k);
    var balance := BalanceAt(p, date) - extra;
    if balance > 0 {
      InterestMonotone(balance, p.principal, p.rateBps);
      RenumberedSchedule(plan, balance, p.months - k, 1, k + 1, first + k);
    } else {
      assert rows[..k] + [] == rows[..k];
    }
  }

  /** An anchor on Go's zero time makes the engine drop the rest of the schedule. */
  lemma UndatedRestIsDropped(p: Terms, extra: int, date: Date)
    requires ValidTerms(p) && !Before(PayoffDate(Schedule(p)), date)
    requires 0 < extra < BalanceAt(p, date)
    requires KeptRows(Schedule(p), date) < |Schedule(p)| && Schedule(p)[KeptRows(Schedule(p), date)].due == ZERO_TIME
    ensures WithExtra(p, extra, date).schedule == Schedule(p)[..KeptRows(Schedule(p), date)]
  {
    hide Installments, MonthlyInterest, InMonth, TotalInterest;
    var k := KeptRows(Schedule(p), date);
    assert Schedule(p)[..k] + Renumbered([], k + 1) == Schedule(p)[..k];
  }

  /** If the rest cannot be built only the kept rows remain, a prefix of the baseline. */
  lemma {:induction false} PrefixIsCheaper(rows: seq<Row>, k: nat)
    requires k <= |rows|
    requires TotalInterest(rows[k..]) >= 0
    ensures NotLonger(rows[..k], rows) && TotalInterest(rows[..k]) <= TotalInterest(rows)
  {
    TotalsSplit(rows[..k], rows[k..]);
    assert rows[..k] + rows[k..] == rows;
  }

  lemma {:induction false} SequencesFromOne(plan: Plan, balance: int, months: int, sequence: int, monthIndex: int)
    ensures var rows := Installments(plan, balance, months, sequence, monthIndex);
            forall i :: 0 <= i < |rows| ==> rows[i].sequence == sequence + i
    decreases months
  {
    hide Installments, NextBalance, PrincipalDue, MonthlyInterest, InMonth;
    if months <= 0 {
      NoMonthsLeft(plan, balance, months, sequence, monthIndex);
    } else {
      PeelRow(plan, balance, months, sequence, monthIndex);
      var next := RowAt(plan, balance, sequence, monthIndex).remaining;
      if next > 0 {
        SequencesFromOne(plan, next, months - 1, sequence + 1, monthIndex + 1);
      }
    }
  }

  /** An extra payment never costs money, whatever the terms, amount and date: no installment is added, no
      interest is added (so the clamp at zero never fires), the due dates are the first ones of the baseline
      and the rows are numbered from one. */
  lemma ExtraPaymentNeverCosts(p: Terms, extra: int, date: Date)
    ensures var baseline, r := Schedule(p), WithExtra(p, extra, date);
            && r.monthsSaved == |baseline| - |r.schedule|
            && r.interestSaved == TotalInterest(baseline) - TotalInterest(r.schedule)
            && 0 <= r.monthsSaved && 0 <= r.interestSaved
            && NotLonger(r.schedule, baseline)
            && (forall i :: 0 <= i < |r.schedule| ==> r.schedule[i].sequence == i + 1)
  {
    hide Installments, Prepaid, MonthlyInterest, InMonth, TotalInterest, Renumbered;
    var baseline := Schedule(p);
    if ValidTerms(p) {
      var plan, first := p.FixedPart(), p.start.MonthIndex();
      SequencesFromOne(plan, p.principal, p.months, 1, first);
      if extra > 0 && !Before(PayoffDate(baseline), date) {
        OutcomeIsPrepaid(p, extra, date);
        var k := KeptRows(baseline, date);
        if extra >= BalanceAt(p, date) || baseline[k].due != ZERO_TIME {
          PrepaidIsCheaper(plan, p.principal, p.months, 1, first, k, extra);
        } else {
          TailIsSchedule(plan, p.principal, p.months, 1, first, k);
          InterestIsNonNegative(plan, BalanceAt(p, date), p.months - k, 1 + k, first + k);
          PrefixIsCheaper(baseline, k);
          UndatedRestIsDropped(p, extra, date);
        }
      }
    }
  }

  /** Principal still owed at the end of an outcome. */
  function Unpaid(p: Terms, extra: int, date: Date): int {
    var r := WithExtra(p, extra, date);
    if Schedule(p) != [] && !Before(PayoffDate(Schedule(p)), date) && 0 < extra && extra >= BalanceAt(p, date) then 0
    else if r.schedule == [] then p.principal
    else r.schedule[|r.schedule| - 1].remaining
  }

  /** What a caller can check beforehand: the extra is not negative, and the installment it precedes is not
      due on 1 January of year 1, which the engine takes for a missing start date. */
  predicate Prepayable(p: Terms, extra: int, date: Date)
  {
    || Before(PayoffDate(Schedule(p)), date)
    || extra == 0
    || (extra > 0 && (extra >= BalanceAt(p, date)
                      || (KeptRows(Schedule(p), date) < |Schedule(p)| && Schedule(p)[KeptRows(Schedule(p), date)].due != ZERO_TIME)))
  }

  /** The balance an effective extra payment is made against, and what it leaves to repay. */
  lemma EffectiveExtraConserves(p: Terms, extra: int, date: Date)
    requires ValidTerms(p) && extra > 0 && !Before(PayoffDate(Schedule(p)), date)
    ensures var r := WithExtra(p, extra, date);
            TotalPrincipal(r.schedule) + r.extra + Unpaid(p, extra, date) == p.principal <==> Prepayable(p, extra, date)
  {
    hide Installments, Prepaid, MonthlyInterest, InMonth, TotalInterest, TotalPrincipal, Renumbered, NextBalance, PrincipalDue, RowAt, NextDay;
    var plan, first := p.FixedPart(), p.start.MonthIndex();
    var k := KeptRows(Schedule(p), date);
    OutcomeIsPrepaid(p, extra, date);
    if extra >= BalanceAt(p, date) || Schedule(p)[k].due != ZERO_TIME {
      PrepaidConserves(plan, p.principal, p.months, 1, first, k, extra);
    } else {
      KeptPrincipal(plan, p.principal, p.months, 1, first, k);
      UndatedRestIsDropped(p, extra, date);
    }
  }

  /** Conservation: scheduled principal, the applied extra and what stays unpaid add up to the principal,
      exactly when the payment is prepayable. */
  lemma ExtraPaymentConserves(p: Terms, extra: int, date: Date)
    requires ValidTerms(p)
    ensures var r := WithExtra(p, extra, date);
            TotalPrincipal(r.schedule) + r.extra + Unpaid(p, extra, date) == p.principal <==> Prepayable(p, extra, date)
  {
    hide Installments, TotalPrincipal;
    if extra > 0 && !Before(PayoffDate(Schedule(p)), date) {
      EffectiveExtraConserves(p, extra, date);
    } else {
      hide MonthlyInterest, TotalInterest, Renumbered;
      PrincipalConserved(p.FixedPart(), p.principal, p.months, 1, p.start.MonthIndex());
    }
  }

  /** The simulation route takes no negative amount, and no loan it serves has a due date before the year 2000. For
      all it accepts conservation is unconditional. */
  lemma AcceptedExtraConserves(p: Terms, extra: int, date: Date)
    requires ValidTerms(p) && p.start.year >= 2000 && extra >= 0
    ensures var r := WithExtra(p, extra, date);
            TotalPrincipal(r.schedule) + r.extra + Unpaid(p, extra, date) == p.principal
  {
    hide Installments, MonthlyInterest, InMonth, TotalInterest, TotalPrincipal, Renumbered, Prepaid;
    ExtraPaymentConserves(p, extra, date);
    if extra > 0 && !Before(PayoffDate(Schedule(p)), date) {
      OutcomeIsPrepaid(p, extra, date);
      AnchorIsDated(p, KeptRows(Schedule(p), date));
    }
  }

  lemma AnchorIsDated(p: Terms, k: nat)
    requires ValidTerms(p) && p.start.MonthIndex() > ZERO_TIME.MonthIndex() && k < |Schedule(p)|
    ensures Schedule(p)[k].due.MonthIndex() == p.start.MonthIndex() + k
    ensures Schedule(p)[k].due != ZERO_TIME
  {
    hide Installments, NextBalance, PrincipalDue, MonthlyInterest, InMonth;
    var plan, first := p.FixedPart(), p.start.MonthIndex();
    RowOfSchedule(plan, p.principal, p.months, 1, first, k);
    RowLeavesNextBalance(plan, BalanceBefore(p.principal, Schedule(p), k), 1 + k, first + k);
  }

  /** The engine alone takes more: a negative extra is reported as applied, and before an installment due on 1 January
      of year 1 the rest of the schedule is lost. Neither adds up to the principal. */
  lemma UnacceptedExtrasAreNotConserved()
    ensures exists p: Terms, extra: int, date: Date :: extra < 0 && NotConserved(p, extra, date)
    ensures exists p: Terms, extra: int, date: Date :: extra > 0 && NotConserved(p, extra, date)
  {
    hide Installments, MonthlyInterest, InMonth, TotalInterest, TotalPrincipal, WithExtra, Unpaid;
    var today := CivilDate(2026, 1, 15);
    var recent := Terms(10000, 0, 5000, 2, today, 15);
    FreeLoan(recent);
    ExtraPaymentConserves(recent, -1, today);
    assert NotConserved(recent, -1, today);
    var ancient := Terms(10000, 0, 5000, 2, CivilDate(1, 1, 15), 1);
    FreeLoan(ancient);
    FirstIsKept(ancient, ZERO_TIME);
    ExtraPaymentConserves(ancient, 1, ZERO_TIME);
    assert NotConserved(ancient, 1, ZERO_TIME);
  }

  predicate NotConserved(p: Terms, extra: int, date: Date) {
    var r := WithExtra(p, extra, date);
    ValidTerms(p) && TotalPrincipal(r.schedule) + r.extra + Unpaid(p, extra, date) != p.principal
  }

  /** A loan without interest, in two equal installments. */
  lemma FreeLoan(p: Terms)
    requires p.principal == 10000 && p.rateBps == 0 && p.payment == 5000 && p.months == 2 && 1 <= p.day <= 28 && p.start != ZERO_TIME
    ensures ValidTerms(p) && |Schedule(p)| == 2
    ensures Schedule(p)[0].due == InMonth(p.start.MonthIndex(), p.day) && Schedule(p)[0].remaining == 5000
    ensures Schedule(p)[1].due == InMonth(p.start.MonthIndex() + 1, p.day)
    ensures p.start.day >= p.day ==> !Before(PayoffDate(Schedule(p)), p.start)
    ensures !Before(PayoffDate(Schedule(p)), InMonth(p.start.MonthIndex(), p.day))
  {
    var plan, first := p.FixedPart(), p.start.MonthIndex();
    assert MonthlyInterest(10000, 0) == 0 && MonthlyInterest(5000, 0) == 0;
    assert PrincipalDue(plan, 10000) == 5000 && PrincipalDue(plan, 5000) == 5000;
    hide MonthlyInterest, InMonth, Installments, PrincipalDue;
    PeelRow(plan, 10000, 2, 1, first);
    PeelRow(plan, 5000, 1, 2, first + 1);
    LaterMonthIsLater(InMonth(first, p.day), InMonth(first + 1, p.day));
    LaterMonthIsLater(p.start, InMonth(first + 1, p.day));
  }

  lemma FirstIsKept(p: Terms, date: Date)
    requires Schedule(p) != [] && !Before(Schedule(p)[0].due, date)
    ensures KeptRows(Schedule(p), date) == 0
  {
    hide Schedule;
  }

  lemma KeptPrincipal(plan: Plan, balance: int, months: int, sequence: int, monthIndex: int, k: nat)
    requires balance > 0 && k < |Installments(plan, balance, months, sequence, monthIndex)|
    ensures var rows := Installments(plan, balance, months, sequence, monthIndex);
            TotalPrincipal(rows[..k]) + BalanceBefore(balance, rows, k) == balance
  {
    hide Installments, NextBalance, PrincipalDue, MonthlyInterest, InMonth, Prepaid;
    var rows := Installments(plan, balance, months, sequence, monthIndex);
    var at := BalanceBefore(balance, rows, k);
    PrepaidConserves(plan, balance, months, sequence, monthIndex, k, at);
    SpliceIsPrepaid(plan, balance, months, sequence, monthIndex, k, at);
    assert rows[..k] + [] == rows[..k];
  }

  /** A larger extra payment on the same date never saves less. */
  lemma LargerExtraSavesMore(p: Terms, less: int, more: int, date: Date)
    requires less <= more
    ensures WithExtra(p, less, date).monthsSaved <= WithExtra(p, more, date).monthsSaved
    ensures WithExtra(p, less, date).interestSaved <= WithExtra(p, more, date).interestSaved
  {
    hide Installments, Prepaid, MonthlyInterest, InMonth, TotalInterest, Renumbered;
    ExtraPaymentNeverCosts(p, less, date);
    ExtraPaymentNeverCosts(p, more, date);
    var baseline := Schedule(p);
    if ValidTerms(p) && less > 0 && !Before(PayoffDate(baseline), date) {
      var k := KeptRows(baseline, date);
      OutcomeIsPrepaid(p, less, date);
      OutcomeIsPrepaid(p, more, date);
      if less >= BalanceAt(p, date) || baseline[k].due != ZERO_TIME {
        PrepayingMoreIsCheaper(p.FixedPart(), p.principal, p.months, 1, p.start.MonthIndex(), k, less, more);
      } else {
        UndatedRestIsDropped(p, less, date);
        if more < BalanceAt(p, date) {
          UndatedRestIsDropped(p, more, date);
        }
      }
    }
  }

  /** The rows kept before an extra payment are no longer and no dearer than any schedule that keeps more of them. */
  lemma KeptIsCheaper(plan: Plan, balance: int, months: int, sequence: int, monthIndex: int, j: nat, k: nat, x: int)
    requires balance > 0 && x >= 0 && j <= k < |Installments(plan, balance, months, sequence, monthIndex)|
    ensures var rows, late := Installments(plan, balance, months, sequence, monthIndex), Prepaid(plan, balance, months, sequence, monthIndex, k, x);
            j <= |late| && TotalInterest(rows[..j]) <= TotalInterest(late)
  {
    hide Installments, Prepaid, TotalInterest, TotalPrincipal, MonthlyInterest, InMonth, NextBalance, PrincipalDue;
    var rows := Installments(plan, balance, months, sequence, monthIndex);
    var at := BalanceBefore(balance, rows, k);
    var late := Prepaid(plan, balance, months, sequence, monthIndex, k, x);
    SpliceIsPrepaid(plan, balance, months, sequence, monthIndex, k, x);
    InterestIsNonNegative(plan, at - x, months - k, sequence + k, monthIndex + k);
    NoInterest();
    TotalsSplit(rows[..k], late[k..]);
    assert late == rows[..k] + late[k..];
    TailIsSchedule(plan, balance, months, sequence, monthIndex, j);
    InterestIsNonNegative(plan, BalanceBefore(balance, rows, j), months - j, sequence + j, monthIndex + j);
    PrefixInterest(plan, balance, months, sequence, monthIndex, j, k);
  }

  lemma NoInterest()
    ensures TotalInterest([]) == 0
  {
  }

  lemma {:induction false} PrefixInterest(plan: Plan, balance: int, months: int, sequence: int, monthIndex: int, j: nat, k: nat)
    requires balance > 0 && j <= k < |Installments(plan, balance, months, sequence, monthIndex)|
    ensures var rows := Installments(plan, balance, months, sequence, monthIndex);
            TotalInterest(rows[..j]) <= TotalInterest(rows[..k])
    decreases k - j
  {
    hide Installments, TotalInterest, TotalPrincipal, InMonth, NextBalance, PrincipalDue;
    var rows := Installments(plan, balance, months, sequence, monthIndex);
    if j < k {
      PrefixInterest(plan, balance, months, sequence, monthIndex, j, k - 1);
      RowOfSchedule(plan, balance, months, sequence, monthIndex, k - 1);
      TotalsSplit(rows[..k - 1], [rows[k - 1]]);
      assert rows[..k - 1] + [rows[k - 1]] == rows[..k];
      InterestMonotone(BalanceBefore(balance, rows, k - 1), BalanceBefore(balance, rows, k - 1), plan.rateBps);
      InterestOfOne(rows[k - 1]);
    }
  }

  lemma InterestOfOne(row: Row)
    ensures TotalInterest([row]) == row.interest
  {
  }

  /** The same extra payment made earlier never saves less, provided the later one can be applied. */
  lemma EarlierExtraSavesMore(p: Terms, extra: int, early: Date, late: Date)
    requires NotAfter(early, late) && (extra <= 0 || Prepayable(p, extra, late))
    ensures WithExtra(p, extra, early).monthsSaved >= WithExtra(p, extra, late).monthsSaved
    ensures WithExtra(p, extra, early).interestSaved >= WithExtra(p, extra, late).interestSaved
  {
    hide Installments, Prepaid, MonthlyInterest, InMonth, TotalInterest, Renumbered, KeptRows;
    ExtraPaymentNeverCosts(p, extra, early);
    ExtraPaymentNeverCosts(p, extra, late);
    var baseline := Schedule(p);
    if ValidTerms(p) && extra > 0 && !Before(PayoffDate(baseline), late) {
      var plan, first := p.FixedPart(), p.start.MonthIndex();
      OutcomeIsPrepaid(p, extra, early);
      OutcomeIsPrepaid(p, extra, late);
      var j, k := KeptRows(baseline, early), KeptRows(baseline, late);
      assert j <= k;
      if extra >= BalanceAt(p, early) || baseline[j].due != ZERO_TIME {
        EarlierRowsAreCheaper(plan, p.principal, p.months, 1, first, j, k, extra);
      } else {
        UndatedRestIsDropped(p, extra, early);
        KeptIsCheaper(plan, p.principal, p.months, 1, first, j, k, extra);
      }
    }
  }

  lemma {:induction false} EarlierRowsAreCheaper(plan: Plan, balance: int, months: int, sequence: int, monthIndex: int, j: nat, k: nat, x: int)
    requires balance > 0 && x >= 0 && j <= k < |Installments(plan, balance, months, sequence, monthIndex)|
    ensures var early, late := Prepaid(plan, balance, months, sequence, monthIndex, j, x), Prepaid(plan, balance, months, sequence, monthIndex, k, x);
            |early| <= |late| && TotalInterest(early) <= TotalInterest(late)
    decreases k - j
  {
    hide Installments, Prepaid, TotalInterest;
    if j < k {
      EarlierRowsAreCheaper(plan, balance, months, sequence, monthIndex, j, k - 1, x);
      PrepayingEarlierIsCheaper(plan, balance, months, sequence, monthIndex, k - 1, x);
    }
  }

  // ---------------------------------------------------------------- what an extra payment does

  lemma {:induction false} KeptIsUnique(rows: seq<Row>, date: Date, k: nat)
    requires k <= |rows| && (k < |rows| ==> !Before(rows[k].due, date))
    requires forall i :: 0 <= i < k ==> Before(rows[i].due, date)
    ensures KeptRows(rows, date) == k
    decreases k
  {
    if k > 0 {
      KeptIsUnique(rows[1..], date, k - 1);
    }
  }

  lemma NoRowIsDueLater(p: Terms, k: nat)
    requires k < |Schedule(p)|
    ensures !Before(PayoffDate(Schedule(p)), Schedule(p)[k].due)
  {
    hide Schedule;
    RowsAreDue(p, k);
    RowsAreDue(p, |Schedule(p)| - 1);
  }

  /** What an extra payment does, where k baseline rows are due before its date. After the last row: nothing. Not
      positive: it is reported and not applied. As much as is owed then, or more: what is owed is applied, those k rows
      are all there are, and the debt ends on the date paid. Less: it is applied and those k rows stay. But for the
      debt it ends itself, the debt ends when the last row is due. */
  lemma ExtraIsApplied(p: Terms, extra: int, date: Date, k: nat)
    requires k <= |Schedule(p)| && (k < |Schedule(p)| ==> !Before(Schedule(p)[k].due, date))
    requires forall i :: 0 <= i < k ==> Before(Schedule(p)[i].due, date)
    ensures var rows, r := Schedule(p), WithExtra(p, extra, date);
            var owed := if k == 0 then p.principal else rows[k - 1].remaining;
            && (k == |rows| ==> r.schedule == rows && r.extra == 0)
            && (k < |rows| ==> r.appliedOn == date)
            && (k < |rows| && extra <= 0 ==> r.schedule == rows && r.extra == extra)
            && (k < |rows| && 0 < extra && owed <= extra ==> r.schedule == rows[..k] && r.extra == owed && r.payoff == date)
            && (k < |rows| && 0 < extra < owed ==> r.extra == extra && k <= |r.schedule| && r.schedule[..k] == rows[..k])
            && (k == |rows| || extra <= 0 || extra < owed ==>
                  r.schedule != [] ==> r.payoff == r.schedule[|r.schedule| - 1].due)
  {
    hide Schedule, Renumbered, TotalInterest;
    KeptIsUnique(Schedule(p), date, k);
    if k < |Schedule(p)| {
      NoRowIsDueLater(p, k);
    }
  }

  /** After a smaller extra payment there is always something left to pay, in no more installments than before. */
  lemma RestIsNotEmpty(p: Terms, extra: int, date: Date, k: nat)
    requires k < |Schedule(p)| && !Before(Schedule(p)[k].due, date) && p.start.year > 1
    requires forall j :: 0 <= j < k ==> Before(Schedule(p)[j].due, date)
    requires 0 < extra < (if k == 0 then p.principal else Schedule(p)[k - 1].remaining)
    ensures k < |WithExtra(p, extra, date).schedule| <= |Schedule(p)|
  {
    hide Installments, NextBalance, PrincipalDue, MonthlyInterest, InMonth, Prepaid, TotalInterest, NextDay, Renumbered;
    KeptIsUnique(Schedule(p), date, k);
    NoRowIsDueLater(p, k);
    RowsAreDue(p, k);
    ExtraPaymentNeverCosts(p, extra, date);
    OutcomeIsPrepaid(p, extra, date);
    SpliceIsPrepaid(p.FixedPart(), p.principal, p.months, 1, p.start.MonthIndex(), k, extra);
  }

  lemma ScheduleIsSpliced(p: Terms, extra: int, date: Date, k: nat)
    requires k < |Schedule(p)| && !Before(Schedule(p)[k].due, date)
    requires forall j :: 0 <= j < k ==> Before(Schedule(p)[j].due, date)
    requires 0 < extra < (if k == 0 then p.principal else Schedule(p)[k - 1].remaining)
    ensures var balance := (if k == 0 then p.principal else Schedule(p)[k - 1].remaining) - extra;
            var rest := Schedule(Terms(balance, p.rateBps, p.payment, p.months - k, Schedule(p)[k].due, p.day));
            WithExtra(p, extra, date).schedule == Schedule(p)[..k] + Renumbered(rest, k + 1)
            && |WithExtra(p, extra, date).schedule| == k + |rest|
  {
    hide Schedule, Renumbered, TotalInterest;
    KeptIsUnique(Schedule(p), date, k);
    NoRowIsDueLater(p, k);
  }

  lemma KeepsDueDates(p: Terms, extra: int, date: Date, i: nat)
    requires i < |WithExtra(p, extra, date).schedule|
    ensures i < |Schedule(p)| && WithExtra(p, extra, date).schedule[i].due == Schedule(p)[i].due
  {
    hide Schedule, WithExtra, TotalInterest;
    ExtraPaymentNeverCosts(p, extra, date);
  }

  lemma SpliceAt(rows: seq<Row>, rest: seq<Row>, k: nat, i: nat)
    requires k <= |rows| && k <= i < k + |rest|
    ensures var paid := rows[..k] + Renumbered(rest, k + 1);
            |paid| == k + |rest| && paid[i] == rest[i - k].(sequence := i + 1) && (i > k ==> paid[i - 1].remaining == rest[i - k - 1].remaining)
  {
  }

  /** The rows after a smaller extra payment: each is due in the month it had and amortizes what the extra left, by the
      rule of every schedule. */
  lemma RestIsAmortized(p: Terms, extra: int, date: Date, k: nat, i: nat)
    requires k < |Schedule(p)| && !Before(Schedule(p)[k].due, date) && p.start.year > 1
    requires forall j :: 0 <= j < k ==> Before(Schedule(p)[j].due, date)
    requires 0 < extra < (if k == 0 then p.principal else Schedule(p)[k - 1].remaining)
    requires k <= i < |WithExtra(p, extra, date).schedule|
    ensures var rows, paid := Schedule(p), WithExtra(p, extra, date).schedule;
            var row := paid[i];
            var before := if i > k then paid[i - 1].remaining else if k == 0 then p.principal - extra else rows[k - 1].remaining - extra;
            && i < |rows| && row.sequence == i + 1 && row.due == rows[i].due
            && before > 0
            && -60000 < 120000 * row.interest - before * p.rateBps <= 60000
            && row.principal + row.interest == row.total
            && row.remaining == before - row.principal
            && 0 < row.principal
            && (row.remaining == 0 <==> before - (p.payment - row.interest) <= 100)
            && (row.remaining != 0 ==> row.remaining > 100 && row.total == p.payment)
            && (i + 1 < |paid| <==> row.remaining != 0 && i + 1 < p.months)
  {
    hide *;
    var balance := (if k == 0 then p.principal else Schedule(p)[k - 1].remaining) - extra;
    var q := Terms(balance, p.rateBps, p.payment, p.months - k, Schedule(p)[k].due, p.day);
    ScheduleIsSpliced(p, extra, date, k);
    KeepsDueDates(p, extra, date, i);
    RowsAreDue(p, k);
    SpliceAt(Schedule(p), Schedule(q), k, i);
    RowsAreDue(q, i - k);
  }
}
