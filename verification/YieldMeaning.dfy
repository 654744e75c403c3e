/** What reconciling and undoing the yield of an account check, record and share out, in the figures of the request and
    the columns of the tables. */
module YieldMeaning {
  import opened Calendar
  import opened Common
  import opened Ledger
  import opened LedgerLaws
  import opened Savings
  import opened SavingsLaws
  import opened YieldLaws
  import opened YieldShares

  // ---------------------------------------------------------------- reconciling

  lemma NoneMovedLater(b: Books, account: Id, on: Date)
    ensures MovedLater(b, account, on)
            <==> exists id <- b.transactions ::
                   && b.transactions[id].affectsBalance && Before(on, b.transactions[id].date)
                   && (b.transactions[id].account == account || b.transactions[id].transferTo == Some(account))
  {
    if MovedLater(b, account, on) {
      var id :| id in b.transactions && MovesLater(b.transactions[id], account, on);
      assert id in b.transactions;
    }
  }

  /** A yield is recorded exactly for a tracked and active debit account, dated tomorrow at the latest, after no movement of
      the account's balance, in or out, and not before its last reconciliation; the yield is not negative and at most what
      the balance rose by, and its category, if any, is one for income. */
  lemma YieldChecks(p: Pots, account: Id, input: YieldInput, today: Date)
    requires PotsSound(p)
    ensures ReconcileYield(p, account, input, today).Ok?
            <==> && account in p.books.accounts && p.books.accounts[account].kind == Debit && p.books.accounts[account].balance.Some?
                 && p.books.accounts[account].tracking && p.books.accounts[account].active
                 && Ordinal(input.on) <= Ordinal(today) + 1
                 && (forall id <- p.books.transactions ::
                       p.books.transactions[id].affectsBalance
                       && (p.books.transactions[id].account == account || p.books.transactions[id].transferTo == Some(account)) ==>
                         Ordinal(p.books.transactions[id].date) <= Ordinal(input.on))
                 && (account in p.reconciledOn ==> Ordinal(p.reconciledOn[account]) <= Ordinal(input.on))
                 && 0 <= input.gain
                 && input.gain <= (if input.balance > p.books.accounts[account].balance.value
                                   then input.balance - p.books.accounts[account].balance.value else 0)
                 && (input.category.Some? ==> input.category.value in p.incomeCategories)
  {
    hide PotsSound, ReconcileYield, MovedLater, Before, Ordinal;
    ReconcileIsAccepted(p, account, input, today);
    NoneMovedLater(p.books, account, input.on);
    OrdinalOrder(NextDay(today), input.on);
    forall id | id in p.books.transactions
      ensures Before(input.on, p.books.transactions[id].date) <==> Ordinal(input.on) < Ordinal(p.books.transactions[id].date)
    {
      OrdinalOrder(input.on, p.books.transactions[id].date);
    }
    if account in p.reconciledOn {
      OrdinalOrder(input.on, p.reconciledOn[account]);
    }
  }

  /** An accepted reconciliation writes one record of its figures, an income of the yield unless there is none, and an entry
      for the rest of the difference unless there is none; the balance ends at the bank's figure and no other account
      moves. */
  lemma YieldRecords(p: Pots, account: Id, input: YieldInput, today: Date)
    requires PotsSound(p) && ReconcileYield(p, account, input, today).Ok?
    ensures var b, after := p.books, ReconcileYield(p, account, input, today).value;
            && account in b.accounts && b.accounts[account].balance.Some?
            && var before := b.accounts[account].balance.value;
            var adjustment := input.balance - before - input.gain;
            var income := Transaction(account, Income, input.gain, input.category, input.on, "Rendimientos", None, None, true, None);
            && after.reconciliations == p.reconciliations + [
                 Reconciled(account, input.on, before, input.balance, input.gain, adjustment,
                            if input.gain > 0 then Some(b.nextId) else None, p.tick)]
            && after.reconciledOn == p.reconciledOn[account := input.on]
            && after.keys == p.keys && after.incomeCategories == p.incomeCategories && after.tick == p.tick + 1
            && after.books == Books(
                 b.accounts[account := b.accounts[account].(balance := Some(input.balance))],
                 if input.gain > 0 then b.transactions[b.nextId := income] else b.transactions,
                 b.entries + (if input.gain > 0 then [Entry(account, OfTransaction(b.nextId), input.gain)] else [])
                           + (if adjustment != 0 then [Entry(account, Reconciliation, adjustment)] else []),
                 b.purchases, b.statements,
                 if input.gain > 0 then b.managers[b.nextId := YieldReconciliation] else b.managers,
                 if input.gain > 0 then b.nextId + 1 else b.nextId)
  {
    hide PotsSound, CheckYield, BookYield, CreditShares, SharesOf, HeldBy, GoalsIn, ShareRows;
    ReconcileIsAccepted(p, account, input, today);
    YieldBooks(p, account, input, today);
  }

  // ---------------------------------------------------------------- sharing out

  lemma {:induction false} ShareRowSums(rows: seq<Allocation>, shares: seq<Share>, account: Id, on: Date, operation: nat, goal: Id, a: Option<Id>)
    ensures TotalOf(rows + ShareRows(shares, account, on, operation), goal) == TotalOf(rows, goal) + SharedTo(shares, goal)
    ensures Held(rows + ShareRows(shares, account, on, operation), goal, a)
            == Held(rows, goal, a) + (if a == Some(account) then SharedTo(shares, goal) else 0)
    decreases |shares|
  {
    hide TotalOf, Held;
    if shares == [] {
      assert rows + [] == rows;
    } else {
      hide SharedTo;
      var row := ShareRow(shares[0], account, on, operation);
      ShareRowSums(rows + [row], shares[1..], account, on, operation, goal, a);
      assert (rows + [row]) + ShareRows(shares[1..], account, on, operation) == rows + ShareRows(shares, account, on, operation);
      OneMore(rows, row, goal, a, 0);
      SharedFromFront(shares, goal);
    }
  }

  lemma SharedToMore(shares: seq<Share>, s: Share, goal: Id)
    ensures SharedTo(shares + [s], goal) == SharedTo(shares, goal) + (if s.goal == goal then s.amount else 0)
  {
    assert (shares + [s])[..|shares|] == shares;
  }

  /** What a split gives a goal that is listed once, and one that is not listed. */
  lemma {:induction false} SplitTo(gain: nat, denominator: int, funded: seq<Share>, goal: Id)
    requires denominator > 0 && Rising(funded) && Positive(funded)
    ensures forall i :: 0 <= i < |funded| && funded[i].goal == goal ==>
              SharedTo(Split(gain, denominator, funded), goal) == Cents(gain, denominator, funded[i].amount)
    ensures !HasGoal(funded, goal) ==> SharedTo(Split(gain, denominator, funded), goal) == 0
  {
    hide Cents, SharedTo, HasGoal;
    if funded == [] {
      NothingSharedTo(goal);
    } else {
      var init, last := funded[..|funded| - 1], funded[|funded| - 1];
      SplitTo(gain, denominator, init, goal);
      CentsAreNotNegative(gain, denominator, last.amount);
      SharedToMore(Split(gain, denominator, init), Share(last.goal, Cents(gain, denominator, last.amount)), goal);
      ListedOnce(init, last, goal);
      assert init + [last] == funded;
      assert Split(gain, denominator, init) + [] == Split(gain, denominator, init);
      if last.goal != goal {
        assert forall i :: 0 <= i < |funded| && funded[i].goal == goal ==> i < |init| && init[i] == funded[i];
      }
    }
  }

  lemma ListedOnce(init: seq<Share>, last: Share, goal: Id)
    requires Rising(init + [last])
    ensures HasGoal(init + [last], goal) <==> HasGoal(init, goal) || last.goal == goal
    ensures last.goal == goal ==> forall i :: 0 <= i < |init| ==> init[i].goal != goal
    ensures last.goal == goal ==> !HasGoal(init, goal)
  {
    assert (init + [last])[|init|] == last && forall i :: 0 <= i < |init| ==> (init + [last])[i] == init[i];
  }

  lemma NothingSharedTo(goal: Id)
    ensures SharedTo([], goal) == 0
  {
  }

  /** Dropping the goals that hold nothing. */
  lemma {:induction false} FundedKeeps(held: seq<Share>)
    requires forall i :: 0 <= i < |held| ==> held[i].amount >= 0
    ensures Total(Funded(held)) == Total(held)
    ensures forall s <- held :: s.amount > 0 ==> s in Funded(held)
    ensures forall s <- Funded(held) :: s in held && s.amount > 0
  {
    hide Funded, Total;
    if held == [] {
      NothingFunded();
    } else {
      var init, last := held[..|held| - 1], held[|held| - 1];
      assert init + [last] == held;
      FundedKeeps(init);
      FundedMore(init, last);
      TotalOfOneMore(init, last);
      TotalOfOneMore(Funded(init), last);
      assert Funded(init) + [] == Funded(init);
    }
  }

  lemma NothingFunded()
    ensures Funded([]) == []
  {
  }

  predicate AllDifferent(ids: seq<Id>) {
    forall i, j :: 0 <= i < j < |ids| ==> ids[i] != ids[j]
  }

  lemma {:induction false} HeldByMore(rows: seq<Allocation>, r: Allocation, account: Id, ids: seq<Id>)
    requires AllDifferent(ids)
    ensures Total(HeldBy(rows + [r], account, ids))
            == Total(HeldBy(rows, account, ids)) + (if r.account == Some(account) && r.goal in ids then r.amount else 0)
  {
    hide Held;
    if ids != [] {
      var init, last := ids[..|ids| - 1], ids[|ids| - 1];
      HeldByMore(rows, r, account, init);
      assert ids == init + [last];
      OneMore(rows, r, last, Some(account), 0);
      TotalOfOneMore(HeldBy(rows, account, init), Share(last, Held(rows, last, Some(account))));
      TotalOfOneMore(HeldBy(rows + [r], account, init), Share(last, Held(rows + [r], last, Some(account))));
    }
  }

  lemma {:induction false} NothingHeldBy(account: Id, ids: seq<Id>)
    ensures Total(HeldBy([], account, ids)) == 0
  {
    if ids != [] {
      NothingHeldBy(account, ids[..|ids| - 1]);
    }
  }

  /** Different goals that include all with rows in the account hold together all that is assigned there. */
  lemma {:induction false} GoalsHoldAll(rows: seq<Allocation>, account: Id, ids: seq<Id>)
    requires AllDifferent(ids) && forall r <- rows :: r.account == Some(account) ==> r.goal in ids
    ensures Total(HeldBy(rows, account, ids)) == AssignedIn(rows, account)
  {
    if rows == [] {
      NothingHeldBy(account, ids);
    } else {
      var init, last := rows[..|rows| - 1], rows[|rows| - 1];
      assert rows == init + [last];
      GoalsHoldAll(init, account, ids);
      HeldByMore(init, last, account, ids);
    }
  }

  lemma {:induction false} GoalsAreListed(rows: seq<Allocation>, account: Id)
    ensures forall r <- rows :: r.account == Some(account) ==> r.goal in GoalsIn(rows, account)
  {
    hide InsertId;
    if rows != [] {
      var init, last := rows[..|rows| - 1], rows[|rows| - 1];
      GoalsAreListed(init, account);
      GoalsAreDistinct(init, account);
      InsertIsAscending(GoalsIn(init, account), last.goal);
      assert rows == init + [last];
    }
  }

  /** A goal without rows in the account holds nothing there. */
  lemma {:induction false} UnlistedHoldsNothing(rows: seq<Allocation>, goal: Id, account: Id)
    requires forall r <- rows :: r.account == Some(account) ==> r.goal != goal
    ensures Held(rows, goal, Some(account)) == 0
  {
    if rows != [] {
      var init := rows[..|rows| - 1];
      assert rows == init + [rows[|rows| - 1]];
      UnlistedHoldsNothing(init, goal, account);
    }
  }

  /** The goals with money in the account are the funded ones. */
  lemma FundedGoals(rows: seq<Allocation>, account: Id, goal: Id)
    requires NeverNegative(rows)
    ensures var funded, held := Funded(HeldBy(rows, account, GoalsIn(rows, account))), Held(rows, goal, Some(account));
            && held >= 0 && (held > 0 <==> HasGoal(funded, goal))
            && (forall i :: 0 <= i < |funded| && funded[i].goal == goal ==> funded[i].amount == held)
            && Rising(funded) && Positive(funded)
    ensures Total(Funded(HeldBy(rows, account, GoalsIn(rows, account)))) == AssignedIn(rows, account)
  {
    hide NeverNegative, Held, AssignedIn, Total, GoalsIn, HeldBy, Funded;
    var ids := GoalsIn(rows, account);
    var all := HeldBy(rows, account, ids);
    GoalsAreDistinct(rows, account);
    GoalsAreListed(rows, account);
    GoalsHoldAll(rows, account, ids);
    HeldIsRising(rows, account, ids);
    HeldAmounts(rows, account, ids);
    FundedKeeps(all);
    FundedIsRising(all);
    FundedIsPositive(all);
    HeldIsKnown(rows, goal, Some(account));
    var funded, held := Funded(all), Held(rows, goal, Some(account));
    forall j | 0 <= j < |funded| && funded[j].goal == goal ensures funded[j].amount == held && held > 0 {
      assert funded[j] in all;
      var i :| 0 <= i < |all| && all[i] == funded[j];
    }
    if held > 0 {
      if goal !in ids {
        UnlistedHoldsNothing(rows, goal, account);
      }
      var i :| 0 <= i < |ids| && ids[i] == goal;
      assert all[i] in all && all[i] == Share(goal, held);
      var j :| 0 <= j < |funded| && funded[j] == all[i];
    }
  }

  /** What sharing gives one goal, by what it holds. */
  lemma ShareOfGoal(rows: seq<Allocation>, account: Id, gain: int, balance: int, goal: Id)
    requires NeverNegative(rows) && gain >= 0
    ensures var share := SharedTo(SharesOf(gain, balance, HeldBy(rows, account, GoalsIn(rows, account))), goal);
            var held := Held(rows, goal, Some(account));
            var whole := if AssignedIn(rows, account) > balance then AssignedIn(rows, account) else balance;
            && held >= 0 && share >= 0
            && (whole > 0 ==> whole * share <= gain * held < whole * share + whole)
            && (whole <= 0 ==> share == 0)
  {
    hide Split, NeverNegative, Cents, Held, AssignedIn, Total, GoalsIn, HeldBy, Funded, SharedTo, HasGoal;
    var all := HeldBy(rows, account, GoalsIn(rows, account));
    var funded, whole, held := Funded(all), Denominator(balance, all), Held(rows, goal, Some(account));
    FundedGoals(rows, account, goal);
    NothingSharedTo(goal);
    if gain > 0 && all != [] && whole > 0 {
      SplitTo(gain, whole, funded, goal);
      if held > 0 {
        var j := Listed(funded, goal);
        RoundedDown(gain, whole, held);
      }
    } else if all == [] {
      NoGoalListed(goal);
    }
  }

  lemma Listed(shares: seq<Share>, goal: Id) returns (j: nat)
    requires HasGoal(shares, goal)
    ensures j < |shares| && shares[j].goal == goal
  {
    j :| j < |shares| && shares[j].goal == goal;
  }

  lemma NoGoalListed(goal: Id)
    ensures !HasGoal(Funded([]), goal)
  {
  }

  lemma HeldIsKnown(rows: seq<Allocation>, goal: Id, account: Option<Id>)
    requires NeverNegative(rows)
    ensures Held(rows, goal, account) >= 0
  {
  }

  lemma {:induction false} HeldAmounts(rows: seq<Allocation>, account: Id, ids: seq<Id>)
    requires NeverNegative(rows)
    ensures |HeldBy(rows, account, ids)| == |ids|
    ensures forall i :: 0 <= i < |ids| ==>
              HeldBy(rows, account, ids)[i] == Share(ids[i], Held(rows, ids[i], Some(account))) && HeldBy(rows, account, ids)[i].amount >= 0
  {
    hide Held, NeverNegative;
    if ids != [] {
      HeldAmounts(rows, account, ids[..|ids| - 1]);
      HeldIsKnown(rows, ids[|ids| - 1], Some(account));
    }
  }

  /** How the yield is shared: each goal's holding in the account grows by the yield times its part of the larger of the
      balance and all that is assigned in the account, rounded down to cents; its total grows by as much, and what it
      holds in other accounts stays. */
  lemma YieldIsShared(p: Pots, account: Id, input: YieldInput, today: Date, goal: Id)
    requires PotsSound(p) && ReconcileYield(p, account, input, today).Ok? && goal in p.goals
    ensures var after := ReconcileYield(p, account, input, today).value;
            && account in p.books.accounts && p.books.accounts[account].balance.Some? && goal in after.goals
            && var balance, taken := p.books.accounts[account].balance.value, AssignedIn(p.rows, account);
            var held := Held(p.rows, goal, Some(account));
            var share := Held(after.rows, goal, Some(account)) - held;
            var whole := if taken > balance then taken else balance;
            && share >= 0 && (whole > 0 ==> whole * share <= input.gain * held < whole * share + whole) && (whole <= 0 ==> share == 0)
            && after.goals[goal].current == p.goals[goal].current + share
            && after.goals[goal].target == p.goals[goal].target
            && (after.goals[goal].completed <==> after.goals[goal].current >= p.goals[goal].target)
            && (forall other: Option<Id> :: other != Some(account) ==> Held(after.rows, goal, other) == Held(p.rows, goal, other))
  {
    hide Consistent, RecordsBacked, RecordsTracked, Stamped, DatesAgree, SharesLinked, CheckYield, BookYield, Held, TotalOf, AssignedIn, SharesOf,
         NeverNegative, GoalsIn, HeldBy;
    ReconcileIsAccepted(p, account, input, today);
    CheckedGain(p, account, input, today);
    var shares, balance := YieldSplit(p, account, input), p.books.accounts[account].balance.value;
    ShareOfGoal(p.rows, account, input.gain, balance, goal);
    YieldTargets(p, account, input, today, goal);
    ShareRowSums(p.rows, shares, account, input.on, p.tick, goal, Some(account));
    forall other: Option<Id> | other != Some(account)
      ensures Held(p.rows + ShareRows(shares, account, input.on, p.tick), goal, other) == Held(p.rows, goal, other)
    {
      ShareRowSums(p.rows, shares, account, input.on, p.tick, goal, other);
    }
    assert GoalAgrees(p.goals[goal], goal, p.rows);
  }

  lemma CheckedGain(p: Pots, account: Id, input: YieldInput, today: Date)
    requires ReconcileYield(p, account, input, today).Ok?
    ensures CheckYield(p, account, input, today).Ok? && input.gain >= 0
  {
  }

  lemma YieldTargets(p: Pots, account: Id, input: YieldInput, today: Date, goal: Id)
    requires PotsSound(p) && ReconcileYield(p, account, input, today).Ok? && goal in p.goals
    ensures var after := ReconcileYield(p, account, input, today).value;
            goal in after.goals && after.goals[goal].target == p.goals[goal].target && GoalAgrees(after.goals[goal], goal, after.rows)
  {
    hide Consistent, RecordsBacked, RecordsTracked, Stamped, DatesAgree, SharesLinked, CheckYield, BookYield, Held, TotalOf, SharesOf, NeverNegative,
         GoalsIn, HeldBy, CreditShares, ShareRows, GoalAgrees;
    ReconcileIsAccepted(p, account, input, today);
    ReconciledTargets(p, account, input, today);
  }

  // ---------------------------------------------------------------- undoing

  /** No record of the account is dated later, or as late and recorded later. */
  ghost predicate IsLatest(records: seq<Reconciled>, account: Id, k: nat)
    requires k < |records|
  {
    && records[k].account == account
    && forall j :: 0 <= j < |records| && records[j].account == account ==>
         !Before(records[k].on, records[j].on) && (j > k ==> records[j].on != records[k].on)
  }

  lemma {:induction false} LatestIsFound(records: seq<Reconciled>, account: Id)
    ensures var k := LatestOf(records, account);
            if k.Some? then IsLatest(records, account, k.value) else forall j :: 0 <= j < |records| ==> records[j].account != account
  {
    if records != [] {
      var init, last := records[..|records| - 1], records[|records| - 1];
      LatestIsFound(init, account);
      assert forall j :: 0 <= j < |init| ==> init[j] == records[j];
      var before := LatestOf(init, account);
      hide Before;
      SameDate(last.on, last.on);
      if before.Some? {
        SameDate(last.on, records[before.value].on);
        forall j | 0 <= j < |init| && records[j].account == account && !Before(last.on, records[before.value].on)
          ensures !Before(last.on, records[j].on)
        {
          NoneBetween(last.on, records[j].on, records[before.value].on);
        }
      }
    }
  }

  lemma LatestMeans(records: seq<Reconciled>, account: Id, k: nat)
    requires k < |records|
    ensures LatestOf(records, account) == Some(k) <==> IsLatest(records, account, k)
  {
    hide Before, LatestOf;
    LatestIsFound(records, account);
    var found := LatestOf(records, account);
    if IsLatest(records, account, k) && found.Some? {
      SameDate(records[k].on, records[found.value].on);
    }
  }

  lemma SameDate(a: Date, b: Date)
    ensures a == b <==> !Before(a, b) && !Before(b, a)
  {
  }

  lemma NoneBetween(a: Date, b: Date, c: Date)
    ensures Before(a, b) && !Before(c, b) ==> Before(a, c)
  {
  }

  lemma {:induction false} RecordIsFound(records: seq<Reconciled>, id: nat)
    requires Increasing(records)
    ensures forall k :: 0 <= k < |records| && records[k].operation == id ==> FindRecord(records, id) == Some(k)
    ensures (forall r <- records :: r.operation != id) ==> FindRecord(records, id).None?
  {
    if records != [] {
      var init := records[..|records| - 1];
      RecordIsFound(init, id);
      assert forall k :: 0 <= k < |init| ==> init[k] == records[k];
      assert records == init + [records[|records| - 1]];
    }
  }

  /** What the rows of an operation paid out of a yield, together. */
  function PaidOut(rows: seq<Allocation>, operation: nat): int {
    if rows == [] then 0
    else
      var last := rows[|rows| - 1];
      PaidOut(rows[..|rows| - 1], operation) + (if last.kind == Yielded && last.operation == operation then last.amount else 0)
  }

  lemma {:induction false} CreditedMeans(rows: seq<Allocation>, operation: nat)
    ensures Total(CreditedBy(rows, operation)) == PaidOut(rows, operation)
    ensures forall r <- rows :: IsShare(r, operation) ==> Share(r.goal, r.amount) in CreditedBy(rows, operation)
  {
    if rows != [] {
      var init, last := rows[..|rows| - 1], rows[|rows| - 1];
      CreditedMeans(init, operation);
      TotalOfOneMore(CreditedBy(init, operation), Share(last.goal, last.amount));
      assert rows == init + [last] && CreditedBy(init, operation) + [] == CreditedBy(init, operation);
    }
  }

  lemma SharesAreHeld(p: Pots, operation: nat, account: Id)
    ensures StillHeld(p, CreditedBy(p.rows, operation), account)
            <==> forall r <- p.rows :: r.kind == Yielded && r.operation == operation ==> Held(p.rows, r.goal, Some(account)) >= r.amount
  {
    hide Held, CreditedBy;
    var shares := CreditedBy(p.rows, operation);
    CreditedMeans(p.rows, operation);
    CreditedIsPart(p.rows, operation);
    if StillHeld(p, shares, account) {
      forall r | r in p.rows && r.kind == Yielded && r.operation == operation ensures Held(p.rows, r.goal, Some(account)) >= r.amount {
        var i :| 0 <= i < |shares| && shares[i] == Share(r.goal, r.amount);
      }
    } else {
      var i :| 0 <= i < |shares| && Held(p.rows, shares[i].goal, Some(account)) < shares[i].amount;
      assert shares[i] in shares;
      var r :| r in p.rows && IsShare(r, operation) && shares[i] == Share(r.goal, r.amount);
    }
  }

  /** A record can be undone exactly if it is the latest of its account, every goal still holds in the account what the record
      paid it, and the balance, where undoing lowers it, still covers what stays assigned there. */
  lemma UndoChecks(p: Pots, account: Id, k: nat)
    requires PotsSound(p) && k < |p.reconciliations|
    ensures var r := p.reconciliations[k];
            UndoYield(p, account, r.operation).Ok?
            <==> && r.account == account && account in p.books.accounts && p.books.accounts[account].balance.Some?
                 && (forall j :: 0 <= j < |p.reconciliations| && p.reconciliations[j].account == account ==>
                       !Before(r.on, p.reconciliations[j].on) && (j > k ==> p.reconciliations[j].on != r.on))
                 && (forall row <- p.rows :: row.kind == Yielded && row.operation == r.operation ==>
                       Held(p.rows, row.goal, Some(account)) >= row.amount)
                 && (r.yielded + r.adjustment > 0 ==>
                       AssignedIn(p.rows, account) - PaidOut(p.rows, r.operation)
                       <= p.books.accounts[account].balance.value - r.yielded - r.adjustment)
  {
    hide Consistent, GoalsAgree, RecordsBacked, DatesAgree, SharesLinked, CreditedBy, LatestOf, StillHeld, AssignedIn, FindRecord, Held, UndoYield, PaidOut,
         Total, Before;
    var r := p.reconciliations[k];
    UndoIsAccepted(p, account, r.operation);
    RecordIsFound(p.reconciliations, r.operation);
    LatestMeans(p.reconciliations, account, k);
    SharesAreHeld(p, r.operation, account);
    CreditedMeans(p.rows, r.operation);
    CreditedToGoals(p, r.operation);
    if r.account == account {
      TrackedBalance(p, account);
    }
  }

  lemma TrackedBalance(p: Pots, account: Id)
    requires Consistent(p.books) && account in p.books.accounts && p.books.accounts[account].tracking && p.books.accounts[account].kind == Debit
    ensures p.books.accounts[account].balance.Some?
  {
    AccountOf(p.books, account);
  }

  lemma UnknownIsNotUndone(p: Pots, account: Id, id: nat)
    requires PotsSound(p) && forall r <- p.reconciliations :: r.operation != id
    ensures UndoYield(p, account, id) == Err(NotFound)
  {
    hide Consistent, GoalsAgree, RecordsBacked, DatesAgree, SharesLinked;
    RecordIsFound(p.reconciliations, id);
  }

  /** What an accepted undo takes back: the record and its income, the difference it had made to the balance, and from each
      goal what the record had paid it; rows of other operations stay. */
  lemma UndoMeans(p: Pots, account: Id, k: nat)
    requires PotsSound(p) && k < |p.reconciliations| && UndoYield(p, account, p.reconciliations[k].operation).Ok?
    ensures var b, r, after := p.books, p.reconciliations[k], UndoYield(p, account, p.reconciliations[k].operation).value;
            && account in b.accounts && b.accounts[account].balance.Some?
            && after.reconciliations == p.reconciliations[..k] + p.reconciliations[k + 1..]
            && after.books.accounts == b.accounts[account := b.accounts[account].(balance :=
                 Some(b.accounts[account].balance.value - r.yielded - r.adjustment))]
            && after.books.transactions == (if r.transaction.Some? then b.transactions - {r.transaction.value} else b.transactions)
            && after.books.managers == (if r.transaction.Some? then b.managers - {r.transaction.value} else b.managers)
            && after.books.purchases == b.purchases && after.books.statements == b.statements && after.books.nextId == b.nextId
            && after.keys == p.keys && after.incomeCategories == p.incomeCategories && after.tick == p.tick
            && (forall row: Allocation :: multiset(after.rows)[row]
                  == if row.kind == Yielded && row.operation == r.operation then 0 else multiset(p.rows)[row])
            && (forall goal <- p.goals ::
                  && goal in after.goals && after.goals[goal].target == p.goals[goal].target && after.goals[goal].account == p.goals[goal].account
                  && GoalAgrees(after.goals[goal], goal, after.rows))
  {
    hide Consistent, GoalAgrees, RecordsBacked, DatesAgree, SharesLinked, CreditedBy, LatestOf, AssignedIn, FindRecord, Held, Before, WithoutShares,
         CheckUndo, Redated, DebitShares, UnbookYield;
    var r := p.reconciliations[k];
    UndoIsAccepted(p, account, r.operation);
    RecordIsFound(p.reconciliations, r.operation);
    UnbookedYield(p.books, p.reconciliations, k);
    forall row: Allocation
      ensures multiset(WithoutShares(p.rows, r.operation))[row]
              == if row.kind == Yielded && row.operation == r.operation then 0 else multiset(p.rows)[row]
    {
      OtherRowsStay(p.rows, r.operation, row);
    }
  }

  lemma {:induction false} OtherRowsStay(rows: seq<Allocation>, operation: nat, row: Allocation)
    ensures multiset(WithoutShares(rows, operation))[row]
            == if row.kind == Yielded && row.operation == operation then 0 else multiset(rows)[row]
  {
    if rows != [] {
      OtherRowsStay(rows[..|rows| - 1], operation, row);
      assert rows == rows[..|rows| - 1] + [rows[|rows| - 1]];
    }
  }
}
