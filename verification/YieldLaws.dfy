/** Laws of yield reconciliation: it ends at the bank's figure with the yield shared out, every record can be undone
    under stated conditions, and savings stay sound over whole runs. */
module YieldLaws {
  import opened Calendar
  import opened Common
  import opened Ledger
  import opened LedgerLaws
  import opened ManagedLaws
  import opened Savings
  import opened SavingsLaws
  import opened YieldShares

  // ---------------------------------------------------------------- the goals of an account

  predicate Ascending(ids: seq<Id>) {
    forall i, j :: 0 <= i < j < |ids| ==> ids[i] < ids[j]
  }

  lemma {:induction false} InsertIsAscending(ids: seq<Id>, id: Id)
    requires Ascending(ids)
    ensures Ascending(InsertId(ids, id))
    ensures forall x: Id :: x in InsertId(ids, id) <==> x in ids || x == id
  {
    if ids != [] && id > ids[0] {
      InsertIsAscending(ids[1..], id);
      assert ids == [ids[0]] + ids[1..];
      var rest := InsertId(ids[1..], id);
      forall i | 0 <= i < |rest| ensures ids[0] < rest[i] {
        assert rest[i] in rest;
      }
    }
  }

  lemma {:induction false} GoalsAreDistinct(rows: seq<Allocation>, account: Id)
    ensures Ascending(GoalsIn(rows, account))
    ensures forall g <- GoalsIn(rows, account) :: exists i :: 0 <= i < |rows| && rows[i].goal == g
  {
    hide InsertId;
    if rows != [] {
      var init, last := rows[..|rows| - 1], rows[|rows| - 1];
      GoalsAreDistinct(init, account);
      InsertIsAscending(GoalsIn(init, account), last.goal);
      forall g | g in GoalsIn(rows, account)
        ensures exists i :: 0 <= i < |rows| && rows[i].goal == g
      {
        if g in GoalsIn(init, account) {
          var i :| 0 <= i < |init| && init[i].goal == g;
          assert rows[i].goal == g;
        } else {
          assert rows[|rows| - 1].goal == g;
        }
      }
    }
  }

  /** Shares to existing goals, each positive, in ascending order of goal. */
  predicate ProperShares(shares: seq<Share>, goals: map<Id, Goal>) {
    && (forall i :: 0 <= i < |shares| ==> shares[i].amount > 0 && shares[i].goal in goals)
    && Rising(shares)
  }

  predicate Rising(shares: seq<Share>) {
    forall i, j :: 0 <= i < j < |shares| ==> shares[i].goal < shares[j].goal
  }

  lemma {:induction false} HeldIsRising(rows: seq<Allocation>, account: Id, ids: seq<Id>)
    requires Ascending(ids)
    ensures |HeldBy(rows, account, ids)| == |ids|
    ensures forall i :: 0 <= i < |ids| ==> HeldBy(rows, account, ids)[i].goal == ids[i]
    ensures Rising(HeldBy(rows, account, ids))
  {
    hide Held;
    if ids != [] {
      HeldIsRising(rows, account, ids[..|ids| - 1]);
    }
  }

  predicate HasGoal(shares: seq<Share>, goal: Id) {
    exists j :: 0 <= j < |shares| && shares[j].goal == goal
  }

  lemma FundedMore(held: seq<Share>, s: Share)
    ensures Funded(held + [s]) == Funded(held) + if s.amount > 0 then [s] else []
  {
    assert (held + [s])[..|held|] == held;
  }

  lemma HasGoalMore(held: seq<Share>, s: Share)
    ensures HasGoal(held + [s], s.goal) && forall g: Id :: HasGoal(held, g) ==> HasGoal(held + [s], g)
  {
    assert (held + [s])[|held|] == s;
    forall g: Id | HasGoal(held, g) ensures HasGoal(held + [s], g) {
      var j :| 0 <= j < |held| && held[j].goal == g;
      assert (held + [s])[j] == held[j];
    }
  }

  lemma {:induction false} FundedIsRising(held: seq<Share>)
    requires Rising(held)
    ensures Rising(Funded(held))
    ensures forall i :: 0 <= i < |Funded(held)| ==> HasGoal(held, Funded(held)[i].goal)
  {
    if held != [] {
      var init, last := held[..|held| - 1], held[|held| - 1];
      FundedIsRising(init);
      assert init + [last] == held;
      hide Funded, HasGoal;
      FundedMore(init, last);
      HasGoalMore(init, last);
      forall i | 0 <= i < |Funded(init)| ensures Funded(init)[i].goal < last.goal {
        BelowLast(init, last, Funded(init)[i].goal);
      }
    }
  }

  lemma BelowLast(init: seq<Share>, last: Share, g: Id)
    requires Rising(init + [last]) && HasGoal(init, g)
    ensures g < last.goal
  {
    var j :| 0 <= j < |init| && init[j].goal == g;
    assert (init + [last])[j] == init[j] && (init + [last])[|init|] == last;
  }

  lemma {:induction false} SplitIsRising(gain: nat, denominator: int, funded: seq<Share>)
    requires denominator > 0 && Rising(funded)
    ensures Rising(Split(gain, denominator, funded)) && Positive(Split(gain, denominator, funded))
    ensures forall i :: 0 <= i < |Split(gain, denominator, funded)| ==> HasGoal(funded, Split(gain, denominator, funded)[i].goal)
  {
    hide Cents;
    if funded != [] {
      var init := funded[..|funded| - 1];
      SplitIsRising(gain, denominator, init);
      var shares, before := Split(gain, denominator, funded), Split(gain, denominator, init);
      forall i | 0 <= i < |shares|
        ensures shares[i].amount > 0 && HasGoal(funded, shares[i].goal)
        ensures i < |before| ==> shares[i].goal < funded[|funded| - 1].goal
      {
        if i < |before| {
          assert HasGoal(init, before[i].goal);
          var j :| 0 <= j < |init| && init[j].goal == before[i].goal;
          assert funded[j] == init[j];
        } else {
          assert funded[|funded| - 1].goal == shares[i].goal;
        }
      }
    }
  }

  /** The shares of a yield go to goals that exist. */
  lemma SharesAreProper(goals: map<Id, Goal>, rows: seq<Allocation>, account: Id, gain: int, balance: int)
    requires forall i :: 0 <= i < |rows| ==> rows[i].goal in goals
    ensures ProperShares(SharesOf(gain, balance, HeldBy(rows, account, GoalsIn(rows, account))), goals)
  {
    hide GoalsIn, HeldBy, Funded, Split, Denominator;
    var ids := GoalsIn(rows, account);
    var held := HeldBy(rows, account, ids);
    GoalsAreDistinct(rows, account);
    HeldIsRising(rows, account, ids);
    FundedIsRising(held);
    var funded, denominator, shares := Funded(held), Denominator(balance, held), SharesOf(gain, balance, held);
    if shares != [] {
      SplitIsRising(gain, denominator, funded);
      forall i | 0 <= i < |shares|
        ensures shares[i].goal in goals
      {
        assert HasGoal(funded, shares[i].goal);
        var j :| 0 <= j < |funded| && funded[j].goal == shares[i].goal;
        assert HasGoal(held, funded[j].goal);
        var k :| 0 <= k < |held| && held[k].goal == funded[j].goal;
        assert ids[k] in ids;
      }
    }
  }

  // ---------------------------------------------------------------- crediting

  lemma {:induction false} CreditApplies(goals: map<Id, Goal>, rows: seq<Allocation>, shares: seq<Share>, account: Id, on: Date, operation: nat)
    requires GoalsAgree(goals, rows)
    requires forall i :: 0 <= i < |shares| ==> shares[i].amount > 0 && shares[i].goal in goals
    ensures CreditShares(goals, shares, account).Ok?
    ensures var after := CreditShares(goals, shares, account).value;
            && GoalsAgree(after, rows + ShareRows(shares, account, on, operation)) && after.Keys == goals.Keys
            && forall id <- goals :: after[id].target == goals[id].target
    decreases |shares|
  {
    hide TotalOf, Held, GoalAgrees, NeverNegative;
    if shares == [] {
      assert rows + [] == rows;
    } else {
      var row := ShareRow(shares[0], account, on, operation);
      HoldsSomething(rows, row.goal, row.account);
      RowApplies(goals, rows, row, Some(account));
      var next := ApplyDelta(goals, row.goal, row.amount, Some(account)).value;
      CreditApplies(next, rows + [row], shares[1..], account, on, operation);
      assert (rows + [row]) + ShareRows(shares[1..], account, on, operation) == rows + ShareRows(shares, account, on, operation);
    }
  }

  lemma HoldsSomething(rows: seq<Allocation>, goal: Id, account: Option<Id>)
    requires NeverNegative(rows)
    ensures Held(rows, goal, account) >= 0
  {
  }

  lemma {:induction false} ShareRowsAre(shares: seq<Share>, account: Id, on: Date, operation: nat)
    ensures |ShareRows(shares, account, on, operation)| == |shares|
    ensures forall i :: 0 <= i < |shares| ==> ShareRows(shares, account, on, operation)[i] == ShareRow(shares[i], account, on, operation)
    decreases |shares|
  {
    if shares != [] {
      ShareRowsAre(shares[1..], account, on, operation);
    }
  }

  // ---------------------------------------------------------------- the books of a reconciliation

  lemma CheckedYield(p: Pots, account: Id, input: YieldInput, today: Date)
    requires PotsSound(p) && CheckYield(p, account, input, today).Ok?
    ensures account in p.books.accounts
    ensures var a := p.books.accounts[account];
            a.kind.Debit? && a.tracking && a.balance.Some? && input.gain >= 0
    ensures account in p.reconciledOn ==> !Before(input.on, p.reconciledOn[account])
  {
    hide Consistent, GoalsAgree, RecordsBacked, Stamped, DatesAgree, SharesLinked, RecordsTracked, MovedLater;
  }

  /** The income half: one entry, and a record it backs. */
  lemma EarnedYield(b: Books, account: Id, input: YieldInput, records: seq<Reconciled>)
    requires Consistent(b) && RecordsBacked(b, records) && RecordsTracked(b.accounts, records) && input.gain > 0
    requires account in b.accounts && b.accounts[account].kind.Debit? && b.accounts[account].tracking && b.accounts[account].balance.Some?
    ensures var a, e := b.accounts[account], Entry(account, OfTransaction(b.nextId), input.gain);
            CreateManaged(b, YieldIncome(account, input), YieldReconciliation)
            == Ok(b.(accounts := b.accounts[account := a.(balance := Some(a.balance.value + input.gain))], entries := b.entries + [e],
                     transactions := b.transactions[b.nextId := YieldIncome(account, input)],
                     managers := b.managers[b.nextId := YieldReconciliation], nextId := b.nextId + 1))
    ensures var earned := CreateManaged(b, YieldIncome(account, input), YieldReconciliation).value;
            && Consistent(earned) && RecordsBacked(earned, records) && RecordsTracked(earned.accounts, records)
            && Selected(earned.entries, OneTransaction(b.nextId)) == [Entry(account, OfTransaction(b.nextId), input.gain)]
  {
    hide Agrees, RecordsBacked, Selected, Others, Record, RecordsTracked, Linked, CreateManaged;
    var x := YieldIncome(account, input);
    assert 'R' in x.description;
    OneSidedCreation(b, x, input.gain, YieldReconciliation);
    RequestKeepsRecords(b, NewManaged(x, YieldReconciliation), records);
    RequestKeepsTracking(b, NewManaged(x, YieldReconciliation), records);
    NoEntryYet(b, b.nextId);
    SelectedOfOneMore(b.entries, Entry(account, OfTransaction(b.nextId), input.gain), OneTransaction(b.nextId));
  }

  /** The adjustment half: one entry that belongs to no transaction. */
  lemma Adjusted(b: Books, account: Id, delta: int, records: seq<Reconciled>, t: Id)
    requires Consistent(b) && RecordsBacked(b, records) && RecordsTracked(b.accounts, records)
    requires account in b.accounts && b.accounts[account].kind.Debit? && b.accounts[account].tracking && b.accounts[account].balance.Some?
    ensures var a := b.accounts[account];
            && Adjust(b, account, delta) == Ok(b.(accounts := b.accounts[account := a.(balance := Some(a.balance.value + delta))],
                                                   entries := b.entries + [Entry(account, Reconciliation, delta)]))
            && Consistent(Adjust(b, account, delta).value) && RecordsBacked(Adjust(b, account, delta).value, records)
            && RecordsTracked(Adjust(b, account, delta).value.accounts, records)
            && Selected(Adjust(b, account, delta).value.entries, OneTransaction(t)) == Selected(b.entries, OneTransaction(t))
  {
    hide Agrees, RecordsBacked, Selected, RecordsTracked, Linked;
    AdjustKeeps(b, account, delta);
    RequestKeepsRecords(b, AdjustBalance(account, delta), records);
    RequestKeepsTracking(b, AdjustBalance(account, delta), records);
    SelectedOfOneMore(b.entries, Entry(account, Reconciliation, delta), OneTransaction(t));
  }

  /** A record of this reconciliation. */
  function RecordOf(p: Pots, account: Id, input: YieldInput): Reconciled
    requires account in p.books.accounts && p.books.accounts[account].balance.Some?
  {
    var before := p.books.accounts[account].balance.value;
    Reconciled(account, input.on, before, input.balance, input.gain, input.balance - before - input.gain,
               if input.gain > 0 then Some(p.books.nextId) else None, p.tick)
  }

  /** The books after a reconciliation: the balance is the bank's figure and the new record is backed. */
  lemma YieldBooks(p: Pots, account: Id, input: YieldInput, today: Date)
    requires PotsSound(p) && CheckYield(p, account, input, today).Ok?
    ensures account in p.books.accounts && p.books.accounts[account].balance.Some?
    ensures var r, a := RecordOf(p, account, input), p.books.accounts[account];
            && BookYield(p.books, account, input, r.adjustment).Ok?
            && var b := BookYield(p.books, account, input, r.adjustment).value;
               && b.accounts == p.books.accounts[account := a.(balance := Some(input.balance))]
               && Consistent(b) && RecordsBacked(b, p.reconciliations + [r]) && RecordsTracked(b.accounts, p.reconciliations + [r])
               && b.entries == p.books.entries + (if input.gain > 0 then [Entry(account, OfTransaction(p.books.nextId), input.gain)] else [])
                               + (if r.adjustment != 0 then [Entry(account, Reconciliation, r.adjustment)] else [])
               && b == p.books.(accounts := b.accounts, entries := b.entries, nextId := b.nextId,
                       transactions := if input.gain > 0 then p.books.transactions[p.books.nextId := YieldIncome(account, input)] else p.books.transactions,
                       managers := if input.gain > 0 then p.books.managers[p.books.nextId := YieldReconciliation] else p.books.managers)
               && b.nextId == p.books.nextId + (if input.gain > 0 then 1 else 0)
  {
    hide Agrees, Linked, RecordsBacked, RecordsTracked, GoalsAgree, Stamped, DatesAgree, SharesLinked, CheckYield, CreateManaged, Adjust, Selected, YieldIncome;
    CheckedYield(p, account, input, today);
    var r, a, records := RecordOf(p, account, input), p.books.accounts[account], p.reconciliations;
    var earned := p.books;
    if input.gain > 0 {
      EarnedYield(p.books, account, input, records);
      earned := CreateManaged(p.books, YieldIncome(account, input), YieldReconciliation).value;
    } else {
      assert p.books.accounts[account := a.(balance := Some(a.balance.value))] == p.books.accounts;
    }
    var b := earned;
    if r.adjustment != 0 {
      Adjusted(earned, account, r.adjustment, records, p.books.nextId);
      b := Adjust(earned, account, r.adjustment).value;
    }
    NewRecordBacked(p.books, b, records, r);
    NewRecordTracked(b.accounts, records, r);
  }

  lemma NewRecordBacked(before: Books, b: Books, records: seq<Reconciled>, r: Reconciled)
    requires Consistent(before) && RecordsBacked(before, records) && RecordsBacked(b, records) && r.yielded >= 0
    requires r.transaction == (if r.yielded > 0 then Some(before.nextId) else None)
    requires r.yielded > 0 ==>
               && before.nextId in b.managers && b.managers[before.nextId] == YieldReconciliation && before.nextId in b.transactions
               && Selected(b.entries, OneTransaction(before.nextId)) == [Entry(r.account, OfTransaction(before.nextId), r.yielded)]
    ensures RecordsBacked(b, records + [r])
  {
    hide Agrees, Selected;
    forall i | 0 <= i < |records|
      ensures records[i].transaction.Some? ==> records[i].transaction.value < before.nextId
    {
      assert RecordBacked(before, records[i]);
    }
  }

  lemma NewRecordTracked(accounts: map<Id, Account>, records: seq<Reconciled>, r: Reconciled)
    requires RecordsTracked(accounts, records) && r.account in accounts && accounts[r.account].tracking && accounts[r.account].kind.Debit?
    ensures RecordsTracked(accounts, records + [r])
  {
  }

  // ---------------------------------------------------------------- reconciling

  lemma NewSharesLinked(p: Pots, shares: seq<Share>, r: Reconciled)
    requires SharesLinked(p.rows, p.reconciliations) && Stamped(p) && ProperShares(shares, p.goals) && r.operation == p.tick
    ensures SharesLinked(p.rows + ShareRows(shares, r.account, r.on, p.tick), p.reconciliations + [r])
  {
    ShareRowsAre(shares, r.account, r.on, p.tick);
  }

  lemma {:induction false} LatestHasLastDate(records: seq<Reconciled>, account: Id)
    ensures LastDate(records, account) == if LatestOf(records, account).Some? then Some(records[LatestOf(records, account).value].on) else None
  {
    if records != [] {
      LatestHasLastDate(records[..|records| - 1], account);
    }
  }

  /** A new record no earlier than the last one is the latest of its account. */
  lemma LatestAfter(records: seq<Reconciled>, r: Reconciled, reconciledOn: map<Id, Date>)
    requires DatesAgree(records, reconciledOn) && (r.account in reconciledOn ==> !Before(r.on, reconciledOn[r.account]))
    ensures LatestOf(records + [r], r.account) == Some(|records|)
    ensures DatesAgree(records + [r], reconciledOn[r.account := r.on])
  {
    assert (records + [r])[..|records|] == records;
    LatestHasLastDate(records, r.account);
  }

  lemma NewRowsStamped(p: Pots, after: Pots, shares: seq<Share>, r: Reconciled)
    requires Stamped(p) && r.operation == p.tick && after.goals.Keys == p.goals.Keys && after.tick == p.tick + 1
    requires after.rows == p.rows + ShareRows(shares, r.account, r.on, p.tick) && after.reconciliations == p.reconciliations + [r]
    ensures Stamped(after)
  {
    ShareRowsAre(shares, r.account, r.on, p.tick);
  }

  /** A reconciliation is accepted exactly when its checks pass: it ends with the bank's figure as the balance, yield
      and adjustment make up the difference, and the goals are credited with proportional shares. */
  lemma ReconcileIsAccepted(p: Pots, account: Id, input: YieldInput, today: Date)
    requires PotsSound(p)
    ensures ReconcileYield(p, account, input, today).Ok? <==> CheckYield(p, account, input, today).Ok?
    ensures ReconcileYield(p, account, input, today).Ok? ==>
              && account in p.books.accounts && p.books.accounts[account].balance.Some?
              && var after, r := ReconcileYield(p, account, input, today).value, RecordOf(p, account, input);
                 && PotsSound(after) && after.reconciliations == p.reconciliations + [r]
                 && after.books.accounts == p.books.accounts[account := p.books.accounts[account].(balance := Some(input.balance))]
                 && r.yielded + r.adjustment == input.balance - p.books.accounts[account].balance.value
                 && after.rows == p.rows + ShareRows(YieldSplit(p, account, input), account, input.on, p.tick)
                 && after.reconciledOn == p.reconciledOn[account := input.on]
  {
    hide Consistent, GoalsAgree, RecordsBacked, RecordsTracked, Stamped, DatesAgree, SharesLinked, CheckYield, BookYield, CreditShares, SharesOf, HeldBy, GoalsIn;
    if CheckYield(p, account, input, today).Ok? {
      CheckedYield(p, account, input, today);
      YieldBooks(p, account, input, today);
      var r, shares := RecordOf(p, account, input), YieldSplit(p, account, input);
      RowsHaveGoals(p.goals, p.rows);
      SharesAreProper(p.goals, p.rows, account, input.gain, p.books.accounts[account].balance.value);
      CreditApplies(p.goals, p.rows, shares, account, input.on, p.tick);
      NewSharesLinked(p, shares, r);
      LatestAfter(p.reconciliations, r, p.reconciledOn);
      NewRowsStamped(p, ReconcileYield(p, account, input, today).value, shares, r);
    }
  }

  lemma RowsHaveGoals(goals: map<Id, Goal>, rows: seq<Allocation>)
    requires GoalsAgree(goals, rows)
    ensures forall i :: 0 <= i < |rows| ==> rows[i].goal in goals
  {
  }

  // ---------------------------------------------------------------- debiting the shares of an undone record

  function NegativeRow(share: Share, account: Id): Allocation {
    Allocation(share.goal, Some(account), -share.amount, Released, ZERO_TIME, None, None, 0)
  }

  /** Rows that cancel shares. */
  function NegativeRows(shares: seq<Share>, account: Id): seq<Allocation> {
    if shares == [] then [] else [NegativeRow(shares[0], account)] + NegativeRows(shares[1..], account)
  }

  predicate DifferentGoals(shares: seq<Share>) {
    forall i, j :: 0 <= i < j < |shares| ==> shares[i].goal != shares[j].goal
  }

  /** When each goal still holds its share, debiting the shares never trips the guard. */
  lemma {:induction false} DebitApplies(goals: map<Id, Goal>, rows: seq<Allocation>, shares: seq<Share>, account: Id)
    requires GoalsAgree(goals, rows) && DifferentGoals(shares)
    requires forall i :: 0 <= i < |shares| ==> shares[i].goal in goals && shares[i].amount <= Held(rows, shares[i].goal, Some(account))
    ensures DebitShares(goals, shares).Ok?
    ensures var after := DebitShares(goals, shares).value;
            && GoalsAgree(after, rows + NegativeRows(shares, account)) && after.Keys == goals.Keys
            && forall id <- goals :: after[id].target == goals[id].target && after[id].account == goals[id].account
    decreases |shares|
  {
    hide TotalOf, Held, GoalsAgree, DifferentGoals, ApplyDelta;
    if shares == [] {
      assert rows + [] == rows;
    } else {
      var row := NegativeRow(shares[0], account);
      assert shares[0].amount <= Held(rows, row.goal, row.account);
      RowApplies(goals, rows, row, None);
      DeltaKeepsRest(goals, row.goal, row.amount);
      var next, rest := ApplyDelta(goals, row.goal, row.amount, None).value, shares[1..];
      StillHoldRest(rows, shares, account);
      DebitApplies(next, rows + [row], rest, account);
      assert (rows + [row]) + NegativeRows(rest, account) == rows + NegativeRows(shares, account);
    }
  }

  lemma DeltaKeepsRest(goals: map<Id, Goal>, id: Id, delta: int)
    ensures ApplyDelta(goals, id, delta, None).Ok? ==>
              var after := ApplyDelta(goals, id, delta, None).value;
              forall i <- goals :: i in after && after[i].target == goals[i].target && after[i].account == goals[i].account
  {
  }

  lemma StillHoldRest(rows: seq<Allocation>, shares: seq<Share>, account: Id)
    requires shares != [] && DifferentGoals(shares)
    requires forall i :: 0 <= i < |shares| ==> shares[i].amount <= Held(rows, shares[i].goal, Some(account))
    ensures DifferentGoals(shares[1..])
    ensures forall i :: 0 <= i < |shares[1..]| ==>
              shares[1..][i].amount <= Held(rows + [NegativeRow(shares[0], account)], shares[1..][i].goal, Some(account))
  {
    hide Held, TotalOf;
    forall i | 0 <= i < |shares[1..]|
      ensures shares[1..][i].amount <= Held(rows + [NegativeRow(shares[0], account)], shares[1..][i].goal, Some(account))
    {
      OneMore(rows, NegativeRow(shares[0], account), shares[i + 1].goal, Some(account), 0);
    }
  }

  function SharedTo(shares: seq<Share>, goal: Id): int {
    if shares == [] then 0
    else SharedTo(shares[..|shares| - 1], goal) + (if shares[|shares| - 1].goal == goal then shares[|shares| - 1].amount else 0)
  }

  lemma {:induction false} SharedFromFront(shares: seq<Share>, goal: Id)
    requires shares != []
    ensures SharedTo(shares, goal) == (if shares[0].goal == goal then shares[0].amount else 0) + SharedTo(shares[1..], goal)
  {
    if |shares| > 1 {
      var init := shares[..|shares| - 1];
      SharedFromFront(init, goal);
      assert init[1..] == shares[1..][..|shares[1..]| - 1];
    } else {
      assert shares[1..] == [] && shares[..0] == [];
    }
  }

  lemma {:induction false} NegativeSums(rows: seq<Allocation>, shares: seq<Share>, account: Id, goal: Id, a: Option<Id>)
    ensures TotalOf(rows + NegativeRows(shares, account), goal) == TotalOf(rows, goal) - SharedTo(shares, goal)
    ensures Held(rows + NegativeRows(shares, account), goal, a) == Held(rows, goal, a) - (if a == Some(account) then SharedTo(shares, goal) else 0)
    decreases |shares|
  {
    hide TotalOf, Held;
    if shares == [] {
      assert rows + [] == rows;
    } else {
      hide SharedTo;
      var row := NegativeRow(shares[0], account);
      NegativeSums(rows + [row], shares[1..], account, goal, a);
      assert (rows + [row]) + NegativeRows(shares[1..], account) == rows + NegativeRows(shares, account);
      OneMore(rows, row, goal, a, 0);
      SharedFromFront(shares, goal);
    }
  }

  lemma {:induction false} WithoutSums(rows: seq<Allocation>, operation: nat, account: Id, goal: Id, a: Option<Id>)
    requires forall i :: 0 <= i < |rows| && IsShare(rows[i], operation) ==> rows[i].account == Some(account)
    ensures TotalOf(WithoutShares(rows, operation), goal) == TotalOf(rows, goal) - SharedTo(CreditedBy(rows, operation), goal)
    ensures Held(WithoutShares(rows, operation), goal, a)
            == Held(rows, goal, a) - (if a == Some(account) then SharedTo(CreditedBy(rows, operation), goal) else 0)
  {
    if rows != [] {
      var init, last := rows[..|rows| - 1], rows[|rows| - 1];
      WithoutSums(init, operation, account, goal, a);
      if IsShare(last, operation) {
        var share := Share(last.goal, last.amount);
        assert (CreditedBy(init, operation) + [share])[..|CreditedBy(init, operation)|] == CreditedBy(init, operation);
        assert WithoutShares(rows, operation) == WithoutShares(init, operation);
      } else {
        OneMore(WithoutShares(init, operation), last, goal, a, 0);
        assert CreditedBy(rows, operation) == CreditedBy(init, operation);
      }
    }
  }

  lemma {:induction false} WithoutIsPart(rows: seq<Allocation>, operation: nat)
    ensures forall r <- WithoutShares(rows, operation) :: r in rows
  {
    if rows != [] {
      WithoutIsPart(rows[..|rows| - 1], operation);
    }
  }

  predicate ComesFrom(s: Share, rows: seq<Allocation>, operation: nat) {
    exists r <- rows :: IsShare(r, operation) && s == Share(r.goal, r.amount)
  }

  lemma {:induction false} CreditedIsPart(rows: seq<Allocation>, operation: nat)
    ensures forall s <- CreditedBy(rows, operation) :: ComesFrom(s, rows, operation)
  {
    if rows != [] {
      var init, last := rows[..|rows| - 1], rows[|rows| - 1];
      CreditedIsPart(init, operation);
      forall s | s in CreditedBy(rows, operation)
        ensures ComesFrom(s, rows, operation)
      {
        if s in CreditedBy(init, operation) {
          var r :| r in init && IsShare(r, operation) && s == Share(r.goal, r.amount);
          assert r in rows;
        } else {
          assert last in rows;
        }
      }
    }
  }

  lemma {:induction false} CreditedGoalsDiffer(rows: seq<Allocation>, records: seq<Reconciled>, operation: nat)
    requires SharesLinked(rows, records)
    ensures DifferentGoals(CreditedBy(rows, operation))
  {
    if rows != [] {
      var init, last := rows[..|rows| - 1], rows[|rows| - 1];
      PrefixLinked(rows, records);
      CreditedGoalsDiffer(init, records, operation);
      CreditedIsPart(init, operation);
      if IsShare(last, operation) {
        var before := CreditedBy(init, operation);
        forall i | 0 <= i < |before| ensures before[i].goal != last.goal {
          assert ComesFrom(before[i], init, operation);
          var r :| r in init && IsShare(r, operation) && before[i] == Share(r.goal, r.amount);
          var j :| 0 <= j < |init| && init[j] == r;
          assert rows[j] == r && IsShare(rows[|rows| - 1], rows[j].operation);
        }
      }
    }
  }

  lemma {:induction false} WithoutLinked(rows: seq<Allocation>, records: seq<Reconciled>, operation: nat)
    requires SharesLinked(rows, records)
    ensures SharesLinked(WithoutShares(rows, operation), records)
  {
    if rows != [] {
      var init, last := rows[..|rows| - 1], rows[|rows| - 1];
      PrefixLinked(rows, records);
      WithoutLinked(init, records, operation);
      WithoutIsPart(init, operation);
      if !IsShare(last, operation) {
        OneMoreLinked(rows, WithoutShares(init, operation), last, records);
      }
    }
  }

  lemma SameSumsAgree(goals: map<Id, Goal>, rows: seq<Allocation>, kept: seq<Allocation>)
    requires GoalsAgree(goals, rows)
    requires forall goal: Id, a: Option<Id> :: Held(kept, goal, a) == Held(rows, goal, a)
    requires forall goal: Id :: TotalOf(kept, goal) == TotalOf(rows, goal)
    requires forall i :: 0 <= i < |kept| ==> kept[i].goal in goals
    ensures GoalsAgree(goals, kept)
  {
    hide TotalOf, Held;
    forall id | id in goals ensures GoalAgrees(goals[id], id, kept) {
      assert GoalAgrees(goals[id], id, rows);
    }
    assert NeverNegative(kept);
  }

  // ---------------------------------------------------------------- undoing

  /** Removing the shares of record k and crediting them back agree. */
  lemma SharesUndone(p: Pots, k: nat)
    requires PotsSound(p) && k < |p.reconciliations|
    requires StillHeld(p, CreditedBy(p.rows, p.reconciliations[k].operation), p.reconciliations[k].account)
    ensures var r := p.reconciliations[k];
            var shares := CreditedBy(p.rows, r.operation);
            && DebitShares(p.goals, shares).Ok?
            && GoalsAgree(DebitShares(p.goals, shares).value, WithoutShares(p.rows, r.operation))
            && DebitShares(p.goals, shares).value.Keys == p.goals.Keys
            && (forall i :: 0 <= i < |shares| ==> shares[i].goal in p.goals)
            && (forall id <- p.goals :: DebitShares(p.goals, shares).value[id].target == p.goals[id].target
                                        && DebitShares(p.goals, shares).value[id].account == p.goals[id].account)
  {
    hide Consistent, RecordsBacked, RecordsTracked, Stamped, DatesAgree, SharesLinked, TotalOf, Held, NeverNegative, CreditedBy, WithoutShares, DebitShares, GoalAgrees;
    var r := p.reconciliations[k];
    var shares := CreditedBy(p.rows, r.operation);
    SharesBelongToRecord(p, k);
    CreditedGoalsDiffer(p.rows, p.reconciliations, r.operation);
    CreditedToGoals(p, r.operation);
    DebitApplies(p.goals, p.rows, shares, r.account);
    var after, kept := DebitShares(p.goals, shares).value, WithoutShares(p.rows, r.operation);
    forall goal: Id, a: Option<Id>
      ensures Held(kept, goal, a) == Held(p.rows + NegativeRows(shares, r.account), goal, a)
    {
      WithoutSums(p.rows, r.operation, r.account, goal, a);
      NegativeSums(p.rows, shares, r.account, goal, a);
    }
    forall goal: Id
      ensures TotalOf(kept, goal) == TotalOf(p.rows + NegativeRows(shares, r.account), goal)
    {
      WithoutSums(p.rows, r.operation, r.account, goal, None);
      NegativeSums(p.rows, shares, r.account, goal, None);
    }
    KeptHaveGoals(p, r.operation);
    SameSumsAgree(after, p.rows + NegativeRows(shares, r.account), kept);
  }

  lemma SharesBelongToRecord(p: Pots, k: nat)
    requires SharesLinked(p.rows, p.reconciliations) && k < |p.reconciliations|
    ensures forall i :: 0 <= i < |p.rows| && IsShare(p.rows[i], p.reconciliations[k].operation) ==>
              p.rows[i].account == Some(p.reconciliations[k].account)
  {
  }

  lemma CreditedToGoals(p: Pots, operation: nat)
    requires GoalsAgree(p.goals, p.rows)
    ensures forall i :: 0 <= i < |CreditedBy(p.rows, operation)| ==> CreditedBy(p.rows, operation)[i].goal in p.goals
  {
    hide GoalAgrees, NeverNegative, CreditedBy;
    CreditedIsPart(p.rows, operation);
    var shares := CreditedBy(p.rows, operation);
    forall i | 0 <= i < |shares| ensures shares[i].goal in p.goals {
      assert shares[i] in shares;
      var r :| r in p.rows && IsShare(r, operation) && shares[i] == Share(r.goal, r.amount);
    }
  }

  lemma KeptHaveGoals(p: Pots, operation: nat)
    requires GoalsAgree(p.goals, p.rows)
    ensures forall i :: 0 <= i < |WithoutShares(p.rows, operation)| ==> WithoutShares(p.rows, operation)[i].goal in p.goals
  {
    hide GoalAgrees, NeverNegative, WithoutShares;
    WithoutIsPart(p.rows, operation);
    var kept := WithoutShares(p.rows, operation);
    forall i | 0 <= i < |kept| ensures kept[i].goal in p.goals {
      assert kept[i] in kept;
    }
  }

  function Except(records: seq<Reconciled>, k: nat): seq<Reconciled>
    requires k < |records|
  {
    records[..k] + records[k + 1..]
  }

  /** The other records stay backed and tracked. */
  lemma OtherRecords(b: Books, records: seq<Reconciled>, k: nat)
    requires k < |records| && RecordsBacked(b, records) && RecordsTracked(b.accounts, records)
    ensures RecordsBacked(b, Except(records, k)) && RecordsTracked(b.accounts, Except(records, k))
    ensures records[k].transaction.Some? ==>
              forall i :: 0 <= i < |Except(records, k)| ==> Except(records, k)[i].transaction != records[k].transaction
  {
    hide RecordBacked;
    var rest := Except(records, k);
    assert forall i :: 0 <= i < |rest| ==> rest[i] == if i < k then records[i] else records[i + 1];
  }

  /** The books after undoing a record: the balance falls by exactly what the record had moved. */
  lemma UnbookedYield(b: Books, records: seq<Reconciled>, k: nat)
    requires Consistent(b) && RecordsBacked(b, records) && RecordsTracked(b.accounts, records) && k < |records|
    requires records[k].account in b.accounts && b.accounts[records[k].account].balance.Some?
    ensures var r, a := records[k], b.accounts[records[k].account];
            && UnbookYield(b, r).Ok?
            && var after := UnbookYield(b, r).value;
               && after.accounts == b.accounts[r.account := a.(balance := Some(a.balance.value - r.yielded - r.adjustment))]
               && Consistent(after) && RecordsBacked(after, Except(records, k)) && RecordsTracked(after.accounts, Except(records, k))
               && after == b.(accounts := after.accounts, entries := after.entries,
                       transactions := if r.transaction.Some? then b.transactions - {r.transaction.value} else b.transactions,
                       managers := if r.transaction.Some? then b.managers - {r.transaction.value} else b.managers)
               && after.entries == (if r.transaction.Some? then Others(b.entries, OneTransaction(r.transaction.value)) else b.entries)
                                   + (if r.adjustment != 0 then [Entry(r.account, Reconciliation, -r.adjustment)] else [])
  {
    hide Consistent, RecordsBacked, RecordsTracked, Remove, Adjust, Selected, Others;
    RecordFacts(b, records, k);
    var r, a, rest := records[k], b.accounts[records[k].account], Except(records, k);
    OtherRecords(b, records, k);
    var reversed := b;
    if r.transaction.Some? {
      var t := r.transaction.value;
      RemoveSingle(b, t, Entry(r.account, OfTransaction(t), r.yielded));
      RequestKeepsRecords(b, DropManaged(t), rest);
      RequestKeepsTracking(b, DropManaged(t), rest);
      reversed := RemoveManaged(b, t).value;
    } else {
      assert b.accounts[r.account := a.(balance := Some(a.balance.value - r.yielded))] == b.accounts;
    }
    if r.adjustment != 0 {
      Adjusted(reversed, r.account, -r.adjustment, rest, 0);
    }
  }

  lemma RecordFacts(b: Books, records: seq<Reconciled>, k: nat)
    requires k < |records| && RecordsBacked(b, records) && RecordsTracked(b.accounts, records)
    ensures RecordBacked(b, records[k])
    ensures records[k].account in b.accounts && b.accounts[records[k].account].tracking && b.accounts[records[k].account].kind.Debit?
  {
  }

  lemma UndoneIsLinked(p: Pots, k: nat)
    requires SharesLinked(p.rows, p.reconciliations) && k < |p.reconciliations|
    ensures SharesLinked(WithoutShares(p.rows, p.reconciliations[k].operation), Except(p.reconciliations, k))
  {
    hide WithoutShares;
    WithoutLinked(p.rows, p.reconciliations, p.reconciliations[k].operation);
    var rest := Except(p.reconciliations, k);
    assert forall i :: 0 <= i < |rest| ==> rest[i] == if i < k then p.reconciliations[i] else p.reconciliations[i + 1];
  }

  lemma UndoneIsStamped(p: Pots, after: Pots, k: nat)
    requires Stamped(p) && k < |p.reconciliations| && after.tick == p.tick && after.goals.Keys == p.goals.Keys
    requires after.rows == WithoutShares(p.rows, p.reconciliations[k].operation) && after.reconciliations == Except(p.reconciliations, k)
    ensures Stamped(after)
  {
    hide WithoutShares;
    WithoutIsPart(p.rows, p.reconciliations[k].operation);
    forall i | 0 <= i < |after.rows| ensures after.rows[i].operation < p.tick {
      assert after.rows[i] in after.rows;
    }
    assert forall i :: 0 <= i < |after.reconciliations| ==>
        after.reconciliations[i] == if i < k then p.reconciliations[i] else p.reconciliations[i + 1];
  }

  lemma {:induction false} OtherDates(records: seq<Reconciled>, k: nat, account: Id)
    requires k < |records| && records[k].account != account
    ensures LastDate(Except(records, k), account) == LastDate(records, account)
    decreases |records|
  {
    if k == |records| - 1 {
      assert Except(records, k) == records[..k];
    } else {
      var init := records[..|records| - 1];
      OtherDates(init, k, account);
      assert Except(records, k)[..|records| - 2] == Except(init, k);
    }
  }

  lemma UndoneDates(records: seq<Reconciled>, k: nat, reconciledOn: map<Id, Date>)
    requires k < |records| && DatesAgree(records, reconciledOn)
    ensures DatesAgree(Except(records, k), Redated(Except(records, k), records[k].account, reconciledOn))
  {
    hide LastDate;
    forall account: Id
      ensures LastDate(Except(records, k), account)
              == var dates := Redated(Except(records, k), records[k].account, reconciledOn); if account in dates then Some(dates[account]) else None
    {
      if account != records[k].account {
        OtherDates(records, k, account);
      }
    }
  }

  /** Undo is accepted exactly for the latest record of the account whose checks pass; the balance falls by what the
      record had moved and savings stay sound. */
  lemma UndoIsAccepted(p: Pots, account: Id, id: nat)
    requires PotsSound(p)
    ensures var k := FindRecord(p.reconciliations, id);
            UndoYield(p, account, id).Ok?
            <==> k.Some? && LatestOf(p.reconciliations, account) == k && CheckUndo(p, p.reconciliations[k.value]).Ok?
    ensures UndoYield(p, account, id).Ok? ==>
              var r, after := p.reconciliations[FindRecord(p.reconciliations, id).value], UndoYield(p, account, id).value;
              && PotsSound(after) && account in p.books.accounts && p.books.accounts[account].balance.Some?
              && after.books.accounts == p.books.accounts[account := p.books.accounts[account].(balance :=
                   Some(p.books.accounts[account].balance.value - r.yielded - r.adjustment))]
              && (forall g <- p.goals :: g in after.goals && after.goals[g].target == p.goals[g].target && after.goals[g].account == p.goals[g].account)
              && after.goals.Keys == p.goals.Keys
  {
    hide Consistent, GoalsAgree, RecordsBacked, RecordsTracked, Stamped, DatesAgree, SharesLinked, CreditedBy, WithoutShares, DebitShares, UnbookYield,
         LatestOf, StillHeld, AssignedIn, Redated, FindRecord;
    var found := FindRecord(p.reconciliations, id);
    if found.Some? && LatestOf(p.reconciliations, account) == found && CheckUndo(p, p.reconciliations[found.value]).Ok? {
      var k := found.value;
      RecordFacts(p.books, p.reconciliations, k);
      SharesUndone(p, k);
      UnbookedYield(p.books, p.reconciliations, k);
      UndoneIsLinked(p, k);
      UndoneDates(p.reconciliations, k, p.reconciledOn);
      UndoneIsStamped(p, UndoYield(p, account, id).value, k);
    }
  }

  // ---------------------------------------------------------------- undoing right away

  lemma {:induction false} SharesAppended(rows: seq<Allocation>, shares: seq<Share>, account: Id, on: Date, operation: nat)
    requires forall i :: 0 <= i < |rows| ==> !IsShare(rows[i], operation)
    ensures CreditedBy(rows + ShareRows(shares, account, on, operation), operation) == shares
    ensures WithoutShares(rows + ShareRows(shares, account, on, operation), operation) == rows
    decreases |shares|
  {
    hide ShareRows, CreditedBy, WithoutShares;
    ShareRowsAre(shares, account, on, operation);
    if shares == [] {
      assert rows + ShareRows(shares, account, on, operation) == rows;
      NoShares(rows, operation);
    } else {
      var init, last := shares[..|shares| - 1], shares[|shares| - 1];
      ShareRowsAre(init, account, on, operation);
      SharesAppended(rows, init, account, on, operation);
      var before, all := rows + ShareRows(init, account, on, operation), rows + ShareRows(shares, account, on, operation);
      assert all == before + [ShareRow(last, account, on, operation)];
      OneShareMore(before, ShareRow(last, account, on, operation), operation);
      assert init + [last] == shares;
    }
  }

  lemma OneShareMore(rows: seq<Allocation>, row: Allocation, operation: nat)
    requires IsShare(row, operation)
    ensures CreditedBy(rows + [row], operation) == CreditedBy(rows, operation) + [Share(row.goal, row.amount)]
    ensures WithoutShares(rows + [row], operation) == WithoutShares(rows, operation)
  {
    assert (rows + [row])[..|rows|] == rows;
  }

  lemma {:induction false} NoShares(rows: seq<Allocation>, operation: nat)
    requires forall i :: 0 <= i < |rows| ==> !IsShare(rows[i], operation)
    ensures CreditedBy(rows, operation) == [] && WithoutShares(rows, operation) == rows
  {
    hide IsShare;
    if rows != [] {
      var init, last := rows[..|rows| - 1], rows[|rows| - 1];
      NoShares(init, operation);
      assert !IsShare(last, operation);
      assert CreditedBy(init, operation) + [] == CreditedBy(init, operation);
      assert rows == init + [last];
    }
  }

  lemma {:induction false} AssignedWithShares(rows: seq<Allocation>, shares: seq<Share>, account: Id, on: Date, operation: nat)
    ensures AssignedIn(rows + ShareRows(shares, account, on, operation), account) == AssignedIn(rows, account) + Total(shares)
    decreases |shares|
  {
    hide ShareRows, AssignedIn, Total;
    ShareRowsAre(shares, account, on, operation);
    if shares == [] {
      assert rows + ShareRows(shares, account, on, operation) == rows;
      EmptyTotal();
    } else {
      var init, last := shares[..|shares| - 1], shares[|shares| - 1];
      ShareRowsAre(init, account, on, operation);
      AssignedWithShares(rows, init, account, on, operation);
      var before := rows + ShareRows(init, account, on, operation);
      assert rows + ShareRows(shares, account, on, operation) == before + [ShareRow(last, account, on, operation)];
      OneMore(before, ShareRow(last, account, on, operation), 0, None, account);
      assert init + [last] == shares;
      TotalOfOneMore(init, last);
    }
  }

  /** A goal holds at least the share it was just credited. */
  lemma HoldsShare(rows: seq<Allocation>, more: seq<Allocation>, i: nat)
    requires NeverNegative(rows) && i < |more| && forall j :: 0 <= j < |more| ==> more[j].amount > 0
    ensures Held(rows + more, more[i].goal, more[i].account) >= more[i].amount
    decreases |more|
  {
    hide Held, TotalOf;
    var init, last := more[..|more| - 1], more[|more| - 1];
    assert rows + more == (rows + init) + [last];
    OneMore(rows + init, last, more[i].goal, more[i].account, 0);
    if i < |init| {
      HoldsShare(rows, init, i);
    } else {
      NotNegativeAfter(rows, init, last.goal, last.account);
    }
  }

  lemma {:induction false} NotNegativeAfter(rows: seq<Allocation>, more: seq<Allocation>, goal: Id, account: Option<Id>)
    requires NeverNegative(rows) && forall j :: 0 <= j < |more| ==> more[j].amount > 0
    ensures Held(rows + more, goal, account) >= 0
    decreases |more|
  {
    hide Held, TotalOf;
    if more == [] {
      assert rows + more == rows;
    } else {
      var init, last := more[..|more| - 1], more[|more| - 1];
      assert rows + more == (rows + init) + [last];
      OneMore(rows + init, last, goal, account, 0);
      NotNegativeAfter(rows, init, goal, account);
    }
  }

  /** The only case in which a reconciliation cannot be undone right away: the account was already over-assigned and
      the bank's figure was higher. */
  predicate Overassigned(p: Pots, account: Id, input: YieldInput)
    requires account in p.books.accounts && p.books.accounts[account].balance.Some?
  {
    var before := p.books.accounts[account].balance.value;
    AssignedIn(p.rows, account) > before && before < input.balance
  }

  /** The state right after a reconciliation, ready to be undone. */
  lemma ReadyToUndo(p: Pots, account: Id, input: YieldInput, today: Date)
    requires PotsSound(p) && ReconcileYield(p, account, input, today).Ok?
    ensures account in p.books.accounts && p.books.accounts[account].balance.Some?
    ensures var after, r := ReconcileYield(p, account, input, today).value, RecordOf(p, account, input);
            && LatestOf(after.reconciliations, account) == Some(|p.reconciliations|)
            && FindRecord(after.reconciliations, p.tick) == Some(|p.reconciliations|)
            && after.reconciliations == p.reconciliations + [r]
            && CreditedBy(after.rows, r.operation) == YieldSplit(p, account, input)
            && WithoutShares(after.rows, r.operation) == p.rows
            && AssignedIn(after.rows, account) == AssignedIn(p.rows, account) + Total(YieldSplit(p, account, input))
            && StillHeld(after, YieldSplit(p, account, input), account)
            && (forall i :: 0 <= i < |YieldSplit(p, account, input)| ==> YieldSplit(p, account, input)[i].goal in after.goals)
  {
    hide Consistent, RecordsBacked, RecordsTracked, DatesAgree, SharesLinked, CheckYield, ReconcileYield, SharesOf, HeldBy, GoalsIn, Held, AssignedIn,
         CreditedBy, WithoutShares, GoalAgrees, LatestOf, Total;
    ReconcileIsAccepted(p, account, input, today);
    CheckedYield(p, account, input, today);
    var after, r, shares := ReconcileYield(p, account, input, today).value, RecordOf(p, account, input), YieldSplit(p, account, input);
    LatestAfter(p.reconciliations, r, p.reconciledOn);
    SharesAppended(p.rows, shares, account, input.on, p.tick);
    AssignedWithShares(p.rows, shares, account, input.on, p.tick);
    SharesAreProper(p.goals, p.rows, account, input.gain, p.books.accounts[account].balance.value);
    ShareRowsAre(shares, account, input.on, p.tick);
    var more := ShareRows(shares, account, input.on, p.tick);
    forall i | 0 <= i < |shares|
      ensures Held(after.rows, shares[i].goal, Some(account)) >= shares[i].amount && shares[i].goal in after.goals
    {
      HoldsShare(p.rows, more, i);
      assert after.rows[|p.rows| + i] == more[i];
    }
  }

  /** Undoing a reconciliation right away is accepted unless the account was over-assigned before a rise. It restores
      every balance, every row, goal totals and completion, the transactions and the last reconciled date. */
  lemma UndoRestores(p: Pots, account: Id, input: YieldInput, today: Date)
    requires PotsSound(p) && ReconcileYield(p, account, input, today).Ok?
    ensures account in p.books.accounts && p.books.accounts[account].balance.Some?
    ensures var undone := UndoYield(ReconcileYield(p, account, input, today).value, account, p.tick);
            && (undone.Ok? <==> !Overassigned(p, account, input))
            && (undone.Ok? ==>
                  && undone.value.books.accounts == p.books.accounts
                  && undone.value.rows == p.rows && undone.value.reconciliations == p.reconciliations
                  && undone.value.goals.Keys == p.goals.Keys
                  && (forall id <- p.goals :: undone.value.goals[id].current == p.goals[id].current
                                              && undone.value.goals[id].completed == p.goals[id].completed)
                  && undone.value.reconciledOn == p.reconciledOn
                  && PotsSound(undone.value))
  {
    hide Consistent, GoalsAgree, RecordsBacked, RecordsTracked, Stamped, DatesAgree, SharesLinked, CreditedBy, WithoutShares, ReconcileYield, UndoYield,
         LatestOf, StillHeld, AssignedIn, YieldSplit, Total;
    ReconcileIsAccepted(p, account, input, today);
    ReadyToUndo(p, account, input, today);
    var after, k := ReconcileYield(p, account, input, today).value, |p.reconciliations|;
    UndoIsAccepted(after, account, p.tick);
    if UndoYield(after, account, p.tick).Ok? {
      UndoneParts(after, account, p.tick);
      assert Except(after.reconciliations, k) == p.reconciliations;
      ReconciledTargets(p, account, input, today);
      SameGoals(p, UndoYield(after, account, p.tick).value);
      SameDates(p, account, input.on);
    }
  }

  lemma UndoneParts(p: Pots, account: Id, id: nat)
    requires UndoYield(p, account, id).Ok?
    ensures FindRecord(p.reconciliations, id).Some?
    ensures var k, after := FindRecord(p.reconciliations, id).value, UndoYield(p, account, id).value;
            var r := p.reconciliations[k];
            && after.rows == WithoutShares(p.rows, r.operation) && after.reconciliations == Except(p.reconciliations, k)
            && after.reconciledOn == Redated(Except(p.reconciliations, k), account, p.reconciledOn)
  {
  }

  lemma ReconciledTargets(p: Pots, account: Id, input: YieldInput, today: Date)
    requires PotsSound(p) && ReconcileYield(p, account, input, today).Ok?
    ensures var after := ReconcileYield(p, account, input, today).value;
            after.goals.Keys == p.goals.Keys && forall id <- p.goals :: after.goals[id].target == p.goals[id].target
  {
    hide Consistent, GoalsAgree, RecordsBacked, RecordsTracked, Stamped, DatesAgree, SharesLinked, CheckYield, BookYield, CreditShares, SharesOf, HeldBy, GoalsIn;
    CheckedYield(p, account, input, today);
    RowsHaveGoals(p.goals, p.rows);
    SharesAreProper(p.goals, p.rows, account, input.gain, p.books.accounts[account].balance.value);
    CreditApplies(p.goals, p.rows, YieldSplit(p, account, input), account, input.on, p.tick);
  }

  lemma SameGoals(p: Pots, after: Pots)
    requires PotsSound(p) && PotsSound(after) && after.rows == p.rows && after.goals.Keys == p.goals.Keys
    requires forall id <- p.goals :: after.goals[id].target == p.goals[id].target
    ensures forall id <- p.goals :: after.goals[id].current == p.goals[id].current && after.goals[id].completed == p.goals[id].completed
  {
    hide Consistent, RecordsBacked, RecordsTracked, DatesAgree, SharesLinked, TotalOf, NeverNegative;
    forall id | id in p.goals
      ensures after.goals[id].current == p.goals[id].current && after.goals[id].completed == p.goals[id].completed
    {
      assert GoalAgrees(p.goals[id], id, p.rows) && GoalAgrees(after.goals[id], id, p.rows);
    }
  }

  lemma SameDates(p: Pots, account: Id, on: Date)
    requires DatesAgree(p.reconciliations, p.reconciledOn)
    ensures Redated(p.reconciliations, account, p.reconciledOn[account := on]) == p.reconciledOn
  {
    hide LastDate;
    assert LastDate(p.reconciliations, account) == if account in p.reconciledOn then Some(p.reconciledOn[account]) else None;
  }

  lemma OthersOfOneOther(entries: seq<Entry>, e: Entry, s: Selection)
    requires !s.Has(e)
    ensures Others(entries + [e], s) == Others(entries, s) + [e]
  {
    assert (entries + [e])[..|entries|] == entries;
  }

  /** An undo right away also removes the income it created; of the ledger only the two opposite adjustments stay. */
  lemma UndoRestoresBooks(p: Pots, account: Id, input: YieldInput, today: Date)
    requires PotsSound(p) && ReconcileYield(p, account, input, today).Ok?
    requires UndoYield(ReconcileYield(p, account, input, today).value, account, p.tick).Ok?
    ensures account in p.books.accounts && p.books.accounts[account].balance.Some?
    ensures var b, adjustment := UndoYield(ReconcileYield(p, account, input, today).value, account, p.tick).value.books,
                                 input.balance - p.books.accounts[account].balance.value - input.gain;
            && b.transactions == p.books.transactions && b.managers == p.books.managers
            && b.entries == p.books.entries + (if adjustment == 0 then [] else
                              [Entry(account, Reconciliation, adjustment), Entry(account, Reconciliation, -adjustment)])
  {
    hide Consistent, GoalsAgree, RecordsBacked, RecordsTracked, Stamped, DatesAgree, SharesLinked, CreditedBy, WithoutShares, CheckYield,
         LatestOf, StillHeld, AssignedIn, YieldSplit, Total, Others, CreditShares, DebitShares, BookYield, UnbookYield, CheckUndo, Redated, YieldIncome;
    ReconcileIsAccepted(p, account, input, today);
    YieldBooks(p, account, input, today);
    var after, k, r, t := ReconcileYield(p, account, input, today).value, |p.reconciliations|, RecordOf(p, account, input), p.books.nextId;
    assert after.reconciliations[k] == r;
    SoundBooks(p);
    SoundBooks(after);
    UnbookedYield(after.books, after.reconciliations, k);
    var earned, adjusted := Entry(account, OfTransaction(t), input.gain), Entry(account, Reconciliation, r.adjustment);
    NewIdIsUnused(p.books);
    if input.gain > 0 {
      NothingSelected(p.books.entries, OneTransaction(t));
      OthersOfOneMore(p.books.entries, earned, OneTransaction(t));
      OthersOfOneOther(p.books.entries + [earned], adjusted, OneTransaction(t));
      assert p.books.entries + [earned] + [] == p.books.entries + [earned];
      assert p.books.transactions[t := YieldIncome(account, input)] - {t} == p.books.transactions;
      assert p.books.managers[t := YieldReconciliation] - {t} == p.books.managers;
    }
  }

  lemma SoundBooks(p: Pots)
    requires PotsSound(p)
    ensures Consistent(p.books) && RecordsBacked(p.books, p.reconciliations) && RecordsTracked(p.books.accounts, p.reconciliations)
  {
    hide Consistent, GoalsAgree, RecordsBacked, RecordsTracked, DatesAgree, SharesLinked;
  }

  lemma NewIdIsUnused(b: Books)
    requires Consistent(b)
    ensures b.nextId !in b.transactions && b.nextId !in b.managers
    ensures forall e <- b.entries :: !OneTransaction(b.nextId).Has(e)
  {
    hide Agrees;
  }

  // ---------------------------------------------------------------- whole runs

  lemma ElsewhereKeeps(p: Pots, r: Request)
    requires PotsSound(p) && Take(p, Elsewhere(r)).Ok?
    ensures PotsSound(Take(p, Elsewhere(r)).value)
  {
    hide Consistent, GoalsAgree, RecordsBacked, RecordsTracked, DatesAgree, SharesLinked, Perform;
    RequestKeepsRecords(p.books, r, p.reconciliations);
    RequestKeepsTracking(p.books, r, p.reconciliations);
  }

  lemma KeyedKeeps(p: Pots, key: string, t: Transaction)
    requires PotsSound(p) && CreateKeyed(p, key, t).Ok?
    ensures PotsSound(CreateKeyed(p, key, t).value)
  {
    hide Consistent, GoalsAgree, RecordsBacked, RecordsTracked, DatesAgree, SharesLinked, CreateTransaction, ValidShape, ValidateAccounts;
    if !KeyInUse(p, key) {
      RequestKeepsRecords(p.books, NewTransaction(t), p.reconciliations);
      RequestKeepsTracking(p.books, NewTransaction(t), p.reconciliations);
    }
  }

  lemma MaybeKeyedKeeps(p: Pots, key: Option<string>, t: Transaction)
    requires PotsSound(p) && CreateMaybeKeyed(p, key, t).Ok?
    ensures PotsSound(CreateMaybeKeyed(p, key, t).value)
  {
    hide Consistent, GoalsAgree, RecordsBacked, RecordsTracked, DatesAgree, SharesLinked, CreateTransaction, CreateKeyed;
    if key.Some? {
      KeyedKeeps(p, key.value, t);
    } else {
      RequestKeepsRecords(p.books, NewTransaction(t), p.reconciliations);
      RequestKeepsTracking(p.books, NewTransaction(t), p.reconciliations);
    }
  }

  lemma LiveKeysKeep(p: Pots)
    requires PotsSound(p)
    ensures PotsSound(LiveKeys(p))
  {
    hide Consistent, GoalsAgree, RecordsBacked, RecordsTracked, DatesAgree, SharesLinked;
  }

  lemma SaveKeeps(p: Pots, goal: Id, input: SaveInput)
    requires PotsSound(p) && Save(p, goal, input).Ok?
    ensures PotsSound(Save(p, goal, input).value)
  {
    hide PotsSound, SaveAnew, CheckSave, FindTransaction, SaveTransfer;
    if !KeyInUse(p, input.key) {
      SaveIsAccepted(p, goal, input);
    }
  }

  lemma TakeKeeps(p: Pots, s: Step)
    requires PotsSound(p) && Take(p, s).Ok?
    ensures PotsSound(Take(p, s).value)
  {
    hide PotsSound, CreateGoal, UpdateGoal, DeleteGoal, Save, Allocate, Reallocate, ReconcileYield, UndoYield, CreateKeyed, Perform, LiveKeys;
    match s
    case NewGoal(target, current, preferred) => CreateGoalKeeps(p, target, current, preferred);
    case EditGoal(goal, target, account) => UpdateGoalKeeps(p, goal, target, account);
    case DropGoal(goal) => DeletionIsAccepted(p, goal);
    case SaveTo(goal, input) => SaveKeeps(p, goal, input);
    case AssignTo(goal, input) => AllocateKeeps(p, goal, input);
    case MoveFrom(goal, input) => ReallocateKeeps(p, goal, input);
    case MatchYield(account, input, today) => ReconcileIsAccepted(p, account, input, today);
    case UndoMatch(account, id) =>
      UndoIsAccepted(p, account, id);
      LiveKeysKeep(UndoYield(p, account, id).value);
    case Keyed(key, t) => KeyedKeeps(p, key, t);
    case Elsewhere(r) => ElsewhereKeeps(p, r);
  }

  lemma {:induction false} TakeAllKeeps(p: Pots, steps: seq<Step>)
    requires PotsSound(p)
    ensures PotsSound(TakeAll(p, steps))
    decreases |steps|
  {
    hide PotsSound, Take;
    if steps != [] {
      if Take(p, steps[0]).Ok? {
        TakeKeeps(p, steps[0]);
      }
      TakeAllKeeps(Committed(p, Take(p, steps[0])), steps[1..]);
    }
  }

  const EMPTY_POTS := Pots(EMPTY_BOOKS, map[], [], [], map[], map[], {}, 0)

  lemma EmptyIsSound(categories: set<Id>)
    ensures PotsSound(EMPTY_POTS.(incomeCategories := categories))
  {
  }

  /** In every state reached by any run of requests: a goal's total is the sum of its rows, it is completed exactly when
      the total reaches the target, no goal holds less than nothing in any account, and no total is negative. */
  lemma GoalsAlwaysAgreeWithRows(categories: set<Id>, steps: seq<Step>, goal: Id, account: Option<Id>)
    ensures var p := TakeAll(EMPTY_POTS.(incomeCategories := categories), steps);
            && Held(p.rows, goal, account) >= 0
            && (goal in p.goals ==>
                  && p.goals[goal].current == TotalOf(p.rows, goal) && p.goals[goal].current >= 0
                  && (p.goals[goal].completed <==> p.goals[goal].current >= p.goals[goal].target))
            && (forall i :: 0 <= i < |p.rows| ==> p.rows[i].goal in p.goals)
            && Consistent(p.books)
  {
    hide TakeAll, Held, TotalOf, Consistent, RecordsBacked, RecordsTracked, DatesAgree, SharesLinked;
    EmptyIsSound(categories);
    TakeAllKeeps(EMPTY_POTS.(incomeCategories := categories), steps);
    var p := TakeAll(EMPTY_POTS.(incomeCategories := categories), steps);
    TotalIsNotNegative(p.rows, goal);
    if goal in p.goals {
      assert GoalAgrees(p.goals[goal], goal, p.rows);
    }
  }
}
