/** Laws of savings: goal totals and allocation rows always tell the same story, the guard on goal totals never
    fires, and a yield reconciliation ends at the bank's figure and can be taken back. */
module SavingsLaws {
  import opened Calendar
  import opened Common
  import opened Ledger
  import opened LedgerLaws
  import opened ManagedLaws
  import opened Savings
  import opened YieldShares

  // ---------------------------------------------------------------- sums of rows

  lemma OneMore(rows: seq<Allocation>, r: Allocation, goal: Id, account: Option<Id>, a: Id)
    ensures TotalOf(rows + [r], goal) == TotalOf(rows, goal) + (if r.goal == goal then r.amount else 0)
    ensures Held(rows + [r], goal, account) == Held(rows, goal, account) + (if r.goal == goal && r.account == account then r.amount else 0)
    ensures AssignedIn(rows + [r], a) == AssignedIn(rows, a) + (if r.account == Some(a) then r.amount else 0)
  {
    assert (rows + [r])[..|rows|] == rows;
  }

  ghost predicate NeverNegative(rows: seq<Allocation>) {
    forall goal: Id, account: Option<Id> :: Held(rows, goal, account) >= 0
  }

  /** The rows outside one account. */
  function Outside(rows: seq<Allocation>, account: Option<Id>): seq<Allocation> {
    if rows == [] then []
    else
      var last := rows[|rows| - 1];
      Outside(rows[..|rows| - 1], account) + (if last.account == account then [] else [last])
  }

  lemma OutsideMore(rows: seq<Allocation>, r: Allocation, account: Option<Id>)
    ensures Outside(rows + [r], account) == if r.account == account then Outside(rows, account) else Outside(rows, account) + [r]
  {
    assert (rows + [r])[..|rows|] == rows;
    assert Outside(rows, account) + [] == Outside(rows, account);
  }

  predicate SplitsBy(rows: seq<Allocation>, goal: Id, account: Option<Id>, other: Option<Id>) {
    var outside := Outside(rows, account);
    && TotalOf(rows, goal) == Held(rows, goal, account) + TotalOf(outside, goal)
    && Held(outside, goal, other) == (if other == account then 0 else Held(rows, goal, other))
    && |outside| <= |rows|
  }

  lemma OutsideStep(rows: seq<Allocation>, r: Allocation, goal: Id, account: Option<Id>, other: Option<Id>)
    requires SplitsBy(rows, goal, account, other)
    ensures SplitsBy(rows + [r], goal, account, other)
    ensures r.account == account ==> |Outside(rows + [r], account)| < |rows + [r]|
  {
    hide TotalOf, Held, Outside;
    OutsideMore(rows, r, account);
    OneMore(rows, r, goal, account, 0);
    OneMore(rows, r, goal, other, 0);
    OneMore(Outside(rows, account), r, goal, other, 0);
  }

  lemma {:induction false} OutsideSums(rows: seq<Allocation>, goal: Id, account: Option<Id>, other: Option<Id>)
    ensures SplitsBy(rows, goal, account, other)
    ensures rows != [] && rows[|rows| - 1].account == account ==> |Outside(rows, account)| < |rows|
  {
    if rows != [] {
      var init, last := rows[..|rows| - 1], rows[|rows| - 1];
      OutsideSums(init, goal, account, other);
      OutsideStep(init, last, goal, account, other);
      assert init + [last] == rows;
      hide *;
    }
  }

  /** A goal's total is the sum of what it holds account by account, so it is not negative when none of these is. */
  lemma {:induction false} TotalIsNotNegative(rows: seq<Allocation>, goal: Id)
    requires NeverNegative(rows)
    ensures TotalOf(rows, goal) >= 0
    decreases |rows|
  {
    hide TotalOf, Held, Outside;
    if rows == [] {
      NothingHeld(goal);
    } else {
      var account := rows[|rows| - 1].account;
      OutsideSums(rows, goal, account, account);
      OutsideNeverNegative(rows, account);
      TotalIsNotNegative(Outside(rows, account), goal);
    }
  }

  lemma NothingHeld(goal: Id)
    ensures TotalOf([], goal) == 0
  {
  }

  lemma OutsideNeverNegative(rows: seq<Allocation>, account: Option<Id>)
    requires NeverNegative(rows)
    ensures NeverNegative(Outside(rows, account))
  {
    hide TotalOf, Held, Outside;
    forall goal: Id, other: Option<Id>
      ensures Held(Outside(rows, account), goal, other) >= 0
    {
      OutsideSums(rows, goal, account, other);
    }
  }

  lemma TotalCoversHeld(rows: seq<Allocation>, goal: Id, account: Option<Id>)
    requires NeverNegative(rows)
    ensures Held(rows, goal, account) <= TotalOf(rows, goal)
  {
    OutsideSums(rows, goal, account, account);
    OutsideNeverNegative(rows, account);
    TotalIsNotNegative(Outside(rows, account), goal);
  }

  // ---------------------------------------------------------------- the invariant

  predicate GoalAgrees(g: Goal, id: Id, rows: seq<Allocation>) {
    g.current == TotalOf(rows, id) && (g.completed <==> g.current >= g.target)
  }

  ghost predicate GoalsAgree(goals: map<Id, Goal>, rows: seq<Allocation>) {
    && (forall id <- goals :: GoalAgrees(goals[id], id, rows))
    && (forall i :: 0 <= i < |rows| ==> rows[i].goal in goals)
    && NeverNegative(rows)
  }

  /** The income behind a reconciliation. */
  ghost predicate RecordBacked(b: Books, r: Reconciled) {
    && r.yielded >= 0 && (r.transaction.Some? <==> r.yielded > 0)
    && (r.transaction.Some? ==>
          && r.transaction.value in b.managers && b.managers[r.transaction.value] == YieldReconciliation
          && r.transaction.value in b.transactions
          && Selected(b.entries, OneTransaction(r.transaction.value)) == [Entry(r.account, OfTransaction(r.transaction.value), r.yielded)])
  }

  ghost predicate RecordsBacked(b: Books, records: seq<Reconciled>) {
    && (forall i :: 0 <= i < |records| ==> RecordBacked(b, records[i]))
    && (forall i, j :: 0 <= i < j < |records| && records[i].transaction.Some? ==> records[i].transaction != records[j].transaction)
  }

  /** Records are numbered in the order they were made. */
  predicate Increasing(records: seq<Reconciled>) {
    forall i, j :: 0 <= i < j < |records| ==> records[i].operation < records[j].operation
  }

  predicate Stamped(p: Pots) {
    && (forall i :: 0 <= i < |p.rows| ==> p.rows[i].operation < p.tick)
    && (forall i :: 0 <= i < |p.reconciliations| ==> p.reconciliations[i].operation < p.tick)
    && Increasing(p.reconciliations)
    && (forall id <- p.goals :: id < p.tick)
  }

  /** The last reconciled date of an account is the largest date of its reconciliations. */
  ghost predicate DatesAgree(records: seq<Reconciled>, reconciledOn: map<Id, Date>) {
    forall account: Id ::
      LastDate(records, account) == if account in reconciledOn then Some(reconciledOn[account]) else None
  }

  /** Reconciled accounts are tracked debit accounts. */
  predicate RecordsTracked(accounts: map<Id, Account>, records: seq<Reconciled>) {
    forall i :: 0 <= i < |records| ==>
      records[i].account in accounts && accounts[records[i].account].tracking && accounts[records[i].account].kind.Debit?
  }

  /** The shares of a reconciliation are positive, lie in its account, and go to different goals. */
  predicate SharesLinked(rows: seq<Allocation>, records: seq<Reconciled>) {
    && (forall i :: 0 <= i < |rows| && rows[i].kind == Yielded ==> rows[i].amount > 0)
    && (forall i, k :: 0 <= i < |rows| && 0 <= k < |records| && IsShare(rows[i], records[k].operation) ==>
          rows[i].account == Some(records[k].account))
    && (forall i, j :: 0 <= i < j < |rows| && rows[i].kind == Yielded && IsShare(rows[j], rows[i].operation) ==>
          rows[i].goal != rows[j].goal)
  }

  ghost predicate PotsSound(p: Pots) {
    && Consistent(p.books) && GoalsAgree(p.goals, p.rows) && RecordsBacked(p.books, p.reconciliations)
    && Stamped(p) && DatesAgree(p.reconciliations, p.reconciledOn)
    && RecordsTracked(p.books.accounts, p.reconciliations) && SharesLinked(p.rows, p.reconciliations)
  }

  lemma OtherRowKeepsShares(rows: seq<Allocation>, r: Allocation, records: seq<Reconciled>)
    requires SharesLinked(rows, records) && r.kind != Yielded
    ensures SharesLinked(rows + [r], records)
  {
  }

  lemma PrefixLinked(rows: seq<Allocation>, records: seq<Reconciled>)
    requires rows != [] && SharesLinked(rows, records)
    ensures SharesLinked(rows[..|rows| - 1], records)
  {
  }

  lemma OneMoreLinked(rows: seq<Allocation>, kept: seq<Allocation>, last: Allocation, records: seq<Reconciled>)
    requires rows != [] && last == rows[|rows| - 1] && SharesLinked(rows, records) && SharesLinked(kept, records)
    requires forall r <- kept :: r in rows[..|rows| - 1]
    ensures SharesLinked(kept + [last], records)
  {
    forall i | 0 <= i < |kept| && kept[i].kind == Yielded && IsShare(last, kept[i].operation)
      ensures kept[i].goal != last.goal
    {
      assert kept[i] in kept;
      var j :| 0 <= j < |rows| - 1 && rows[j] == kept[i];
    }
  }

  // ---------------------------------------------------------------- one row

  /** A row that leaves its goal enough in its account is applied without the guard firing. */
  lemma RowApplies(goals: map<Id, Goal>, rows: seq<Allocation>, r: Allocation, preferred: Option<Id>)
    requires GoalsAgree(goals, rows) && r.goal in goals && Held(rows, r.goal, r.account) + r.amount >= 0
    ensures ApplyDelta(goals, r.goal, r.amount, preferred).Ok?
    ensures GoalsAgree(ApplyDelta(goals, r.goal, r.amount, preferred).value, rows + [r])
    ensures ApplyDelta(goals, r.goal, r.amount, preferred).value.Keys == goals.Keys
  {
    hide TotalOf, Held;
    assert GoalAgrees(goals[r.goal], r.goal, rows);
    TotalCoversHeld(rows, r.goal, r.account);
    var after := ApplyDelta(goals, r.goal, r.amount, preferred).value;
    forall id | id in after
      ensures GoalAgrees(after[id], id, rows + [r])
    {
      OneMore(rows, r, id, None, 0);
      assert GoalAgrees(goals[id], id, rows);
    }
    RowKeepsHoldings(rows, r);
  }

  lemma RowKeepsHoldings(rows: seq<Allocation>, r: Allocation)
    requires NeverNegative(rows) && Held(rows, r.goal, r.account) + r.amount >= 0
    ensures NeverNegative(rows + [r])
  {
    hide TotalOf, Held;
    forall goal: Id, account: Option<Id>
      ensures Held(rows + [r], goal, account) >= 0
    {
      OneMore(rows, r, goal, account, 0);
    }
  }

  // ---------------------------------------------------------------- goals

  lemma CreateGoalKeeps(p: Pots, target: int, current: int, account: Option<Id>)
    requires PotsSound(p) && CreateGoal(p, target, current, account).Ok?
    ensures PotsSound(CreateGoal(p, target, current, account).value)
  {
    hide Consistent, RecordsBacked, DatesAgree, TotalOf, NeverNegative, SharesLinked, RecordsTracked;
    NoRowsOf(p.rows, p.tick);
  }

  lemma {:induction false} NoRowsOf(rows: seq<Allocation>, goal: Id)
    requires forall i :: 0 <= i < |rows| ==> rows[i].goal != goal
    ensures TotalOf(rows, goal) == 0
  {
    if rows != [] {
      NoRowsOf(rows[..|rows| - 1], goal);
    }
  }

  lemma UpdateGoalKeeps(p: Pots, id: Id, target: Option<int>, account: Option<Option<Id>>)
    requires PotsSound(p) && UpdateGoal(p, id, target, account).Ok?
    ensures PotsSound(UpdateGoal(p, id, target, account).value)
  {
    hide Consistent, RecordsBacked, DatesAgree, TotalOf, NeverNegative, SharesLinked, RecordsTracked;
    assert GoalAgrees(p.goals[id], id, p.rows);
  }

  // ---------------------------------------------------------------- deleting a goal

  lemma OthersMore(rows: seq<Allocation>, r: Allocation, goal: Id)
    ensures RowsOfOthers(rows + [r], goal) == if r.goal == goal then RowsOfOthers(rows, goal) else RowsOfOthers(rows, goal) + [r]
  {
    assert (rows + [r])[..|rows|] == rows;
    assert RowsOfOthers(rows, goal) + [] == RowsOfOthers(rows, goal);
  }

  predicate LessGoal(rows: seq<Allocation>, kept: seq<Allocation>, goal: Id, other: Id, account: Option<Id>, a: Id) {
    && TotalOf(kept, other) == (if other == goal then 0 else TotalOf(rows, other))
    && Held(kept, other, account) == (if other == goal then 0 else Held(rows, other, account))
    && AssignedIn(kept, a) == AssignedIn(rows, a) - Held(rows, goal, Some(a))
  }

  lemma OthersStep(rows: seq<Allocation>, r: Allocation, goal: Id, other: Id, account: Option<Id>, a: Id)
    requires LessGoal(rows, RowsOfOthers(rows, goal), goal, other, account, a)
    ensures LessGoal(rows + [r], RowsOfOthers(rows + [r], goal), goal, other, account, a)
  {
    hide TotalOf, Held, AssignedIn, RowsOfOthers;
    OthersMore(rows, r, goal);
    OneMore(rows, r, other, account, a);
    OneMore(rows, r, goal, Some(a), a);
    OneMore(RowsOfOthers(rows, goal), r, other, account, a);
  }

  lemma {:induction false} OthersSums(rows: seq<Allocation>, goal: Id, other: Id, account: Option<Id>, a: Id)
    ensures LessGoal(rows, RowsOfOthers(rows, goal), goal, other, account, a)
  {
    if rows != [] {
      var init, last := rows[..|rows| - 1], rows[|rows| - 1];
      OthersSums(init, goal, other, account, a);
      OthersStep(init, last, goal, other, account, a);
      assert init + [last] == rows;
      hide *;
    }
  }

  lemma {:induction false} OthersArePart(rows: seq<Allocation>, goal: Id)
    ensures forall r :: r in RowsOfOthers(rows, goal) <==> r in rows && r.goal != goal
  {
    if rows != [] {
      var init, last := rows[..|rows| - 1], rows[|rows| - 1];
      OthersArePart(init, goal);
      assert init + [last] == rows;
    }
  }

  lemma {:induction false} OthersLinked(rows: seq<Allocation>, goal: Id, records: seq<Reconciled>)
    requires SharesLinked(rows, records)
    ensures SharesLinked(RowsOfOthers(rows, goal), records)
  {
    if rows != [] {
      var init, last := rows[..|rows| - 1], rows[|rows| - 1];
      PrefixLinked(rows, records);
      OthersLinked(init, goal, records);
      OthersArePart(init, goal);
      if last.goal != goal {
        OneMoreLinked(rows, RowsOfOthers(init, goal), last, records);
      }
    }
  }

  lemma OthersAgree(goals: map<Id, Goal>, rows: seq<Allocation>, goal: Id)
    requires GoalsAgree(goals, rows)
    ensures GoalsAgree(goals - {goal}, RowsOfOthers(rows, goal))
  {
    hide TotalOf, Held, RowsOfOthers;
    var after, kept := goals - {goal}, RowsOfOthers(rows, goal);
    OthersArePart(rows, goal);
    forall id | id in after ensures GoalAgrees(after[id], id, kept) {
      assert GoalAgrees(goals[id], id, rows);
      OthersSums(rows, goal, id, None, 0);
    }
    forall i | 0 <= i < |kept| ensures kept[i].goal in after {
      assert kept[i] in kept;
    }
    forall id: Id, account: Option<Id> ensures Held(kept, id, account) >= 0 {
      OthersSums(rows, goal, id, account, 0);
    }
  }

  lemma FewerManagers(b: Books, released: set<Id>, records: seq<Reconciled>)
    requires Consistent(b) && RecordsBacked(b, records)
    requires forall t <- released :: t in b.managers && b.managers[t] != YieldReconciliation
    ensures var after := b.(managers := b.managers - released); Consistent(after) && RecordsBacked(after, records)
  {
    hide Agrees, Selected;
    var after := b.(managers := b.managers - released);
    assert forall e <- b.entries :: Sourced(e, b) ==> Sourced(e, after);
    forall i | 0 <= i < |records| ensures RecordBacked(after, records[i]) {
      assert RecordBacked(b, records[i]);
    }
  }

  /** Deleting a goal is accepted exactly when there is such a goal. No balance and no other goal changes, and in every
      account exactly what the goal held there is free again. */
  lemma DeletionIsAccepted(p: Pots, goal: Id)
    requires PotsSound(p)
    ensures DeleteGoal(p, goal).Ok? <==> goal in p.goals
    ensures DeleteGoal(p, goal).Ok? ==>
              var after := DeleteGoal(p, goal).value;
              && PotsSound(after)
              && after.books == p.books.(managers := after.books.managers) && after.goals == p.goals - {goal}
              && (forall a: Id :: AssignedIn(after.rows, a) == AssignedIn(p.rows, a) - Held(p.rows, goal, Some(a)))
              && (forall g: Id, a: Option<Id> :: Held(after.rows, g, a) == if g == goal then 0 else Held(p.rows, g, a))
  {
    hide Consistent, GoalsAgree, RecordsBacked, RecordsTracked, DatesAgree, SharesLinked, TotalOf, Held, AssignedIn, RowsOfOthers, Backs;
    if goal in p.goals {
      var after := DeleteGoal(p, goal).value;
      OthersAgree(p.goals, p.rows, goal);
      OthersLinked(p.rows, goal, p.reconciliations);
      OthersArePart(p.rows, goal);
      FewerManagers(p.books, Freed(p, goal), p.reconciliations);
      forall i | 0 <= i < |after.rows| ensures after.rows[i].operation < p.tick {
        assert after.rows[i] in after.rows;
      }
      forall g: Id, a: Option<Id> ensures Held(after.rows, g, a) == if g == goal then 0 else Held(p.rows, g, a) {
        OthersSums(p.rows, goal, g, a, 0);
      }
      forall a: Id ensures AssignedIn(after.rows, a) == AssignedIn(p.rows, a) - Held(p.rows, goal, Some(a)) {
        OthersSums(p.rows, goal, 0, None, a);
      }
    }
  }

  // ---------------------------------------------------------------- rows that move no money

  /** Assigning is accepted exactly when its own checks pass: the guard on the goal's total never fires. */
  lemma AssignIsAccepted(p: Pots, goal: Id, input: AssignInput)
    requires PotsSound(p) && CheckAssign(p, goal, input).Ok?
    ensures AssignAnew(p, goal, input).Ok?
            <==> if input.amount > 0 then AssignedIn(p.rows, input.account) + input.amount <= p.books.accounts[input.account].balance.value
                 else -input.amount <= Held(p.rows, goal, Some(input.account))
    ensures AssignAnew(p, goal, input).Ok? ==> PotsSound(AssignAnew(p, goal, input).value)
    ensures AssignAnew(p, goal, input).Ok? && input.amount > 0 ==>
              var after := AssignAnew(p, goal, input).value;
              AssignedIn(after.rows, input.account) <= after.books.accounts[input.account].balance.value
  {
    hide Consistent, RecordsBacked, DatesAgree, TotalOf, Held, NeverNegative, GoalAgrees, CheckCurrency, AssignedIn, SharesLinked, RecordsTracked;
    var row := Allocation(goal, Some(input.account), input.amount, AssignKind(input.amount), input.on, Some(input.key), None, p.tick);
    HeldIsNotNegative(p, goal, Some(input.account));
    if Held(p.rows, goal, Some(input.account)) + input.amount >= 0 {
      RowApplies(p.goals, p.rows, row, Some(input.account));
      OtherRowKeepsShares(p.rows, row, p.reconciliations);
    }
    OneMore(p.rows, row, goal, None, input.account);
  }

  lemma HeldIsNotNegative(p: Pots, goal: Id, account: Option<Id>)
    requires PotsSound(p)
    ensures Held(p.rows, goal, account) >= 0
  {
    hide Consistent, RecordsBacked, DatesAgree, Held, GoalAgrees, SharesLinked, RecordsTracked;
  }

  lemma AllocateKeeps(p: Pots, goal: Id, input: AssignInput)
    requires PotsSound(p) && Allocate(p, goal, input).Ok?
    ensures PotsSound(Allocate(p, goal, input).value)
  {
    hide PotsSound, AssignAnew, FindKey;
    if FindKey(p.rows, input.key).None? {
      AssignIsAccepted(p, goal, input);
    }
  }

  /** The two rows of a reallocation. */
  lemma MoveIsAccepted(p: Pots, from: Id, input: MoveInput)
    requires PotsSound(p) && CheckMove(p, from, input).Ok?
    ensures MoveAnew(p, from, input).Ok? <==> input.amount <= Held(p.rows, from, Some(input.account))
    ensures MoveAnew(p, from, input).Ok? ==> PotsSound(MoveAnew(p, from, input).value)
    ensures MoveAnew(p, from, input).Ok? ==>
              && (forall a: Id :: AssignedIn(MoveAnew(p, from, input).value.rows, a) == AssignedIn(p.rows, a))
              && MoveAnew(p, from, input).value.books == p.books
              && Held(MoveAnew(p, from, input).value.rows, from, Some(input.account)) == Held(p.rows, from, Some(input.account)) - input.amount
              && Held(MoveAnew(p, from, input).value.rows, input.to, Some(input.account)) == Held(p.rows, input.to, Some(input.account)) + input.amount
  {
    hide Consistent, RecordsBacked, DatesAgree, TotalOf, Held, NeverNegative, GoalAgrees, CheckCurrency, AssignedIn, SharesLinked, RecordsTracked;
    if input.amount <= Held(p.rows, from, Some(input.account)) {
      var out := Allocation(from, Some(input.account), -input.amount, Moved, input.on, Some(input.key), None, p.tick);
      var into := Allocation(input.to, Some(input.account), input.amount, Moved, input.on, None, None, p.tick);
      MoveSums(p.rows, out, into);
      HeldIsNotNegative(p, input.to, Some(input.account));
      RowApplies(p.goals, p.rows, out, None);
      var lowered := ApplyDelta(p.goals, from, -input.amount, None).value;
      RowApplies(lowered, p.rows + [out], into, Some(input.account));
      OtherRowKeepsShares(p.rows, out, p.reconciliations);
      OtherRowKeepsShares(p.rows + [out], into, p.reconciliations);
      assert p.rows + [out, into] == (p.rows + [out]) + [into];
    }
  }

  lemma MoveSums(rows: seq<Allocation>, out: Allocation, into: Allocation)
    requires out.account == into.account && out.amount == -into.amount && out.goal != into.goal
    ensures forall a: Id :: AssignedIn(rows + [out, into], a) == AssignedIn(rows, a)
    ensures Held(rows + [out], into.goal, into.account) == Held(rows, into.goal, into.account)
    ensures Held(rows + [out, into], out.goal, out.account) == Held(rows, out.goal, out.account) + out.amount
    ensures Held(rows + [out, into], into.goal, into.account) == Held(rows, into.goal, into.account) + into.amount
  {
    hide Held, AssignedIn, TotalOf;
    assert rows + [out, into] == (rows + [out]) + [into];
    OneMore(rows, out, out.goal, out.account, 0);
    OneMore(rows + [out], into, out.goal, out.account, 0);
    OneMore(rows, out, into.goal, into.account, 0);
    OneMore(rows + [out], into, into.goal, into.account, 0);
    forall a: Id
      ensures AssignedIn(rows + [out, into], a) == AssignedIn(rows, a)
    {
      OneMore(rows, out, 0, None, a);
      OneMore(rows + [out], into, 0, None, a);
    }
  }

  lemma ReallocateKeeps(p: Pots, from: Id, input: MoveInput)
    requires PotsSound(p) && Reallocate(p, from, input).Ok?
    ensures PotsSound(Reallocate(p, from, input).value)
  {
    hide PotsSound, MoveAnew, FindKey, FindPair;
    if FindKey(p.rows, input.key).None? {
      MoveIsAccepted(p, from, input);
    }
  }

  // ---------------------------------------------------------------- what managed transactions do to the books

  lemma RecordsStayBacked(b: Books, after: Books, records: seq<Reconciled>)
    requires RecordsBacked(b, records)
    requires forall i :: 0 <= i < |records| && records[i].transaction.Some? ==> Stays(b, after, records[i].transaction.value)
    ensures RecordsBacked(after, records)
  {
    hide Selected;
  }

  /** Requests that do not take back the transaction of a record leave all records backed. */
  lemma RequestKeepsRecords(b: Books, r: Request, records: seq<Reconciled>)
    requires Consistent(b) && RecordsBacked(b, records) && Perform(b, r).Ok?
    requires r.DropManaged? ==> forall i :: 0 <= i < |records| ==> records[i].transaction != Some(r.id)
    ensures Consistent(Perform(b, r).value) && RecordsBacked(Perform(b, r).value, records)
  {
    hide Consistent, Perform, Stays, Selected;
    PerformKeeps(b, r);
    var after := Perform(b, r).value;
    forall i | 0 <= i < |records| && records[i].transaction.Some?
      ensures Stays(b, after, records[i].transaction.value)
    {
      assert RecordBacked(b, records[i]);
      ManagedStays(b, r, records[i].transaction.value);
    }
    RecordsStayBacked(b, after, records);
  }

  lemma RequestKeepsTracking(b: Books, r: Request, records: seq<Reconciled>)
    requires Consistent(b) && RecordsTracked(b.accounts, records) && Perform(b, r).Ok?
    ensures RecordsTracked(Perform(b, r).value.accounts, records)
  {
    hide Consistent, Perform;
    AccountsPersist(b, r);
  }

  // ---------------------------------------------------------------- saving

  lemma {:induction false} TrimKeepsText(text: string)
    requires !IsBlank(text)
    ensures !IsBlank(Trim(text))
    decreases |text|
  {
    if text != [] && IsSpace(text[0]) {
      assert exists c <- text[1..] :: !IsSpace(c) by {
        var c :| c in text && !IsSpace(c);
        assert c in text[1..];
      }
      TrimKeepsText(text[1..]);
    } else if text != [] && IsSpace(text[|text| - 1]) {
      assert exists c <- text[..|text| - 1] :: !IsSpace(c) by {
        var c :| c in text && !IsSpace(c);
        assert c in text[..|text| - 1];
      }
      TrimKeepsText(text[..|text| - 1]);
    }
  }

  /** Free money of an account: its balance less what is assigned to goals. */
  function Unassigned(p: Pots, account: Id): int
    requires account in p.books.accounts && p.books.accounts[account].balance.Some?
  {
    p.books.accounts[account].balance.value - AssignedIn(p.rows, account)
  }

  lemma CheckedSave(p: Pots, goal: Id, input: SaveInput)
    requires PotsSound(p) && CheckSave(p, goal, input).Ok?
    ensures var x := SaveTransfer(input);
            && input.amount > 0 && ValidShape(x) && AccountsOf(x) <= p.books.accounts.Keys && input.source != input.destination && goal in p.goals
            && p.books.accounts[input.source].tracking && p.books.accounts[input.destination].tracking
            && p.books.accounts[input.source].kind.Debit? && p.books.accounts[input.destination].kind.Debit?
            && p.books.accounts[input.source].balance.Some? && p.books.accounts[input.destination].balance.Some?
  {
    hide IsBlank, Trim, CheckCurrency, GoalsAgree, RecordsBacked, Stamped, DatesAgree, Sum, Linked, SharesLinked, RecordsTracked;
    TrimKeepsText(input.description);
    AccountOf(p.books, input.source);
    AccountOf(p.books, input.destination);
  }

  /** Saving anew succeeds exactly when both accounts share a currency. It moves the amount from the source to the
      destination, credits the goal, and leaves the destination's unassigned money as it was. */
  lemma SaveIsAccepted(p: Pots, goal: Id, input: SaveInput)
    requires PotsSound(p) && CheckSave(p, goal, input).Ok?
    ensures input.source in p.books.accounts && input.destination in p.books.accounts && goal in p.goals
    ensures SaveAnew(p, goal, input).Ok?
            <==> p.books.accounts[input.source].currency == p.books.accounts[input.destination].currency
    ensures SaveAnew(p, goal, input).Ok? ==>
              var after := SaveAnew(p, goal, input).value;
              && PotsSound(after)
              && input.destination in after.books.accounts && input.source in after.books.accounts
              && p.books.accounts[input.destination].balance.Some? && after.books.accounts[input.destination].balance.Some?
              && p.books.accounts[input.source].balance.Some? && after.books.accounts[input.source].balance.Some?
              && Unassigned(after, input.destination) == Unassigned(p, input.destination)
              && after.books.accounts[input.source].balance.value == p.books.accounts[input.source].balance.value - input.amount
              && goal in after.goals && after.goals[goal].current == p.goals[goal].current + input.amount
  {
    hide Consistent, RecordsBacked, DatesAgree, TotalOf, Held, NeverNegative, GoalAgrees, CheckSave, AssignedIn, SharesLinked, RecordsTracked, IsBlank, Trim, CreateManaged, ValidShape;
    CheckedSave(p, goal, input);
    var x, t := SaveTransfer(input), p.books.nextId;
    TransferCreation(p.books, x, SavingsAllocation);
    var row := Allocation(goal, Some(input.destination), input.amount, Saved, input.on, None, Some(t), p.tick);
    HeldIsNotNegative(p, goal, Some(input.destination));
    RowApplies(p.goals, p.rows, row, Some(input.destination));
    OneMore(p.rows, row, goal, None, input.destination);
    if SaveAnew(p, goal, input).Ok? {
      RequestKeepsRecords(p.books, NewManaged(x, SavingsAllocation), p.reconciliations);
      RequestKeepsTracking(p.books, NewManaged(x, SavingsAllocation), p.reconciliations);
      OtherRowKeepsShares(p.rows, row, p.reconciliations);
      assert Unassigned(SaveAnew(p, goal, input).value, input.destination) == Unassigned(p, input.destination);
    }
  }
}
