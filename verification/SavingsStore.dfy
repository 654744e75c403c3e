/** The savings repository, step by step over its tables and the ledger. Each method ends in the state Savings
    specifies or in the state it started from. */
module SavingsStore {
  import opened Calendar
  import opened Common
  import opened Ledger
  import opened LedgerLaws
  import opened LedgerStore
  import opened Savings
  import opened SavingsLaws
  import opened YieldLaws
  import opened YieldShares

  class Jars {
    const ledger: Store
    var goals: map<Id, Goal>
    var rows: seq<Allocation>
    var reconciliations: seq<Reconciled>
    var reconciledOn: map<Id, Date>
    var keys: map<string, Id>
    var incomeCategories: set<Id>
    var tick: nat

    function Tables(): Pots
      reads this, ledger
    {
      Pots(ledger.Tables(), goals, rows, reconciliations, reconciledOn, keys, incomeCategories, tick)
    }

    ghost predicate Valid()
      reads this, ledger
    {
      PotsSound(Tables())
    }

    constructor (ledger: Store, incomeCategories: set<Id>)
      requires ledger.Tables() == EMPTY_BOOKS
      ensures this.ledger == ledger && Valid() && Tables() == EMPTY_POTS.(incomeCategories := incomeCategories)
    {
      this.ledger, this.incomeCategories := ledger, incomeCategories;
      goals, rows, reconciliations, reconciledOn := map[], [], [], map[];
      keys, tick := map[], 0;
      new;
      EmptyIsSound(incomeCategories);
    }

    /** What the database does when a request returns an error. */
    method Rollback(saved: Pots)
      modifies this, ledger
      ensures Tables() == saved
    {
      ledger.Rollback(saved.books);
      goals, rows, reconciliations, reconciledOn := saved.goals, saved.rows, saved.reconciliations, saved.reconciledOn;
      keys, incomeCategories, tick := saved.keys, saved.incomeCategories, saved.tick;
    }

    // -------------------------------------------------------------- goals

    method ApplyGoalDelta(id: Id, delta: int, preferred: Option<Id>) returns (r: Result<()>)
      modifies this`goals
      ensures r == Answer(ApplyDelta(old(goals), id, delta, preferred), ())
      ensures goals == Committed(old(goals), ApplyDelta(old(goals), id, delta, preferred))
    {
      if id !in goals || goals[id].current + delta < 0 {
        return Err(InsufficientGoalAllocation);
      }
      var g := goals[id];
      g := g.(current := g.current + delta);
      g := g.(completed := g.current >= g.target);
      if g.account.None? && preferred.Some? {
        g := g.(account := preferred);
      }
      goals := goals[id := g];
      r := Ok(());
    }

    method CreateGoal(target: int, current: int, account: Option<Id>) returns (r: Result<Id>)
      requires Valid()
      modifies this
      ensures Valid()
      ensures Tables() == Committed(old(Tables()), Savings.CreateGoal(old(Tables()), target, current, account))
      ensures r == Answer(Savings.CreateGoal(old(Tables()), target, current, account), old(tick))
    {
      hide PotsSound;
      ghost var before := Tables();
      if Savings.CreateGoal(before, target, current, account).Ok? {
        CreateGoalKeeps(before, target, current, account);
      }
      if target <= 0 {
        return Err(BadRequest);
      }
      if current != 0 {
        return Err(InvalidTransactionShape);
      }
      var id := tick;
      goals, tick := goals[id := Goal(target, current, account, current >= target)], tick + 1;
      r := Ok(id);
    }

    method UpdateGoal(id: Id, target: Option<int>, account: Option<Option<Id>>) returns (r: Result<()>)
      requires Valid()
      modifies this
      ensures Valid()
      ensures Tables() == Committed(old(Tables()), Savings.UpdateGoal(old(Tables()), id, target, account))
      ensures r == Answer(Savings.UpdateGoal(old(Tables()), id, target, account), ())
    {
      hide PotsSound;
      ghost var before := Tables();
      if Savings.UpdateGoal(before, id, target, account).Ok? {
        UpdateGoalKeeps(before, id, target, account);
      }
      if target.Some? && target.value <= 0 {
        return Err(BadRequest);
      }
      if id !in goals {
        return Err(NotFound);
      }
      var g := goals[id];
      if target.Some? {
        g := g.(target := target.value, completed := g.current >= target.value);
      }
      if account.Some? {
        g := g.(account := account.value);
      }
      goals := goals[id := g];
      r := Ok(());
    }

    /** Delete a goal with its rows; a transfer is managed for savings only as long as some row has it. */
    method DeleteGoal(id: Id) returns (r: Result<()>)
      requires Valid()
      modifies this, ledger
      ensures Valid()
      ensures Tables() == Committed(old(Tables()), Savings.DeleteGoal(old(Tables()), id))
      ensures r == Answer(Savings.DeleteGoal(old(Tables()), id), ())
    {
      hide PotsSound;
      DeletionIsAccepted(Tables(), id);
      if id !in goals {
        return Err(NotFound);
      }
      ledger.managers := ledger.managers - Freed(Tables(), id);
      goals, rows := goals - {id}, RowsOfOthers(rows, id);
      r := Ok(());
    }

    // -------------------------------------------------------------- transfers and assignments

    /** Create a transaction managed by savings. */
    method CreateManagedTransaction(t: Transaction, m: Manager) returns (r: Result<Id>)
      requires ledger.Valid()
      modifies ledger
      ensures ledger.Valid()
      ensures r == Answer(CreateManaged(old(ledger.Tables()), t, m), old(ledger.nextId))
      ensures ledger.Tables() == Committed(old(ledger.Tables()), CreateManaged(old(ledger.Tables()), t, m))
    {
      hide Consistent, Ledger.CreateTransaction;
      ghost var before := ledger.Tables();
      if Perform(before, NewManaged(t, m)).Ok? {
        PerformKeeps(before, NewManaged(t, m));
      }
      r := ledger.CreateTransaction(t);
      if r.Ok? {
        ledger.managers := ledger.managers[r.value := m];
      }
    }

    /** An ordinary transaction under an optional key: insert it, or find the row that has the key. */
    method CreateTransaction(key: Option<string>, t: Transaction) returns (r: Result<Id>)
      requires Valid()
      modifies this`keys, ledger
      ensures Valid()
      ensures var change := CreateMaybeKeyed(old(Tables()), key, t);
              && Tables() == Committed(old(Tables()), change)
              && r == Answer(change, if key.Some? && KeyInUse(old(Tables()), key.value) then old(keys)[key.value] else old(ledger.nextId))
    {
      hide PotsSound, Consistent, ValidShape, ValidateAccounts, Ledger.CreateTransaction;
      ghost var before := Tables();
      if CreateMaybeKeyed(before, key, t).Ok? {
        MaybeKeyedKeeps(before, key, t);
      }
      SoundBooks(before);
      if key.None? {
        r := ledger.CreateTransaction(t);
        return;
      }
      if t.purchase.Some? {
        return Err(InstallmentManaged);
      }
      if !ValidShape(t) {
        return Err(InvalidTransactionShape);
      }
      var _ :- ValidateAccounts(ledger.Tables(), t);
      if key.value in keys && keys[key.value] in ledger.transactions {
        var id := keys[key.value];
        if ledger.transactions[id] == t {
          return Ok(id);
        }
        return Err(IdempotencyConflict);
      }
      r := ledger.CreateTransaction(t);
      if r.Ok? {
        keys := keys[key.value := r.value];
      }
    }

    method Save(goal: Id, input: SaveInput) returns (r: Result<()>)
      requires Valid()
      modifies this, ledger
      ensures Valid()
      ensures Tables() == Committed(old(Tables()), Savings.Save(old(Tables()), goal, input))
      ensures r == Answer(Savings.Save(old(Tables()), goal, input), ())
    {
      hide PotsSound, CheckSave, SaveTransfer, FindTransaction, ApplyDelta, CreateManaged, Consistent;
      ghost var before := Tables();
      if Savings.Save(before, goal, input).Ok? {
        SaveKeeps(before, goal, input);
      }
      SoundBooks(before);
      var _ :- CheckSave(Tables(), goal, input);
      var _ :- ValidateAccounts(ledger.Tables(), SaveTransfer(input));
      if input.key in keys && keys[input.key] in ledger.transactions {
        var t := keys[input.key];
        if ledger.transactions[t] != SaveTransfer(input) {
          return Err(IdempotencyConflict);
        }
        var row := FindTransaction(rows, t);
        if row.None? || row.value.goal != goal || row.value.account != Some(input.destination) || row.value.amount != input.amount {
          return Err(IdempotencyConflict);
        }
        return Ok(());
      }
      var saved := Tables();
      var created := CreateManagedTransaction(SaveTransfer(input), SavingsAllocation);
      if created.Err? {
        return Err(created.error);
      }
      rows := rows + [Allocation(goal, Some(input.destination), input.amount, Saved, input.on, None, Some(created.value), tick)];
      keys, tick := keys[input.key := created.value], tick + 1;
      var applied := ApplyGoalDelta(goal, input.amount, Some(input.destination));
      if applied.Err? {
        Rollback(saved);
        return Err(applied.error);
      }
      r := Ok(());
    }

    method Allocate(goal: Id, input: AssignInput) returns (r: Result<()>)
      requires Valid()
      modifies this, ledger
      ensures Valid()
      ensures Tables() == Committed(old(Tables()), Savings.Allocate(old(Tables()), goal, input))
      ensures r == Answer(Savings.Allocate(old(Tables()), goal, input), ())
    {
      hide PotsSound, CheckCurrency, FindKey, ApplyDelta, AssignedIn, Held;
      ghost var before := Tables();
      if Savings.Allocate(before, goal, input).Ok? {
        AllocateKeeps(before, goal, input);
      }
      var _ :- CheckAssign(Tables(), goal, input);
      var existing := FindKey(rows, input.key);
      var kind := Assigned;
      if input.amount < 0 {
        kind := Released;
      }
      if existing.Some? {
        var row := existing.value;
        if row.goal != goal || row.account != Some(input.account) || row.amount != input.amount || row.on != input.on || row.kind != kind {
          return Err(IdempotencyConflict);
        }
        return Ok(());
      }
      var total, held := AssignedIn(rows, input.account), Held(rows, goal, Some(input.account));
      if input.amount > 0 {
        if input.amount > ledger.accounts[input.account].balance.value - total {
          return Err(InsufficientUnallocatedSavings);
        }
      } else if -input.amount > held {
        return Err(InsufficientGoalAllocation);
      }
      var saved := Tables();
      rows := rows + [Allocation(goal, Some(input.account), input.amount, kind, input.on, Some(input.key), None, tick)];
      tick := tick + 1;
      var applied := ApplyGoalDelta(goal, input.amount, Some(input.account));
      if applied.Err? {
        Rollback(saved);
        return Err(applied.error);
      }
      r := Ok(());
    }

    method Reallocate(from: Id, input: MoveInput) returns (r: Result<()>)
      requires Valid()
      modifies this, ledger
      ensures Valid()
      ensures Tables() == Committed(old(Tables()), Savings.Reallocate(old(Tables()), from, input))
      ensures r == Answer(Savings.Reallocate(old(Tables()), from, input), ())
    {
      hide PotsSound, CheckMove, FindKey, FindPair, ApplyDelta, Held;
      ghost var before := Tables();
      if Savings.Reallocate(before, from, input).Ok? {
        ReallocateKeeps(before, from, input);
      }
      var _ :- CheckMove(Tables(), from, input);
      var existing := FindKey(rows, input.key);
      if existing.Some? {
        var out, pair := existing.value, FindPair(rows, existing.value.operation);
        if pair.None? || out.goal != from || pair.value.goal != input.to || out.account != Some(input.account)
           || out.amount != -input.amount || pair.value.amount != input.amount || out.on != input.on {
          return Err(IdempotencyConflict);
        }
        return Ok(());
      }
      if input.amount > Held(rows, from, Some(input.account)) {
        return Err(InsufficientGoalAllocation);
      }
      var saved, operation := Tables(), tick;
      rows := rows + [Allocation(from, Some(input.account), -input.amount, Moved, input.on, Some(input.key), None, operation)];
      rows := rows + [Allocation(input.to, Some(input.account), input.amount, Moved, input.on, None, None, operation)];
      assert rows == saved.rows + [Allocation(from, Some(input.account), -input.amount, Moved, input.on, Some(input.key), None, operation),
                                   Allocation(input.to, Some(input.account), input.amount, Moved, input.on, None, None, operation)];
      tick := tick + 1;
      var lowered := ApplyGoalDelta(from, -input.amount, None);
      if lowered.Err? {
        Rollback(saved);
        return Err(lowered.error);
      }
      var raised := ApplyGoalDelta(input.to, input.amount, Some(input.account));
      if raised.Err? {
        Rollback(saved);
        return Err(raised.error);
      }
      r := Ok(());
    }

    // -------------------------------------------------------------- yield

    /** What every goal holds in the account, goals in ascending order. */
    method HeldInAccount(account: Id) returns (held: seq<Share>)
      ensures held == HeldBy(rows, account, GoalsIn(rows, account))
    {
      hide Held, InsertId;
      var candidates := [];
      for i := 0 to |rows|
        invariant candidates == GoalsIn(rows[..i], account)
      {
        assert rows[..i + 1][..i] == rows[..i];
        if rows[i].account == Some(account) {
          candidates := InsertId(candidates, rows[i].goal);
        }
      }
      assert rows[..|rows|] == rows;
      held := [];
      for i := 0 to |candidates|
        invariant held == HeldBy(rows, account, candidates[..i])
      {
        assert candidates[..i + 1][..i] == candidates[..i];
        held := held + [Share(candidates[i], Held(rows, candidates[i], Some(account)))];
      }
      assert candidates[..|candidates|] == candidates;
    }

    /** `distributeYield`: insert one row for each share and credit its goal. */
    method DistributeYield(account: Id, operation: nat, on: Date, gain: int, balance: int) returns (r: Result<()>)
      modifies this`goals, this`rows
      ensures var shares := SharesOf(gain, balance, HeldBy(old(rows), account, GoalsIn(old(rows), account)));
              && r == Answer(CreditShares(old(goals), shares, account), ())
              && (r.Ok? ==> goals == CreditShares(old(goals), shares, account).value
                            && rows == old(rows) + ShareRows(shares, account, on, operation))
    {
      hide HeldBy, GoalsIn, Split, Denominator, ApplyDelta, SharesOf;
      var held := HeldInAccount(account);
      var shares := YieldShares.YieldShares(gain, balance, held);
      assert shares[0..] == shares;
      for i := 0 to |shares|
        invariant CreditShares(old(goals), shares, account) == CreditShares(goals, shares[i..], account)
        invariant rows + ShareRows(shares[i..], account, on, operation) == old(rows) + ShareRows(shares, account, on, operation)
      {
        var row := ShareRow(shares[i], account, on, operation);
        assert shares[i..][1..] == shares[i + 1..];
        assert rows + ShareRows(shares[i..], account, on, operation) == (rows + [row]) + ShareRows(shares[i + 1..], account, on, operation);
        rows := rows + [row];
        var applied := ApplyGoalDelta(shares[i].goal, shares[i].amount, Some(account));
        if applied.Err? {
          return Err(applied.error);
        }
      }
      assert shares[|shares|..] == [] && rows + [] == rows;
      r := Ok(());
    }

    /** `applyReconciliationAdjustment`. */
    method ApplyAdjustment(account: Id, delta: int) returns (r: Result<()>)
      modifies ledger
      ensures r == Answer(Adjust(old(ledger.Tables()), account, delta), ())
      ensures r.Ok? ==> ledger.Tables() == Adjust(old(ledger.Tables()), account, delta).value
    {
      var moved := ledger.UpdateMaterializedBalance(account, delta);
      if moved.Err? {
        return Err(moved.error);
      }
      ledger.entries := ledger.entries + [Entry(account, Reconciliation, delta)];
      r := Ok(());
    }

    method BookTheYield(account: Id, input: YieldInput, adjustment: int) returns (r: Result<Option<Id>>)
      requires ledger.Valid()
      modifies ledger
      ensures r == Answer(BookYield(old(ledger.Tables()), account, input, adjustment), if input.gain > 0 then Some(old(ledger.nextId)) else None)
      ensures r.Ok? ==> ledger.Tables() == BookYield(old(ledger.Tables()), account, input, adjustment).value
    {
      hide Consistent, CreateManaged, Adjust, YieldIncome;
      var transaction: Option<Id> := None;
      if input.gain > 0 {
        var created := CreateManagedTransaction(YieldIncome(account, input), YieldReconciliation);
        if created.Err? {
          return Err(created.error);
        }
        transaction := Some(created.value);
      }
      if adjustment != 0 {
        var adjusted := ApplyAdjustment(account, adjustment);
        if adjusted.Err? {
          return Err(adjusted.error);
        }
      }
      r := Ok(transaction);
    }

    method ReconcileYield(account: Id, input: YieldInput, today: Date) returns (r: Result<()>)
      requires Valid()
      modifies this, ledger
      ensures Valid()
      ensures Tables() == Committed(old(Tables()), Savings.ReconcileYield(old(Tables()), account, input, today))
      ensures r == Answer(Savings.ReconcileYield(old(Tables()), account, input, today), ())
    {
      hide PotsSound, CheckYield, BookYield, CreditShares, SharesOf, HeldBy, GoalsIn, Consistent, ShareRows;
      ghost var before := Tables();
      SoundBooks(before);
      var _ :- CheckYield(Tables(), account, input, today);
      CheckedYield(before, account, input, today);
      var saved, balance := Tables(), ledger.accounts[account].balance.value;
      var delta := input.balance - balance;
      var adjustment := delta - input.gain;
      var booked := BookTheYield(account, input, adjustment);
      if booked.Err? {
        Rollback(saved);
        return Err(booked.error);
      }
      var operation := tick;
      reconciliations := reconciliations + [Reconciled(account, input.on, balance, input.balance, input.gain, adjustment, booked.value, operation)];
      tick := tick + 1;
      var distributed := DistributeYield(account, operation, input.on, input.gain, balance);
      if distributed.Err? {
        Rollback(saved);
        return Err(distributed.error);
      }
      reconciledOn := reconciledOn[account := input.on];
      r := Ok(());
      ReconcileIsAccepted(before, account, input, today);
    }

    /** Take the shares of an operation back from their goals, then delete their rows. */
    method TakeBackShares(operation: nat) returns (r: Result<()>)
      modifies this`goals, this`rows
      ensures r == Answer(DebitShares(old(goals), CreditedBy(old(rows), operation)), ())
      ensures r.Ok? ==> goals == DebitShares(old(goals), CreditedBy(old(rows), operation)).value && rows == WithoutShares(old(rows), operation)
    {
      hide CreditedBy, WithoutShares, ApplyDelta;
      var shares := CreditedBy(rows, operation);
      assert shares[0..] == shares;
      for i := 0 to |shares|
        invariant rows == old(rows)
        invariant DebitShares(old(goals), shares) == DebitShares(goals, shares[i..])
      {
        assert shares[i..][1..] == shares[i + 1..];
        var applied := ApplyGoalDelta(shares[i].goal, -shares[i].amount, None);
        if applied.Err? {
          return Err(applied.error);
        }
      }
      assert shares[|shares|..] == [];
      rows := WithoutShares(rows, operation);
      r := Ok(());
    }

    /** Reverse the income and the adjustment of a record. */
    method TakeBackYield(record: Reconciled) returns (r: Result<()>)
      requires ledger.Valid()
      modifies ledger
      ensures r == Answer(UnbookYield(old(ledger.Tables()), record), ())
      ensures r.Ok? ==> ledger.Tables() == UnbookYield(old(ledger.Tables()), record).value
    {
      hide Consistent, Remove, Adjust;
      if record.transaction.Some? {
        if record.transaction.value !in ledger.managers {
          return Err(NotFound);
        }
        var removed := ledger.RemoveTransaction(record.transaction.value);
        if removed.Err? {
          return Err(removed.error);
        }
      }
      if record.adjustment != 0 {
        var adjusted := ApplyAdjustment(record.account, -record.adjustment);
        if adjusted.Err? {
          return Err(adjusted.error);
        }
      }
      r := Ok(());
    }

    method UndoYield(account: Id, id: nat) returns (r: Result<()>)
      requires Valid()
      modifies this, ledger
      ensures Valid()
      ensures Tables() == Committed(old(Tables()), Savings.UndoYield(old(Tables()), account, id))
      ensures r == Answer(Savings.UndoYield(old(Tables()), account, id), ())
    {
      hide PotsSound, CheckUndo, UnbookYield, DebitShares, CreditedBy, WithoutShares, LatestOf, Redated, Consistent, FindRecord;
      ghost var before := Tables();
      SoundBooks(before);
      if account !in ledger.accounts {
        return Err(NotFound);
      }
      var found := FindRecord(reconciliations, id);
      if found.None? || reconciliations[found.value].account != account {
        return Err(NotFound);
      }
      if LatestOf(reconciliations, account) != found {
        return Err(YieldNotLatest);
      }
      var k := found.value;
      var record, saved := reconciliations[k], Tables();
      var checked := CheckUndo(saved, record);
      if checked.Err? {
        return Err(checked.error);
      }
      var taken := TakeBackShares(record.operation);
      if taken.Err? {
        Rollback(saved);
        return Err(taken.error);
      }
      reconciliations := reconciliations[..k] + reconciliations[k + 1..];
      var unbooked := TakeBackYield(record);
      if unbooked.Err? {
        Rollback(saved);
        return Err(unbooked.error);
      }
      reconciledOn := Redated(reconciliations, account, reconciledOn);
      r := Ok(());
      UndoIsAccepted(before, account, id);
    }
  }
}
