/** Money saved into a goal stays saved as long as the goal does: only deleting the goal frees the transfer behind it. */
module SavedMoney {
  import opened Calendar
  import opened Common
  import opened Ledger
  import opened LedgerLaws
  import opened ManagedLaws
  import opened Savings
  import opened SavingsLaws
  import opened YieldLaws

  /** The transaction of a transfer into a goal. */
  ghost predicate SavedInto(p: Pots, t: Id, goal: Id) {
    && t in p.books.managers && p.books.managers[t] == SavingsAllocation
    && exists r <- p.rows :: r.kind == Saved && r.transaction == Some(t) && r.goal == goal
  }

  lemma {:induction false} PostedRows(b: Books, es: seq<Entry>)
    requires PostAll(b, es).Ok?
    ensures PostAll(b, es).value.transactions == b.transactions && PostAll(b, es).value.purchases == b.purchases
    ensures PostAll(b, es).value.managers == b.managers
    decreases |es|
  {
    hide MoveFunds;
    if es != [] {
      PostedRows(Post(b, es[0]).value, es[1..]);
    }
  }

  lemma CreatedRows(b: Books, t: Transaction)
    requires CreateTransaction(b, t).Ok?
    ensures var r := CreateTransaction(b, t).value;
            r.transactions == b.transactions[b.nextId := t] && r.purchases == b.purchases && r.managers == b.managers
  {
    hide Deltas, ValidShape, ValidateAccounts, PostAll;
    var next := b.(nextId := b.nextId + 1);
    if t.affectsBalance {
      PostedRows(next.(transactions := next.transactions[b.nextId := t]), Deltas(b.nextId, t).value);
    }
  }

  lemma {:induction false} NoShareIsDropped(rows: seq<Allocation>, operation: nat, r: Allocation)
    requires r in rows && r.kind != Yielded
    ensures r in WithoutShares(rows, operation)
  {
    var init, last := rows[..|rows| - 1], rows[|rows| - 1];
    assert init + [last] == rows;
    if r != last {
      NoShareIsDropped(init, operation, r);
    }
  }

  lemma StaysSaved(p: Pots, after: Pots, t: Id, g: Id)
    requires SavedInto(p, t, g) && t in after.books.managers && after.books.managers[t] == p.books.managers[t]
    requires forall r <- p.rows :: r.kind != Yielded ==> r in after.rows
    ensures SavedInto(after, t, g)
  {
    var r :| r in p.rows && r.kind == Saved && r.transaction == Some(t) && r.goal == g;
    assert r in after.rows;
  }

  lemma ManagedIsOld(p: Pots, t: Id)
    requires PotsSound(p) && t in p.books.managers
    ensures t in p.books.transactions && t < p.books.nextId
  {
    hide Agrees, GoalsAgree, RecordsBacked, RecordsTracked, DatesAgree, SharesLinked;
  }

  lemma ReconcileParts(p: Pots, account: Id, input: YieldInput, today: Date)
    requires ReconcileYield(p, account, input, today).Ok?
    ensures CheckYield(p, account, input, today).Ok?
    ensures account in p.books.accounts && p.books.accounts[account].balance.Some?
    ensures var after, r := ReconcileYield(p, account, input, today).value, RecordOf(p, account, input);
            p.rows <= after.rows && BookYield(p.books, account, input, r.adjustment) == Ok(after.books)
  {
    hide BookYield, CreditShares, ShareRows, YieldSplit;
  }

  lemma SavedSurvivesYield(p: Pots, account: Id, input: YieldInput, today: Date, t: Id, g: Id)
    requires PotsSound(p) && SavedInto(p, t, g) && ReconcileYield(p, account, input, today).Ok?
    ensures SavedInto(ReconcileYield(p, account, input, today).value, t, g)
  {
    assert t in p.books.managers;
    hide *;
    ManagedIsOld(p, t);
    ReconcileParts(p, account, input, today);
    YieldManagers(p.books, account, input, RecordOf(p, account, input).adjustment);
    StillThere(p.rows, ReconcileYield(p, account, input, today).value.rows);
    StaysSaved(p, ReconcileYield(p, account, input, today).value, t, g);
  }

  lemma YieldManagers(b: Books, account: Id, input: YieldInput, adjustment: int)
    requires BookYield(b, account, input, adjustment).Ok?
    ensures forall t <- b.managers :: t < b.nextId ==>
              var after := BookYield(b, account, input, adjustment).value; t in after.managers && after.managers[t] == b.managers[t]
  {
    hide CreateTransaction, MoveFunds, YieldIncome;
    if input.gain > 0 {
      CreatedRows(b, YieldIncome(account, input));
    }
  }

  lemma StillThere(rows: seq<Allocation>, more: seq<Allocation>)
    requires rows <= more
    ensures forall r <- rows :: r in more
  {
    forall r <- rows ensures r in more {
      var i :| 0 <= i < |rows| && rows[i] == r;
      assert more[i] == r;
    }
  }

  lemma UnbookedManagers(b: Books, r: Reconciled)
    requires UnbookYield(b, r).Ok?
    ensures UnbookYield(b, r).value.managers == if r.transaction.Some? then b.managers - {r.transaction.value} else b.managers
  {
    hide Reverse, Selected, Others, MoveFunds;
  }

  lemma SavedSurvivesUndo(p: Pots, account: Id, id: nat, t: Id, g: Id)
    requires PotsSound(p) && SavedInto(p, t, g) && UndoYield(p, account, id).Ok?
    ensures SavedInto(UndoYield(p, account, id).value, t, g)
  {
    assert t in p.books.managers && p.books.managers[t] == SavingsAllocation;
    hide *;
    UndoneParts(p, account, id);
    UndoneBooks(p, account, id);
    var k, after := FindRecord(p.reconciliations, id).value, UndoYield(p, account, id).value;
    var r := p.reconciliations[k];
    RecordIsYield(p, k);
    UnbookedManagers(p.books, r);
    forall row <- p.rows | row.kind != Yielded ensures row in after.rows {
      NoShareIsDropped(p.rows, r.operation, row);
    }
    StaysSaved(p, after, t, g);
  }

  lemma UndoneBooks(p: Pots, account: Id, id: nat)
    requires UndoYield(p, account, id).Ok?
    ensures FindRecord(p.reconciliations, id).Some?
    ensures UnbookYield(p.books, p.reconciliations[FindRecord(p.reconciliations, id).value]) == Ok(UndoYield(p, account, id).value.books)
  {
    hide CheckUndo, LatestOf, DebitShares, WithoutShares, Redated, CreditedBy, UnbookYield;
  }

  lemma RecordIsYield(p: Pots, k: nat)
    requires PotsSound(p) && k < |p.reconciliations|
    ensures var t := p.reconciliations[k].transaction;
            t.Some? ==> t.value in p.books.managers && p.books.managers[t.value] == YieldReconciliation
  {
    hide Consistent, GoalsAgree, Stamped, DatesAgree, SharesLinked;
    RecordFacts(p.books, p.reconciliations, k);
  }

  lemma SavedIsBacking(p: Pots, t: Id, g: Id)
    requires SavedInto(p, t, g)
    ensures Backing(p, t)
  {
    var row :| row in p.rows && row.kind == Saved && row.transaction == Some(t) && row.goal == g;
    var i :| 0 <= i < |p.rows| && p.rows[i] == row;
  }

  lemma SavedSurvivesRequest(p: Pots, r: Request, t: Id, g: Id)
    requires PotsSound(p) && SavedInto(p, t, g) && Take(p, Elsewhere(r)).Ok?
    ensures SavedInto(Take(p, Elsewhere(r)).value, t, g)
  {
    SoundBooks(p);
    SavedIsBacking(p, t, g);
    hide PotsSound, Perform, Selected, Consistent, Backing;
    ManagedStays(p.books, r, t);
    StaysSaved(p, Take(p, Elsewhere(r)).value, t, g);
  }

  lemma SavedSurvivesCreation(p: Pots, after: Pots, r: Request, t: Id, g: Id)
    requires PotsSound(p) && SavedInto(p, t, g) && !r.DropManaged? && Perform(p.books, r) == Ok(after.books)
    requires p.rows <= after.rows
    ensures SavedInto(after, t, g)
  {
    SoundBooks(p);
    hide PotsSound, Perform, Selected, Consistent;
    ManagedStays(p.books, r, t);
    StillThere(p.rows, after.rows);
    StaysSaved(p, after, t, g);
  }

  lemma SavedSurvivesDeletion(p: Pots, goal: Id, t: Id, g: Id)
    requires SavedInto(p, t, g) && goal != g && DeleteGoal(p, goal).Ok?
    ensures SavedInto(DeleteGoal(p, goal).value, t, g)
  {
    OthersArePart(p.rows, goal);
    var row :| row in p.rows && row.kind == Saved && row.transaction == Some(t) && row.goal == g;
    var kept := RowsOfOthers(p.rows, goal);
    var i :| 0 <= i < |kept| && kept[i] == row;
    hide RowsOfOthers;
  }

  /** No request takes back the transfer behind saved money, except the one that deletes its goal. */
  lemma SavedStays(p: Pots, step: Step, t: Id, g: Id)
    requires PotsSound(p) && SavedInto(p, t, g) && step != DropGoal(g) && Take(p, step).Ok?
    ensures SavedInto(Take(p, step).value, t, g)
  {
    hide PotsSound, SavedInto, CheckSave, CheckAssign, CheckMove, ApplyDelta, ValidShape, ValidateAccounts, CreateTransaction, FindKey, FindPair,
         FindTransaction, ReconcileYield, UndoYield, UpdateGoal, DeleteGoal, LiveKeys;
    var after := Take(p, step).value;
    match step {
      case NewGoal(_, _, _) => SameSaved(p, after, t, g);
      case EditGoal(goal, target, account) => SavedSurvivesEdit(p, goal, target, account, t, g);
      case DropGoal(goal) => SavedSurvivesDeletion(p, goal, t, g);
      case SaveTo(goal, input) =>
        if !KeyInUse(p, input.key) {
          SavedSurvivesCreation(p, after, NewManaged(SaveTransfer(input), SavingsAllocation), t, g);
        }
      case AssignTo(_, _) => SameSaved(p, after, t, g);
      case MoveFrom(_, _) => SameSaved(p, after, t, g);
      case MatchYield(account, input, today) => SavedSurvivesYield(p, account, input, today, t, g);
      case UndoMatch(account, id) =>
        SavedSurvivesUndo(p, account, id, t, g);
        SavedWithoutKeys(UndoYield(p, account, id).value, t, g);
      case Keyed(key, x) =>
        if !KeyInUse(p, key) {
          SavedSurvivesCreation(p, after, NewTransaction(x), t, g);
        }
      case Elsewhere(r) => SavedSurvivesRequest(p, r, t, g);
    }
  }

  lemma SameSaved(p: Pots, after: Pots, t: Id, g: Id)
    requires SavedInto(p, t, g) && after.books == p.books && p.rows <= after.rows
    ensures SavedInto(after, t, g)
  {
    var row :| row in p.rows && row.kind == Saved && row.transaction == Some(t) && row.goal == g;
    var i :| 0 <= i < |p.rows| && p.rows[i] == row;
    assert after.rows[i] == row;
  }

  lemma SavedSurvivesEdit(p: Pots, goal: Id, target: Option<int>, account: Option<Option<Id>>, t: Id, g: Id)
    requires SavedInto(p, t, g) && UpdateGoal(p, goal, target, account).Ok?
    ensures SavedInto(UpdateGoal(p, goal, target, account).value, t, g)
  {
    SameSaved(p, UpdateGoal(p, goal, target, account).value, t, g);
  }

  lemma SavedWithoutKeys(p: Pots, t: Id, g: Id)
    requires SavedInto(p, t, g)
    ensures SavedInto(LiveKeys(p), t, g)
  {
    SameSaved(p, LiveKeys(p), t, g);
  }

  // ---------------------------------------------------------------- rows and their transfers

  function RowsWith(rows: seq<Allocation>, t: Id): nat {
    if rows == [] then 0
    else RowsWith(rows[..|rows| - 1], t) + if rows[|rows| - 1].transaction == Some(t) then 1 else 0
  }

  ghost predicate RowLinked(p: Pots, r: Allocation) {
    r.transaction.Some? ==> r.kind == Saved && SavedInto(p, r.transaction.value, r.goal)
  }

  /** Every row with a transaction manages it, and no two rows have the same one. */
  ghost predicate RowsLinked(p: Pots) {
    && (forall r <- p.rows :: RowLinked(p, r))
    && (forall t: Id :: RowsWith(p.rows, t) <= 1)
  }

  lemma RowsWithMore(rows: seq<Allocation>, r: Allocation, t: Id)
    ensures RowsWith(rows + [r], t) == RowsWith(rows, t) + if r.transaction == Some(t) then 1 else 0
  {
    assert (rows + [r])[..|rows|] == rows;
  }

  lemma {:induction false} RowsWithAny(rows: seq<Allocation>, t: Id)
    ensures RowsWith(rows, t) > 0 <==> exists r <- rows :: r.transaction == Some(t)
  {
    if rows != [] {
      var init, last := rows[..|rows| - 1], rows[|rows| - 1];
      RowsWithAny(init, t);
      assert init + [last] == rows;
      if r :| r in rows && r.transaction == Some(t) && r != last {
        assert r in init;
      }
    }
  }

  /** Rows without a transaction are not counted. */
  lemma {:induction false} RowsWithNone(rows: seq<Allocation>, more: seq<Allocation>, t: Id)
    requires forall i :: 0 <= i < |more| ==> more[i].transaction.None?
    ensures RowsWith(rows + more, t) == RowsWith(rows, t)
    decreases |more|
  {
    hide RowsWith;
    if more == [] {
      assert rows + more == rows;
    } else {
      var init, last := more[..|more| - 1], more[|more| - 1];
      assert rows + more == (rows + init) + [last];
      RowsWithNone(rows, init, t);
      RowsWithMore(rows + init, last, t);
    }
  }

  lemma {:induction false} RowsWithLess(rows: seq<Allocation>, operation: nat, goal: Id, t: Id)
    ensures RowsWith(WithoutShares(rows, operation), t) <= RowsWith(rows, t)
    ensures RowsWith(RowsOfOthers(rows, goal), t) <= RowsWith(rows, t)
  {
    if rows != [] {
      var init, last := rows[..|rows| - 1], rows[|rows| - 1];
      RowsWithLess(init, operation, goal, t);
      RowsWithMore(WithoutShares(init, operation), last, t);
      RowsWithMore(RowsOfOthers(init, goal), last, t);
      assert WithoutShares(init, operation) + [] == WithoutShares(init, operation);
      assert RowsOfOthers(init, goal) + [] == RowsOfOthers(init, goal);
    }
  }

  /** The row of a new transfer, if the step makes one. */
  predicate Transferred(p: Pots, step: Step, r: Allocation) {
    step.SaveTo? && !KeyInUse(p, step.save.key) && r.transaction == Some(p.books.nextId) && r.kind == Saved && r.goal == step.goal
  }

  /** Rows that stay keep their transfers; of the new ones only that of a transfer has one. */
  ghost predicate OldOrTransferred(p: Pots, step: Step, after: seq<Allocation>) {
    && (forall r <- after :: r.transaction.Some? ==> (r in p.rows && step != DropGoal(r.goal)) || Transferred(p, step, r))
    && (forall t: Id :: RowsWith(after, t) <= RowsWith(p.rows, t) + if step.SaveTo? && !KeyInUse(p, step.save.key) && t == p.books.nextId then 1 else 0)
  }

  lemma AppendedRows(p: Pots, step: Step, more: seq<Allocation>)
    requires !step.DropGoal? && forall i :: 0 <= i < |more| ==> more[i].transaction.None?
    ensures OldOrTransferred(p, step, p.rows + more)
  {
    forall t: Id ensures RowsWith(p.rows + more, t) == RowsWith(p.rows, t) {
      RowsWithNone(p.rows, more, t);
    }
    hide RowsWith;
  }

  lemma RowsOfSaving(p: Pots, step: Step)
    requires step.SaveTo? && Save(p, step.goal, step.save).Ok?
    ensures OldOrTransferred(p, step, Save(p, step.goal, step.save).value.rows)
  {
    hide CheckSave, ApplyDelta, CreateManaged, ValidateAccounts, FindTransaction, RowsWith;
    var after := Save(p, step.goal, step.save).value;
    if !KeyInUse(p, step.save.key) {
      forall t: Id ensures RowsWith(after.rows, t) == RowsWith(p.rows, t) + if t == p.books.nextId then 1 else 0 {
        RowsWithMore(p.rows, after.rows[|p.rows|], t);
      }
    }
  }

  lemma RowsOfYield(p: Pots, step: Step)
    requires step.MatchYield? && ReconcileYield(p, step.account, step.gained, step.today).Ok?
    ensures OldOrTransferred(p, step, ReconcileYield(p, step.account, step.gained, step.today).value.rows)
  {
    ReconcileParts(p, step.account, step.gained, step.today);
    hide CheckYield, BookYield, CreditShares, YieldSplit, ShareRows, OldOrTransferred;
    var shares := YieldSplit(p, step.account, step.gained);
    ShareRowsAre(shares, step.account, step.gained.on, p.tick);
    AppendedRows(p, step, ShareRows(shares, step.account, step.gained.on, p.tick));
  }

  lemma RowsOfUndo(p: Pots, step: Step)
    requires step.UndoMatch? && UndoYield(p, step.account, step.record).Ok?
    ensures OldOrTransferred(p, step, UndoYield(p, step.account, step.record).value.rows)
  {
    hide *;
    UndoneParts(p, step.account, step.record);
    FewerRows(p, step, p.reconciliations[FindRecord(p.reconciliations, step.record).value].operation);
  }

  lemma FewerRows(p: Pots, step: Step, operation: nat)
    requires !step.DropGoal?
    ensures OldOrTransferred(p, step, WithoutShares(p.rows, operation))
  {
    WithoutIsPart(p.rows, operation);
    forall t: Id ensures RowsWith(WithoutShares(p.rows, operation), t) <= RowsWith(p.rows, t) {
      RowsWithLess(p.rows, operation, 0, t);
    }
    hide RowsWith, WithoutShares;
  }

  lemma RowsOfDeletion(p: Pots, goal: Id)
    ensures OldOrTransferred(p, DropGoal(goal), RowsOfOthers(p.rows, goal))
  {
    OthersArePart(p.rows, goal);
    forall t: Id ensures RowsWith(RowsOfOthers(p.rows, goal), t) <= RowsWith(p.rows, t) {
      RowsWithLess(p.rows, 0, goal, t);
    }
    hide RowsWith, RowsOfOthers;
  }

  lemma RowsOfStep(p: Pots, step: Step)
    requires Take(p, step).Ok?
    ensures OldOrTransferred(p, step, Take(p, step).value.rows)
  {
    hide CheckAssign, CheckMove, ApplyDelta, CreateTransaction, ValidShape, ValidateAccounts, FindKey, FindPair, Save, ReconcileYield, UndoYield, OldOrTransferred, RowsOfOthers, Perform;
    var rows := Take(p, step).value.rows;
    assert p.rows + [] == p.rows;
    match step {
      case SaveTo(_, _) => RowsOfSaving(p, step);
      case MatchYield(_, _, _) => RowsOfYield(p, step);
      case UndoMatch(_, _) => RowsOfUndo(p, step);
      case DropGoal(goal) => RowsOfDeletion(p, goal);
      case AssignTo(_, _) => AppendedRows(p, step, rows[|p.rows|..]);
      case MoveFrom(_, _) => AppendedRows(p, step, rows[|p.rows|..]);
      case Keyed(key, t) => AppendedRows(p, step, []);
      case _ => AppendedRows(p, step, []);
    }
  }

  lemma TransferSaves(p: Pots, goal: Id, input: SaveInput)
    requires Save(p, goal, input).Ok? && !KeyInUse(p, input.key)
    ensures var after := Save(p, goal, input).value;
            && SavedInto(after, p.books.nextId, goal) && after.keys == p.keys[input.key := p.books.nextId]
            && after.books.transactions == p.books.transactions[p.books.nextId := SaveTransfer(input)]
            && after.books.purchases == p.books.purchases
  {
    hide CheckSave, ApplyDelta, CreateTransaction, ValidateAccounts, FindTransaction;
    CreatedRows(p.books, SaveTransfer(input));
    var after := Save(p, goal, input).value;
    assert after.rows[|p.rows|] in after.rows;
  }

  /** No transaction yet to come has a row. */
  lemma NextHasNoRow(p: Pots)
    requires PotsSound(p) && RowsLinked(p)
    ensures RowsWith(p.rows, p.books.nextId) == 0
  {
    hide PotsSound, RowsWith;
    RowsWithAny(p.rows, p.books.nextId);
    if r :| r in p.rows && r.transaction == Some(p.books.nextId) {
      assert RowLinked(p, r);
      ManagedIsOld(p, p.books.nextId);
    }
  }

  lemma RowStaysLinked(p: Pots, step: Step, r: Allocation)
    requires PotsSound(p) && RowsLinked(p) && Take(p, step).Ok? && OldOrTransferred(p, step, Take(p, step).value.rows)
    requires r in Take(p, step).value.rows
    ensures RowLinked(Take(p, step).value, r)
  {
    hide PotsSound, Take, RowsWith, SavedInto;
    if r.transaction.Some? {
      if r in p.rows && step != DropGoal(r.goal) {
        assert RowLinked(p, r);
        SavedStays(p, step, r.transaction.value, r.goal);
      } else {
        NewRowIsLinked(p, step.goal, step.save);
        TakeSaves(p, step);
      }
    }
  }

  lemma TakeSaves(p: Pots, step: Step)
    requires step.SaveTo?
    ensures Take(p, step) == Save(p, step.goal, step.save)
  {
  }

  lemma NewRowIsLinked(p: Pots, goal: Id, input: SaveInput)
    ensures Save(p, goal, input).Ok? && !KeyInUse(p, input.key) ==> SavedInto(Save(p, goal, input).value, p.books.nextId, goal)
  {
    hide Save, SavedInto;
    if Save(p, goal, input).Ok? && !KeyInUse(p, input.key) {
      TransferSaves(p, goal, input);
    }
  }

  /** Every request keeps rows and transfers linked. */
  lemma TakeKeepsLinks(p: Pots, step: Step)
    requires PotsSound(p) && RowsLinked(p) && Take(p, step).Ok?
    ensures RowsLinked(Take(p, step).value)
  {
    RowsOfStep(p, step);
    NextHasNoRow(p);
    var after := Take(p, step).value;
    forall r <- after.rows ensures RowLinked(after, r) {
      RowStaysLinked(p, step, r);
    }
    hide PotsSound, Take, RowsWith, RowLinked;
  }

  /** A request on another resource keeps them too. */
  lemma CreationKeepsLinks(p: Pots, after: Pots, r: Request)
    requires PotsSound(p) && RowsLinked(p) && !r.DropManaged? && Perform(p.books, r) == Ok(after.books) && after.rows == p.rows
    ensures RowsLinked(after)
  {
    hide PotsSound, Perform, RowsWith, SavedInto;
    forall row <- p.rows ensures RowLinked(after, row) {
      assert RowLinked(p, row);
      if row.transaction.Some? {
        SavedSurvivesCreation(p, after, r, row.transaction.value, row.goal);
      }
    }
  }

  lemma LiveKeysKeepLinks(p: Pots)
    requires RowsLinked(p)
    ensures RowsLinked(LiveKeys(p))
  {
    hide LiveKeys, RowsWith;
    forall r <- p.rows ensures RowLinked(LiveKeys(p), r) {
      assert RowLinked(p, r);
      SameButKeys(p);
    }
    SameButKeys(p);
  }

  lemma SameButKeys(p: Pots)
    ensures LiveKeys(p) == p.(keys := LiveKeys(p).keys)
  {
  }

  /** Deleting the goal frees the transfer behind its money: it stays in the ledger and nothing manages it any more. */
  lemma DeletionFrees(p: Pots, t: Id, g: Id)
    requires PotsSound(p) && RowsLinked(p) && SavedInto(p, t, g) && g in p.goals
    ensures var after := DeleteGoal(p, g).value;
            && t in after.books.transactions && after.books.transactions == p.books.transactions
            && t !in after.books.managers
  {
    OthersArePart(p.rows, g);
    ManagedIsOld(p, t);
    BacksMeans(p.rows, t);
    BacksMeans(RowsOfOthers(p.rows, g), t);
    SameGoal(p, t, g);
    hide PotsSound, RowsOfOthers, Backs, RowsWith;
  }

  lemma BacksMeans(rows: seq<Allocation>, t: Id)
    ensures Backs(rows, t) <==> exists r <- rows :: r.transaction == Some(t)
  {
    if r :| r in rows && r.transaction == Some(t) {
      var i :| 0 <= i < |rows| && rows[i] == r;
    }
  }

  /** All rows with the transfer of a goal belong to it. */
  lemma SameGoal(p: Pots, t: Id, g: Id)
    requires RowsLinked(p) && SavedInto(p, t, g)
    ensures forall r <- p.rows :: r.transaction == Some(t) ==> r.goal == g
  {
    var row :| row in p.rows && row.kind == Saved && row.transaction == Some(t) && row.goal == g;
    forall r <- p.rows | r.transaction == Some(t) ensures r.goal == g {
      OneRowEach(p.rows, t, row, r);
    }
  }

  lemma {:induction false} OneRowEach(rows: seq<Allocation>, t: Id, a: Allocation, b: Allocation)
    requires RowsWith(rows, t) <= 1 && a in rows && b in rows && a.transaction == Some(t) && b.transaction == Some(t)
    ensures a == b
  {
    var init, last := rows[..|rows| - 1], rows[|rows| - 1];
    assert init + [last] == rows;
    RowsWithAny(init, t);
    if last.transaction != Some(t) {
      OneRowEach(init, t, a, b);
    }
  }
}
