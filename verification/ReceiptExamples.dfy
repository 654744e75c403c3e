/** Keys that store more than one row: a create, its deletion and a transfer into a goal, or one transfer after another
    whose goals are deleted. */
module ReceiptExamples {
  import opened Calendar
  import opened Common
  import opened Ledger
  import opened LedgerLaws
  import opened Receipts
  import opened SavedMoney
  import opened Savings
  import opened SavingsLaws
  import opened YieldExamples
  import opened YieldLaws

  function Again(s: Shelf, t: Transaction, goal: Id, input: SaveInput): seq<Order> {
    [Create(Some(input.key), TransactionDraft(t)), Other(Elsewhere(DropTransaction(s.pots.books.nextId))), Other(SaveTo(goal, input))]
  }

  /** Wherever a transaction can be created and money saved, an unused key can be used twice. */
  lemma DeletedKeyIsReused(s: Shelf, t: Transaction, goal: Id, input: SaveInput)
    requires Orderly(s) && Fresh(s, Slot(Transactions, input.key)) && CreateTransaction(s.pots.books, t).Ok?
    requires CheckSave(s.pots, goal, input).Ok? && ValidateAccounts(s.pots.books, SaveTransfer(input)).Ok?
    ensures Times(Insertion, s, Again(s, t, goal, input), Slot(Transactions, input.key)) == 2
  {
    var slot, orders := Slot(Transactions, input.key), Again(s, t, goal, input);
    var first := Serve(s, orders[0]).0;
    OrderlyBooks(s);
    hide *;
    FirstCreated(s, t, input.key);
    ServeKeeps(s, orders[0]);
    DropsIt(s, first, t, input.key);
    var second := Serve(first, orders[1]).0;
    ServeKeeps(first, orders[1]);
    SavesIt(s.pots, second, goal, input);
    ThreeOrders(s, orders, slot);
  }

  lemma OrderlyBooks(s: Shelf)
    requires Orderly(s)
    ensures PotsSound(s.pots) && RowsLinked(s.pots)
  {
  }

  /** A shelf with the tables of another one, counters and keys aside, saves what that one can. */
  lemma SavesIt(p: Pots, later: Shelf, goal: Id, input: SaveInput)
    requires Orderly(later) && Holder(later, Slot(Transactions, input.key)).None?
    requires later.pots == p.(books := p.books.(nextId := later.pots.books.nextId), keys := later.pots.keys, tick := later.pots.tick)
    requires CheckSave(p, goal, input).Ok? && ValidateAccounts(p.books, SaveTransfer(input)).Ok?
    ensures Inserts(later, Other(SaveTo(goal, input)), Slot(Transactions, input.key))
    ensures Serve(later, Other(SaveTo(goal, input))).1.Done?
  {
    SameCheck(p, later.pots, goal, input);
    hide Serve, Inserts, Orderly, CheckSave, ValidateAccounts, Holder, Settled;
    KeyMoves(later, Other(SaveTo(goal, input)), Slot(Transactions, input.key));
    SavingIsServed(later, SaveTo(goal, input), Slot(Transactions, input.key));
  }

  lemma ThreeOrders(s: Shelf, orders: seq<Order>, slot: Slot)
    requires |orders| == 3
    requires Inserts(s, orders[0], slot)
    requires var first := Serve(s, orders[0]).0;
             && !Inserts(first, orders[1], slot)
             && Inserts(Serve(first, orders[1]).0, orders[2], slot)
    ensures Times(Insertion, s, orders, slot) == 2
  {
    hide Serve, Inserts;
    var first := Serve(s, orders[0]).0;
    var second := Serve(first, orders[1]).0;
    assert orders[1..][1..] == [orders[2]] && [orders[2]][1..] == [];
    assert Times(Insertion, second, [orders[2]], slot) == 1;
  }

  lemma FirstCreated(s: Shelf, t: Transaction, key: string)
    requires Orderly(s) && Fresh(s, Slot(Transactions, key)) && CreateTransaction(s.pots.books, t).Ok?
    ensures var o, slot := Create(Some(key), TransactionDraft(t)), Slot(Transactions, key);
            var after := Serve(s, o).0;
            && Inserts(s, o, slot) && slot in after.receipts && Holder(after, slot) == Some(s.pots.books.nextId)
            && after.pots == s.pots.(books := CreateTransaction(s.pots.books, t).value, keys := s.pots.keys[key := s.pots.books.nextId])
  {
    hide PotsSound, CreateTransaction, ValidShape, ValidateAccounts;
    CreationIsAdmitted(s.pots.books, t);
    NextIdIsFree(s, Slot(Transactions, key));
    CreatedIsStored(s.pots.books, t);
  }

  lemma CreationIsAdmitted(b: Books, t: Transaction)
    requires CreateTransaction(b, t).Ok?
    ensures t.purchase.None? && ValidShape(t) && ValidateAccounts(b, t).Ok?
  {
    hide ValidShape, ApplyEffects;
  }

  lemma CreatedIsStored(b: Books, t: Transaction)
    requires CreateTransaction(b, t).Ok?
    ensures b.nextId in CreateTransaction(b, t).value.transactions
  {
    CreatedRows(b, t);
  }

  /** Deleting the row leaves what there was before it, without the key. */
  lemma DropIsTaken(p: Pots, first: Pots, t: Transaction)
    requires PotsSound(p) && CreateTransaction(p.books, t).Ok? && first == p.(books := CreateTransaction(p.books, t).value, keys := first.keys)
    ensures Take(first, Elsewhere(DropTransaction(p.books.nextId))) == Ok(LiveKeys(p.(books := p.books.(nextId := p.books.nextId + 1), keys := first.keys)))
  {
    SoundBooks(p);
    hide *;
    DeleteUndoesCreate(p.books, t);
    TakesDeletion(first, p.books.nextId);
  }

  lemma TakesDeletion(p: Pots, id: Id)
    ensures Take(p, Elsewhere(DropTransaction(id)))
            == if DeleteTransaction(p.books, id).Err? then Err(DeleteTransaction(p.books, id).error)
               else Ok(LiveKeys(p.(books := DeleteTransaction(p.books, id).value)))
  {
    hide DeleteTransaction, LiveKeys;
  }

  lemma DeadKey(s: Shelf, pots: Pots, key: string)
    requires key in pots.keys && pots.keys[key] !in pots.books.transactions
    ensures Holder(LiveShelf(s.(pots := LiveKeys(pots))), Slot(Transactions, key)).None?
    ensures LiveShelf(s.(pots := LiveKeys(pots))).receipts == s.receipts
    ensures var after := LiveShelf(s.(pots := LiveKeys(pots))); after.pots == pots.(keys := after.pots.keys)
  {
  }

  lemma ServesStep(s: Shelf, step: Step)
    requires !step.Keyed? && Take(s.pots, step).Ok?
    ensures Serve(s, Other(step)) == (LiveShelf(s.(pots := Take(s.pots, step).value)), Done)
  {
    hide Take, LiveShelf;
  }

  lemma DropsIt(s: Shelf, first: Shelf, t: Transaction, key: string)
    requires PotsSound(s.pots) && CreateTransaction(s.pots.books, t).Ok?
    requires first.pots == s.pots.(books := CreateTransaction(s.pots.books, t).value, keys := s.pots.keys[key := s.pots.books.nextId])
    requires Slot(Transactions, key) in first.receipts
    ensures var o, slot := Other(Elsewhere(DropTransaction(s.pots.books.nextId))), Slot(Transactions, key);
            var after := Serve(first, o).0;
            && !Inserts(first, o, slot) && slot in after.receipts && Holder(after, slot).None?
            && after.pots == s.pots.(books := s.pots.books.(nextId := s.pots.books.nextId + 1), keys := after.pots.keys)
  {
    hide *;
    var step := Elsewhere(DropTransaction(s.pots.books.nextId));
    var dropped := s.pots.(books := s.pots.books.(nextId := s.pots.books.nextId + 1), keys := first.pots.keys);
    DropIsTaken(s.pots, first.pots, t);
    ServesStep(first, step);
    NextIsNew(s.pots);
    DeadKey(first, dropped, key);
    InsertsMeans(first, Other(step), Slot(Transactions, key));
  }

  /** Saving does not look at the counters, nor at keys other than its own. */
  lemma SameCheck(p: Pots, later: Pots, goal: Id, input: SaveInput)
    requires later == p.(books := p.books.(nextId := later.books.nextId), keys := later.keys, tick := later.tick)
    ensures CheckSave(later, goal, input) == CheckSave(p, goal, input)
    ensures ValidateAccounts(later.books, SaveTransfer(input)) == ValidateAccounts(p.books, SaveTransfer(input))
  {
  }

  // ---------------------------------------------------------------- a key used without end

  /** A new goal, a transfer into it, and the deletion of both. */
  function Round(p: Pots, input: SaveInput): seq<Order> {
    [Other(NewGoal(1, 0, None)), Other(SaveTo(p.tick, input)), Other(DropGoal(p.tick)), Other(Elsewhere(DropTransaction(p.books.nextId)))]
  }

  /** The tables are as they were, counters and keys aside. */
  predicate SameTables(p: Pots, later: Pots) {
    later == p.(books := p.books.(nextId := later.books.nextId), keys := later.keys, tick := later.tick)
  }

  function WithGoal(p: Pots): Pots {
    p.(goals := p.goals[p.tick := Goal(1, 0, None, false)], tick := p.tick + 1)
  }

  lemma OpensGoal(p: Pots)
    ensures CreateGoal(p, 1, 0, None) == Ok(WithGoal(p))
  {
  }

  lemma SaveForm(p: Pots, goal: Id, input: SaveInput)
    requires Save(p, goal, input).Ok? && !KeyInUse(p, input.key)
    ensures CreateTransaction(p.books, SaveTransfer(input)).Ok?
    ensures var row := Allocation(goal, Some(input.destination), input.amount, Saved, input.on, None, Some(p.books.nextId), p.tick);
            var after, made := Save(p, goal, input).value, CreateTransaction(p.books, SaveTransfer(input)).value;
            && goal in p.goals && goal in after.goals
            && after == p.(books := made.(managers := made.managers[p.books.nextId := SavingsAllocation]), goals := p.goals[goal := after.goals[goal]],
                           rows := p.rows + [row], keys := p.keys[input.key := p.books.nextId], tick := p.tick + 1)
  {
    hide CreateTransaction, CheckSave, ValidateAccounts, FindTransaction;
  }

  lemma {:induction false} NoRowsDropped(rows: seq<Allocation>, goal: Id)
    requires forall i :: 0 <= i < |rows| ==> rows[i].goal != goal
    ensures RowsOfOthers(rows, goal) == rows
  {
    if rows != [] {
      NoRowsDropped(rows[..|rows| - 1], goal);
    }
  }

  /** Deleting the goal of a transfer just made leaves the transfer as an ordinary transaction. */
  lemma DeletionUndoesSaving(p: Pots, input: SaveInput)
    requires PotsSound(p) && RowsLinked(p) && !KeyInUse(p, input.key) && Save(WithGoal(p), p.tick, input).Ok?
    ensures CreateTransaction(p.books, SaveTransfer(input)).Ok?
    ensures var saved := Save(WithGoal(p), p.tick, input).value;
            DeleteGoal(saved, p.tick) == Ok(p.(books := CreateTransaction(p.books, SaveTransfer(input)).value, keys := saved.keys, tick := p.tick + 2))
  {
    hide *;
    NewGoalIsApart(p);
    SavedAfterGoal(p, input);
    CreatedManagers(p.books, SaveTransfer(input));
    var saved, made := Save(WithGoal(p), p.tick, input).value, CreateTransaction(p.books, SaveTransfer(input)).value;
    DeletionOf(p, saved, made, saved.rows[|p.rows|], saved.goals[p.tick]);
  }

  lemma SavedAfterGoal(p: Pots, input: SaveInput)
    requires !KeyInUse(p, input.key) && Save(WithGoal(p), p.tick, input).Ok?
    ensures CreateTransaction(p.books, SaveTransfer(input)).Ok?
    ensures var saved, made := Save(WithGoal(p), p.tick, input).value, CreateTransaction(p.books, SaveTransfer(input)).value;
            && |saved.rows| == |p.rows| + 1 && p.tick in saved.goals
            && var row := saved.rows[|p.rows|];
               && row.goal == p.tick && row.transaction == Some(p.books.nextId)
               && saved == p.(books := made.(managers := made.managers[p.books.nextId := SavingsAllocation]),
                              goals := p.goals[p.tick := saved.goals[p.tick]], rows := p.rows + [row], keys := saved.keys, tick := p.tick + 2)
  {
    SaveForm(WithGoal(p), p.tick, input);
    hide CreateTransaction, Save;
  }

  lemma DeletionOf(p: Pots, saved: Pots, made: Books, row: Allocation, g: Goal)
    requires p.tick !in p.goals && RowsOfOthers(p.rows, p.tick) == p.rows
    requires p.books.nextId !in p.books.managers && !Backs(p.rows, p.books.nextId) && made.managers == p.books.managers
    requires row.goal == p.tick && row.transaction == Some(p.books.nextId)
    requires saved == p.(books := made.(managers := made.managers[p.books.nextId := SavingsAllocation]), goals := p.goals[p.tick := g],
                         rows := p.rows + [row], keys := saved.keys, tick := p.tick + 2)
    ensures DeleteGoal(saved, p.tick) == Ok(p.(books := made, keys := saved.keys, tick := p.tick + 2))
  {
    hide RowsOfOthers, Freed, Backs;
    OthersMore(p.rows, row, p.tick);
    OnlyItIsFreed(p, saved, row);
    assert saved.goals - {p.tick} == p.goals;
    assert p.books.managers[p.books.nextId := SavingsAllocation] - {p.books.nextId} == p.books.managers;
  }

  /** The next goal has no rows, and the next transaction neither a row nor a manager. */
  lemma NewGoalIsApart(p: Pots)
    requires PotsSound(p) && RowsLinked(p)
    ensures p.tick !in p.goals && RowsOfOthers(p.rows, p.tick) == p.rows
    ensures p.books.nextId !in p.books.managers && !Backs(p.rows, p.books.nextId)
  {
    hide Consistent, RecordsBacked, RecordsTracked, DatesAgree, SharesLinked, NeverNegative, GoalAgrees, RowLinked, RowsWith, Backs;
    NoRowsDropped(p.rows, p.tick);
    SoundBooks(p);
    NewIdIsUnused(p.books);
    NextHasNoRow(p);
    RowsWithAny(p.rows, p.books.nextId);
    BacksMeans(p.rows, p.books.nextId);
  }

  lemma CreatedManagers(b: Books, t: Transaction)
    requires CreateTransaction(b, t).Ok?
    ensures CreateTransaction(b, t).value.managers == b.managers
  {
    CreatedRows(b, t);
  }

  lemma OnlyItIsFreed(p: Pots, saved: Pots, row: Allocation)
    requires row.goal == p.tick && row.transaction == Some(p.books.nextId) && saved.rows == p.rows + [row]
    requires RowsOfOthers(saved.rows, p.tick) == p.rows && saved.books.managers == p.books.managers[p.books.nextId := SavingsAllocation]
    requires p.books.nextId !in p.books.managers && !Backs(p.rows, p.books.nextId)
    ensures Freed(saved, p.tick) == {p.books.nextId}
  {
    var t := p.books.nextId;
    assert saved.rows[|p.rows|].transaction == Some(t);
    forall x: Id | x != t && Backs(saved.rows, x) ensures Backs(p.rows, x) {
      var i :| 0 <= i < |saved.rows| && saved.rows[i].transaction == Some(x);
      assert p.rows[i].transaction == Some(x);
    }
  }

  /** A step other than a create ends in its tables, dead keys aside. */
  lemma Stepped(s: Shelf, step: Step)
    requires Orderly(s) && !step.Keyed? && Take(s.pots, step).Ok?
    ensures var after := Serve(s, Other(step)).0;
            Orderly(after) && after.receipts == s.receipts && after.pots == Take(s.pots, step).value.(keys := after.pots.keys)
    ensures Serve(s, Other(step)).1.Done?
  {
    ServesStep(s, step);
    ServeKeeps(s, Other(step));
    hide Take, Orderly, Serve;
  }

  lemma WithoutKeys(p: Pots, later: Pots, goal: Id)
    requires later == p.(keys := later.keys)
    ensures DeleteGoal(later, goal) == if DeleteGoal(p, goal).Err? then DeleteGoal(p, goal) else Ok(DeleteGoal(p, goal).value.(keys := later.keys))
    ensures CreateGoal(later, 1, 0, None) == Ok(WithGoal(p).(keys := later.keys))
  {
  }

  /** One round stores one row under the key, and leaves the tables as they were. */
  lemma RoundStoresOne(s: Shelf, goal: Id, input: SaveInput)
    requires Orderly(s) && Holder(s, Slot(Transactions, input.key)).None?
    requires CheckSave(s.pots, goal, input).Ok? && ValidateAccounts(s.pots.books, SaveTransfer(input)).Ok?
    ensures var orders, slot := Round(s.pots, input), Slot(Transactions, input.key);
            && Orderly(ServeAll(s, orders)) && Holder(ServeAll(s, orders), slot).None? && SameTables(s.pots, ServeAll(s, orders).pots)
            && Times(Insertion, s, orders, slot) == 1
  {
    var orders, slot := Round(s.pots, input), Slot(Transactions, input.key);
    var s1 := Serve(s, orders[0]).0;
    var s2 := Serve(s1, orders[1]).0;
    var s3 := Serve(s2, orders[2]).0;
    var s4 := Serve(s3, orders[3]).0;
    hide *;
    RoundOpens(s, goal, input);
    RoundSaves(s, s1, input);
    RoundDrops(s, s1, s2, input);
    RoundDeletes(s, s3, input);
    FourOrders(s, orders, slot);
  }

  lemma FourOrders(s: Shelf, orders: seq<Order>, slot: Slot)
    requires |orders| == 4
    requires var s1 := Serve(s, orders[0]).0;
             var s2 := Serve(s1, orders[1]).0;
             var s3 := Serve(s2, orders[2]).0;
             !Inserts(s, orders[0], slot) && Inserts(s1, orders[1], slot) && !Inserts(s2, orders[2], slot) && !Inserts(s3, orders[3], slot)
    ensures ServeAll(s, orders) == Serve(Serve(Serve(Serve(s, orders[0]).0, orders[1]).0, orders[2]).0, orders[3]).0
    ensures Times(Insertion, s, orders, slot) == 1
  {
    hide Serve, Inserts;
    var s1 := Serve(s, orders[0]).0;
    var s2 := Serve(s1, orders[1]).0;
    var s3 := Serve(s2, orders[2]).0;
    var rest := orders[1..][1..];
    assert orders[1..][0] == orders[1] && rest[0] == orders[2] && rest[1..] == [orders[3]] && [orders[3]][1..] == [];
    OneOrder(s3, orders[3], slot);
    TimesMore(Insertion, s2, rest, slot);
    TimesMore(Insertion, s1, orders[1..], slot);
    TimesMore(Insertion, s, orders, slot);
    ServesFirst(s2, rest);
    ServesFirst(s1, orders[1..]);
    ServesFirst(s, orders);
    hide ServeAll, Times;
  }

  lemma ServesFirst(s: Shelf, orders: seq<Order>)
    requires orders != []
    ensures ServeAll(s, orders) == ServeAll(Serve(s, orders[0]).0, orders[1..])
  {
    hide Serve;
  }

  lemma OneOrder(s: Shelf, o: Order, slot: Slot)
    ensures ServeAll(s, [o]) == Serve(s, o).0
    ensures Times(Insertion, s, [o], slot) == if Inserts(s, o, slot) then 1 else 0
  {
    hide Serve, Inserts;
    assert [o][1..] == [];
  }

  /** A step that saves nothing under the key stores no row, and the key has at most the row it had. */
  lemma StoresNothing(s: Shelf, step: Step, slot: Slot)
    requires Orderly(s) && !SavesAt(step, slot) && Serve(s, Other(step)).1.Done?
    ensures !Inserts(s, Other(step), slot)
    ensures Holder(Serve(s, Other(step)).0, slot).Some? ==> Holder(Serve(s, Other(step)).0, slot) == Holder(s, slot)
  {
    KeyMoves(s, Other(step), slot);
    OtherAt(s, step, slot);
    hide Orderly, Serve, Holder, Inserts, CheckSave, ValidateAccounts, Settled;
  }

  lemma RoundOpens(s: Shelf, goal: Id, input: SaveInput)
    requires Orderly(s) && Holder(s, Slot(Transactions, input.key)).None?
    requires CheckSave(s.pots, goal, input).Ok? && ValidateAccounts(s.pots.books, SaveTransfer(input)).Ok?
    ensures var o := Round(s.pots, input)[0];
            var s1 := Serve(s, o).0;
            && !Inserts(s, o, Slot(Transactions, input.key)) && Orderly(s1) && Holder(s1, Slot(Transactions, input.key)).None?
            && s1.pots == WithGoal(s.pots).(keys := s1.pots.keys)
            && CheckSave(s1.pots, s.pots.tick, input).Ok? && ValidateAccounts(s1.pots.books, SaveTransfer(input)).Ok?
  {
    OpensGoal(s.pots);
    Stepped(s, NewGoal(1, 0, None));
    StoresNothing(s, NewGoal(1, 0, None), Slot(Transactions, input.key));
    SavesIntoNewGoal(s.pots, Serve(s, Round(s.pots, input)[0]).0.pots, goal, input);
    hide Orderly, Serve, Inserts, Holder, CheckSave, ValidateAccounts, WithGoal;
  }

  lemma SavesIntoNewGoal(p: Pots, later: Pots, goal: Id, input: SaveInput)
    requires later == WithGoal(p).(keys := later.keys) && CheckSave(p, goal, input).Ok? && ValidateAccounts(p.books, SaveTransfer(input)).Ok?
    ensures CheckSave(later, p.tick, input).Ok? && ValidateAccounts(later.books, SaveTransfer(input)).Ok?
  {
  }

  lemma RoundSaves(s: Shelf, s1: Shelf, input: SaveInput)
    requires Orderly(s1) && Holder(s1, Slot(Transactions, input.key)).None? && s1.pots == WithGoal(s.pots).(keys := s1.pots.keys)
    requires CheckSave(s1.pots, s.pots.tick, input).Ok? && ValidateAccounts(s1.pots.books, SaveTransfer(input)).Ok?
    ensures var o := Round(s.pots, input)[1];
            var s2 := Serve(s1, o).0;
            && Inserts(s1, o, Slot(Transactions, input.key)) && Orderly(s2) && Holder(s2, Slot(Transactions, input.key)) == Some(s.pots.books.nextId)
            && Save(s1.pots, s.pots.tick, input).Ok? && s2.pots == Save(s1.pots, s.pots.tick, input).value.(keys := s2.pots.keys)
            && !KeyInUse(s1.pots, input.key)
  {
    var step, slot := SaveTo(s.pots.tick, input), Slot(Transactions, input.key);
    SavesIt(s1.pots, s1, s.pots.tick, input);
    OtherIsTake(s1, step);
    TakeSaves(s1.pots, step);
    Stepped(s1, step);
    OtherAt(s1, step, slot);
    hide Orderly, Serve, Inserts, CheckSave, ValidateAccounts, Settled, Take, Save;
  }

  lemma SaveWithoutKeys(p: Pots, later: Pots, goal: Id, input: SaveInput)
    requires later == p.(keys := later.keys) && !KeyInUse(p, input.key) && !KeyInUse(later, input.key) && Save(later, goal, input).Ok?
    ensures Save(p, goal, input).Ok? && Save(later, goal, input).value == Save(p, goal, input).value.(keys := later.keys[input.key := p.books.nextId])
  {
    hide CreateManaged, ValidateAccounts, ApplyDelta, FindTransaction;
  }

  lemma RoundDrops(s: Shelf, s1: Shelf, s2: Shelf, input: SaveInput)
    requires Orderly(s) && Orderly(s2) && Holder(s, Slot(Transactions, input.key)).None?
    requires s1.pots == WithGoal(s.pots).(keys := s1.pots.keys) && !KeyInUse(s1.pots, input.key) && Save(s1.pots, s.pots.tick, input).Ok?
    requires s2.pots == Save(s1.pots, s.pots.tick, input).value.(keys := s2.pots.keys)
    requires Holder(s2, Slot(Transactions, input.key)) == Some(s.pots.books.nextId)
    ensures CreateTransaction(s.pots.books, SaveTransfer(input)).Ok?
    ensures var o := Round(s.pots, input)[2];
            var s3 := Serve(s2, o).0;
            && !Inserts(s2, o, Slot(Transactions, input.key)) && Orderly(s3)
            && (Holder(s3, Slot(Transactions, input.key)).Some? ==> Holder(s3, Slot(Transactions, input.key)).value == s.pots.books.nextId)
            && s3.pots == s.pots.(books := CreateTransaction(s.pots.books, SaveTransfer(input)).value, keys := s3.pots.keys, tick := s.pots.tick + 2)
  {
    assert Round(s.pots, input)[2] == Other(DropGoal(s.pots.tick));
    assert !SavesAt(DropGoal(s.pots.tick), Slot(Transactions, input.key));
    hide *;
    FreeKey(s, input.key);
    OrderlyBooks(s);
    SaveWithoutKeys(WithGoal(s.pots), s1.pots, s.pots.tick, input);
    DeletionUndoesSaving(s.pots, input);
    var saved := Save(WithGoal(s.pots), s.pots.tick, input).value;
    WithoutKeys(saved, s2.pots, s.pots.tick);
    TakeDrops(s2.pots, s.pots.tick);
    Stepped(s2, DropGoal(s.pots.tick));
    StoresNothing(s2, DropGoal(s.pots.tick), Slot(Transactions, input.key));
  }

  lemma FreeKey(s: Shelf, key: string)
    requires Holder(s, Slot(Transactions, key)).None?
    ensures !KeyInUse(s.pots, key) && !KeyInUse(WithGoal(s.pots), key)
  {
  }

  lemma TakeDrops(p: Pots, goal: Id)
    ensures Take(p, DropGoal(goal)) == DeleteGoal(p, goal)
  {
  }

  lemma RoundDeletes(s: Shelf, s3: Shelf, input: SaveInput)
    requires Orderly(s) && Orderly(s3) && CreateTransaction(s.pots.books, SaveTransfer(input)).Ok?
    requires s3.pots == s.pots.(books := CreateTransaction(s.pots.books, SaveTransfer(input)).value, keys := s3.pots.keys, tick := s.pots.tick + 2)
    requires Holder(s3, Slot(Transactions, input.key)).Some? ==> Holder(s3, Slot(Transactions, input.key)).value == s.pots.books.nextId
    ensures var o := Round(s.pots, input)[3];
            var s4 := Serve(s3, o).0;
            && !Inserts(s3, o, Slot(Transactions, input.key)) && Orderly(s4) && Holder(s4, Slot(Transactions, input.key)).None?
            && SameTables(s.pots, s4.pots)
  {
    var step, slot := Elsewhere(DropTransaction(s.pots.books.nextId)), Slot(Transactions, input.key);
    OrderlyBooks(s);
    SoundBooks(s.pots);
    DeleteUndoesCreate(s.pots.books, SaveTransfer(input));
    TakesDeletion(s3.pots, s.pots.books.nextId);
    NextIsNew(s.pots);
    hide CreateTransaction, Orderly, Take, Serve, DeleteTransaction, Inserts;
    Stepped(s3, step);
    StoresNothing(s3, step, slot);
    NothingNew(Serve(s3, Other(step)).0, slot);
  }

  /** The orders of n rounds. */
  function Rounds(s: Shelf, input: SaveInput, n: nat): seq<Order>
    decreases n
  {
    if n == 0 then [] else Round(s.pots, input) + Rounds(ServeAll(s, Round(s.pots, input)), input, n - 1)
  }

  lemma {:induction false} TimesJoin(e: Event, s: Shelf, first: seq<Order>, second: seq<Order>, slot: Slot)
    ensures Times(e, s, first + second, slot) == Times(e, s, first, slot) + Times(e, ServeAll(s, first), second, slot)
    decreases |first|
  {
    hide Happens, Serve;
    if first == [] {
      assert first + second == second;
    } else {
      TimesJoin(e, Serve(s, first[0]).0, first[1..], second, slot);
      assert (first + second)[1..] == first[1..] + second;
    }
  }

  /** Wherever money can be saved, a key without a row stores as many rows as one likes: after each transfer its goal and
      then the transfer itself are deleted. */
  lemma {:induction false} KeyStoresAnyNumber(s: Shelf, goal: Id, input: SaveInput, n: nat)
    requires Orderly(s) && Holder(s, Slot(Transactions, input.key)).None?
    requires CheckSave(s.pots, goal, input).Ok? && ValidateAccounts(s.pots.books, SaveTransfer(input)).Ok?
    ensures Times(Insertion, s, Rounds(s, input, n), Slot(Transactions, input.key)) == n
    decreases n
  {
    hide Orderly, CheckSave, ValidateAccounts, Holder, ServeAll, Round;
    if n > 0 {
      var after := ServeAll(s, Round(s.pots, input));
      RoundStoresOne(s, goal, input);
      SameCheck(s.pots, after.pots, goal, input);
      KeyStoresAnyNumber(after, goal, input, n - 1);
      TimesJoin(Insertion, s, Round(s.pots, input), Rounds(after, input, n - 1), Slot(Transactions, input.key));
    }
  }

  // ---------------------------------------------------------------- a run from nothing

  function Transfer(): SaveInput {
    SaveInput(0, 1, 10, "savings", A_DAY, "key")
  }

  function TwoAccounts(): Books {
    EMPTY_BOOKS.(accounts := map[0 := Tracked(100), 1 := Tracked(100)], entries := [Entry(0, Opening, 100), Entry(1, Opening, 100)], nextId := 2)
  }

  function OneGoal(): Pots {
    EMPTY_POTS.(books := TwoAccounts(), goals := map[0 := Goal(1000, 0, None, false)], tick := 1)
  }

  function Opened(): seq<Order> {
    [Other(Elsewhere(NewAccount(Tracked(100)))), Other(Elsewhere(NewAccount(Tracked(100)))), Other(NewGoal(1000, 0, None))]
  }

  /** Six orders of a new user after which one key has stored two rows. */
  lemma KeyStoresTwoRows()
    ensures var s := ServeAll(EMPTY_SHELF, Opened());
            Times(Insertion, s, Again(s, Groceries(), 0, Transfer()), Slot(Transactions, "key")) == 2
  {
    var s := ServeAll(EMPTY_SHELF, Opened());
    OpenedShelf();
    EmptyIsOrderly({});
    ServeAllKeeps(EMPTY_SHELF, Opened());
    hide ServeAll, Orderly, OneGoal, Opened;
    KeyIsFresh();
    GroceriesCanBeBought();
    MoneyCanBeSaved();
    DeletedKeyIsReused(s, Groceries(), 0, Transfer());
  }

  /** From the first three of those orders on, the key stores as many rows as one likes. */
  lemma NothingBoundsTheRows(n: nat)
    ensures var s := ServeAll(EMPTY_SHELF, Opened());
            Times(Insertion, s, Rounds(s, Transfer(), n), Slot(Transactions, "key")) == n
  {
    var s := ServeAll(EMPTY_SHELF, Opened());
    OpenedShelf();
    EmptyIsOrderly({});
    ServeAllKeeps(EMPTY_SHELF, Opened());
    hide ServeAll, Orderly, OneGoal, Opened, CheckSave, ValidateAccounts;
    KeyIsFresh();
    MoneyCanBeSaved();
    KeyStoresAnyNumber(s, 0, Transfer(), n);
  }

  lemma KeyIsFresh()
    ensures Fresh(EMPTY_SHELF.(pots := OneGoal()), Slot(Transactions, "key"))
    ensures OneGoal().books == TwoAccounts()
  {
  }

  lemma GroceriesCanBeBought()
    ensures CreateTransaction(TwoAccounts(), Groceries()).Ok?
  {
    var x, e := Groceries(), Entry(0, OfTransaction(2), -50);
    assert x.description[0] == 'g' && x.description[0] in x.description;
    assert ValidShape(x) && ValidateAccounts(TwoAccounts().(nextId := 3), x).Ok?;
    OnePosted(TwoAccounts().(nextId := 3, transactions := TwoAccounts().transactions[2 := x]), e);
  }

  lemma MoneyCanBeSaved()
    ensures CheckSave(OneGoal(), 0, Transfer()).Ok? && ValidateAccounts(TwoAccounts(), SaveTransfer(Transfer())).Ok?
  {
    assert "savings"[0] in "savings";
    assert ValidSave(Transfer());
  }

  lemma OpenedShelf()
    ensures ServeAll(EMPTY_SHELF, Opened()) == EMPTY_SHELF.(pots := OneGoal())
  {
    var b1 := EMPTY_BOOKS.(accounts := map[0 := Tracked(100)], entries := [Entry(0, Opening, 100)], nextId := 1);
    OpensFirst(b1);
    OpensSecond(b1);
    var p1, p2 := EMPTY_POTS.(books := b1), EMPTY_POTS.(books := TwoAccounts());
    StepFrom(EMPTY_SHELF, Elsewhere(NewAccount(Tracked(100))), p1);
    StepFrom(EMPTY_SHELF.(pots := p1), Elsewhere(NewAccount(Tracked(100))), p2);
    GoalOpens(p2);
    StepFrom(EMPTY_SHELF.(pots := p2), NewGoal(1000, 0, None), OneGoal());
    hide Serve, TwoAccounts, OneGoal;
    var o := Opened();
    assert o[1..][1..] == [o[2]] && [o[2]][1..] == [];
  }

  lemma OpensFirst(b1: Books)
    requires b1 == EMPTY_BOOKS.(accounts := map[0 := Tracked(100)], entries := [Entry(0, Opening, 100)], nextId := 1)
    ensures Take(EMPTY_POTS, Elsewhere(NewAccount(Tracked(100)))) == Ok(EMPTY_POTS.(books := b1))
  {
    assert Tracked(100).(active := true, trackedFrom := 0) == Tracked(100);
    assert EMPTY_BOOKS.accounts[0 := Tracked(100)] == map[0 := Tracked(100)];
    assert EMPTY_BOOKS.entries + [Entry(0, Opening, 100)] == [Entry(0, Opening, 100)];
    assert CreateAccount(EMPTY_BOOKS, Tracked(100)) == Ok(b1);
    assert LiveKeys(EMPTY_POTS.(books := b1)) == EMPTY_POTS.(books := b1);
  }

  lemma OpensSecond(b1: Books)
    requires b1 == EMPTY_BOOKS.(accounts := map[0 := Tracked(100)], entries := [Entry(0, Opening, 100)], nextId := 1)
    ensures Take(EMPTY_POTS.(books := b1), Elsewhere(NewAccount(Tracked(100)))) == Ok(EMPTY_POTS.(books := TwoAccounts()))
  {
    assert Tracked(100).(active := true, trackedFrom := 0) == Tracked(100);
    assert b1.accounts[1 := Tracked(100)] == TwoAccounts().accounts;
    assert b1.entries + [Entry(1, Opening, 100)] == TwoAccounts().entries;
    assert CreateAccount(b1, Tracked(100)) == Ok(TwoAccounts());
    assert LiveKeys(EMPTY_POTS.(books := TwoAccounts())) == EMPTY_POTS.(books := TwoAccounts());
  }

  lemma GoalOpens(p2: Pots)
    requires p2 == EMPTY_POTS.(books := TwoAccounts())
    ensures Take(p2, NewGoal(1000, 0, None)) == Ok(OneGoal())
  {
    assert p2.goals[0 := Goal(1000, 0, None, false)] == OneGoal().goals;
  }

  lemma StepFrom(s: Shelf, step: Step, pots: Pots)
    requires !step.Keyed? && Take(s.pots, step) == Ok(pots) && pots.keys == map[] && s.purchaseKeys == map[]
    ensures Serve(s, Other(step)).0 == s.(pots := pots)
  {
    ServesStep(s, step);
    hide Take, Serve;
    assert LiveKeys(pots) == pots;
    assert LiveShelf(s.(pots := pots)) == s.(pots := pots);
  }
}
