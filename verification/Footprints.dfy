/** What each savings operation may touch: the accounts it names and the goals it plans to lock. */
module Footprints {
  import opened Calendar
  import opened Common
  import opened Ledger
  import opened LedgerLaws
  import opened ManagedLaws
  import opened Savings
  import opened SavingsLaws
  import opened YieldLaws
  import opened YieldShares

  // ---------------------------------------------------------------- plans

  predicate Locking(op: Step) {
    || op.SaveTo? || op.AssignTo? || op.MoveFrom? || op.MatchYield? || op.UndoMatch? || op.DropGoal? || op.Keyed?
    || (op.Elsewhere? && op.request.NewTransaction?)
  }

  function AccountsInOrder(t: Transaction): seq<Id> {
    if t.transferTo.Some? then InsertId([t.account], t.transferTo.value) else [t.account]
  }

  /** The accounts an operation locks, in ascending order. */
  function AccountPlan(op: Step): seq<Id> {
    match op
    case SaveTo(_, input) => InsertId([input.source], input.destination)
    case AssignTo(_, input) => [input.account]
    case MoveFrom(_, input) => [input.account]
    case MatchYield(account, _, _) => [account]
    case UndoMatch(account, _) => [account]
    case Keyed(_, t) => AccountsInOrder(t)
    case Elsewhere(r) => if r.NewTransaction? then AccountsInOrder(r.transaction) else []
    case NewGoal(_, _, _) => []
    case EditGoal(_, _, _) => []
    case DropGoal(_) => []
  }

  function RowsIn(rows: seq<Allocation>, account: Id): seq<Allocation> {
    if rows == [] then []
    else
      var last := rows[|rows| - 1];
      RowsIn(rows[..|rows| - 1], account) + (if last.account == Some(account) then [last] else [])
  }

  /** A record of this account, if that is what the id names. */
  function RecordFor(records: seq<Reconciled>, account: Id, id: nat): Option<Reconciled> {
    var k := FindRecord(records, id);
    if k.Some? && records[k.value].account == account then Some(records[k.value]) else None
  }

  function GoalIds(shares: seq<Share>): seq<Id> {
    if shares == [] then [] else InsertId(GoalIds(shares[..|shares| - 1]), shares[|shares| - 1].goal)
  }

  /** The goals an operation locks once it holds its accounts, in ascending order. */
  function GoalPlan(op: Step, p: Pots): seq<Id> {
    match op
    case SaveTo(goal, _) => [goal]
    case AssignTo(goal, _) => [goal]
    case MoveFrom(goal, input) => InsertId([goal], input.to)
    case MatchYield(account, input, _) => if input.gain > 0 then GoalsIn(p.rows, account) else []
    case UndoMatch(account, id) => if RecordFor(p.reconciliations, account, id).Some? then GoalIds(CreditedBy(p.rows, id)) else []
    case Keyed(_, _) => []
    case Elsewhere(_) => []
    case NewGoal(_, _, _) => []
    case EditGoal(_, _, _) => []
    case DropGoal(goal) => [goal]
  }

  lemma {:induction false} GoalIdsAscend(shares: seq<Share>)
    ensures Ascending(GoalIds(shares))
    ensures forall i :: 0 <= i < |shares| ==> shares[i].goal in GoalIds(shares)
  {
    hide InsertId, Ascending;
    if shares != [] {
      GoalIdsAscend(shares[..|shares| - 1]);
      InsertIsAscending(GoalIds(shares[..|shares| - 1]), shares[|shares| - 1].goal);
    } else {
      assert Ascending([]) by { NothingAscends(); }
    }
  }

  lemma NothingAscends()
    ensures Ascending([])
  {
  }

  lemma PlansAscend(op: Step, p: Pots)
    ensures Ascending(AccountPlan(op)) && Ascending(GoalPlan(op, p))
  {
    hide GoalsIn, GoalIds, CreditedBy, FindRecord, InsertId;
    match op
    case SaveTo(_, input) => InsertIsAscending([input.source], input.destination);
    case MoveFrom(goal, input) => InsertIsAscending([goal], input.to);
    case MatchYield(account, _, _) => GoalsAreDistinct(p.rows, account);
    case UndoMatch(_, id) => GoalIdsAscend(CreditedBy(p.rows, id));
    case Keyed(_, t) => OrderAscends(t);
    case Elsewhere(r) => if r.NewTransaction? { OrderAscends(r.transaction); }
    case _ => {}
  }

  lemma OrderAscends(t: Transaction)
    ensures Ascending(AccountsInOrder(t))
  {
    hide InsertId;
    if t.transferTo.Some? {
      InsertIsAscending([t.account], t.transferTo.value);
    }
  }

  // ---------------------------------------------------------------- what stays untouched

  /** The account, its rows and its records are as they were. */
  ghost predicate SameAccountState(p: Pots, after: Pots, a: Id) {
    && (a in p.books.accounts <==> a in after.books.accounts)
    && (a in p.books.accounts ==> after.books.accounts[a] == p.books.accounts[a])
    && RowsIn(after.rows, a) == RowsIn(p.rows, a)
    && (forall id: nat :: RecordFor(after.reconciliations, a, id) == RecordFor(p.reconciliations, a, id))
  }

  /** Only the listed accounts and goals changed. */
  ghost predicate Touches(p: Pots, after: Pots, accounts: seq<Id>, goals: seq<Id>) {
    && (forall a: Id :: a !in accounts ==> SameAccountState(p, after, a))
    && after.books.accounts.Keys == p.books.accounts.Keys && after.goals.Keys == p.goals.Keys
    && (forall g <- p.goals :: g !in goals ==> after.goals[g] == p.goals[g])
  }

  lemma RowsInMore(rows: seq<Allocation>, r: Allocation, a: Id)
    ensures RowsIn(rows + [r], a) == RowsIn(rows, a) + (if r.account == Some(a) then [r] else [])
  {
    assert (rows + [r])[..|rows|] == rows;
  }

  lemma {:induction false} RowsInAppended(rows: seq<Allocation>, more: seq<Allocation>, a: Id)
    requires forall i :: 0 <= i < |more| ==> more[i].account != Some(a)
    ensures RowsIn(rows + more, a) == RowsIn(rows, a)
    decreases |more|
  {
    hide RowsIn;
    if more == [] {
      assert rows + more == rows;
    } else {
      var init, last := more[..|more| - 1], more[|more| - 1];
      assert rows + more == (rows + init) + [last];
      RowsInAppended(rows, init, a);
      RowsInMore(rows + init, last, a);
    }
  }

  lemma {:induction false} RowsInWithout(rows: seq<Allocation>, operation: nat, account: Id, a: Id)
    requires a != account && forall i :: 0 <= i < |rows| && IsShare(rows[i], operation) ==> rows[i].account == Some(account)
    ensures RowsIn(WithoutShares(rows, operation), a) == RowsIn(rows, a)
  {
    if rows != [] {
      var init, last := rows[..|rows| - 1], rows[|rows| - 1];
      RowsInWithout(init, operation, account, a);
      assert init + [last] == rows;
      RowsInMore(init, last, a);
      if IsShare(last, operation) {
        assert WithoutShares(rows, operation) == WithoutShares(init, operation);
      } else {
        RowsInMore(WithoutShares(init, operation), last, a);
      }
    }
  }

  lemma RecordAdded(records: seq<Reconciled>, r: Reconciled, a: Id, id: nat)
    requires r.account != a && forall i :: 0 <= i < |records| ==> records[i].operation != r.operation
    ensures RecordFor(records + [r], a, id) == RecordFor(records, a, id)
  {
    assert (records + [r])[..|records|] == records;
    if id == r.operation {
      NoSuchRecord(records, id);
    }
  }

  lemma {:induction false} NoSuchRecord(records: seq<Reconciled>, id: nat)
    requires forall i :: 0 <= i < |records| ==> records[i].operation != id
    ensures FindRecord(records, id) == None
  {
    if records != [] {
      NoSuchRecord(records[..|records| - 1], id);
    }
  }

  lemma {:induction false} FindsIt(records: seq<Reconciled>, k: nat)
    requires Increasing(records) && k < |records|
    ensures FindRecord(records, records[k].operation) == Some(k)
  {
    if k < |records| - 1 {
      FindsIt(records[..|records| - 1], k);
    }
  }

  lemma RecordRemoved(records: seq<Reconciled>, k: nat, a: Id, id: nat)
    requires Increasing(records) && k < |records| && records[k].account != a
    ensures RecordFor(Except(records, k), a, id) == RecordFor(records, a, id)
  {
    hide FindRecord;
    var rest := Except(records, k);
    assert forall i :: 0 <= i < |rest| ==> rest[i] == if i < k then records[i] else records[i + 1];
    assert Increasing(rest);
    if j :| 0 <= j < |records| && records[j].operation == id {
      FindsIt(records, j);
      if j != k {
        var i := if j < k then j else j - 1;
        assert rest[i] == records[j];
        FindsIt(rest, i);
      } else {
        NoSuchRecord(rest, id);
      }
    } else {
      NoSuchRecord(records, id);
      NoSuchRecord(rest, id);
    }
  }

  // ---------------------------------------------------------------- operation by operation

  lemma OneGoalTouched(goals: map<Id, Goal>, id: Id, delta: int, preferred: Option<Id>)
    requires ApplyDelta(goals, id, delta, preferred).Ok?
    ensures var after := ApplyDelta(goals, id, delta, preferred).value;
            after.Keys == goals.Keys && forall g <- goals :: g != id ==> after[g] == goals[g]
  {
  }

  lemma SaveTouches(p: Pots, goal: Id, input: SaveInput)
    requires PotsSound(p) && Save(p, goal, input).Ok?
    ensures Touches(p, Save(p, goal, input).value, AccountPlan(SaveTo(goal, input)), GoalPlan(SaveTo(goal, input), p))
  {
    hide PotsSound, CheckSave, FindTransaction, ApplyDelta, CreateManaged, RowsIn, FindRecord, InsertId, RecordFor;
    if !KeyInUse(p, input.key) {
      CheckedSave(p, goal, input);
      TransferCreation(SoundBooksOf(p), SaveTransfer(input), SavingsAllocation);
      OneGoalTouched(p.goals, goal, input.amount, Some(input.destination));
      InsertIsAscending([input.source], input.destination);
      var after := Save(p, goal, input).value;
      forall a: Id | a !in AccountPlan(SaveTo(goal, input))
        ensures SameAccountState(p, after, a)
      {
        RowsInMore(p.rows, after.rows[|p.rows|], a);
      }
    }
  }

  function SoundBooksOf(p: Pots): (b: Books)
    requires PotsSound(p)
    ensures b == p.books && Consistent(b)
  {
    SoundBooks(p);
    p.books
  }

  lemma AllocateTouches(p: Pots, goal: Id, input: AssignInput)
    requires Allocate(p, goal, input).Ok?
    ensures Touches(p, Allocate(p, goal, input).value, AccountPlan(AssignTo(goal, input)), GoalPlan(AssignTo(goal, input), p))
  {
    hide CheckCurrency, FindKey, ApplyDelta, RowsIn, FindRecord, AssignedIn, Held, RecordFor;
    if FindKey(p.rows, input.key).None? {
      OneGoalTouched(p.goals, goal, input.amount, Some(input.account));
      var after := Allocate(p, goal, input).value;
      forall a: Id | a != input.account
        ensures SameAccountState(p, after, a)
      {
        RowsInMore(p.rows, after.rows[|p.rows|], a);
      }
    }
  }

  lemma ReallocateTouches(p: Pots, from: Id, input: MoveInput)
    requires Reallocate(p, from, input).Ok?
    ensures Touches(p, Reallocate(p, from, input).value, AccountPlan(MoveFrom(from, input)), GoalPlan(MoveFrom(from, input), p))
  {
    hide CheckMove, FindKey, FindPair, ApplyDelta, RowsIn, FindRecord, Held, InsertId, RecordFor;
    if FindKey(p.rows, input.key).None? {
      OneGoalTouched(p.goals, from, -input.amount, None);
      var lowered := ApplyDelta(p.goals, from, -input.amount, None).value;
      OneGoalTouched(lowered, input.to, input.amount, Some(input.account));
      InsertIsAscending([from], input.to);
      var after := Reallocate(p, from, input).value;
      var more := after.rows[|p.rows|..];
      assert after.rows == p.rows + more;
      forall a: Id | a != input.account
        ensures SameAccountState(p, after, a)
      {
        RowsInAppended(p.rows, more, a);
      }
    }
  }

  lemma {:induction false} CreditTouches(goals: map<Id, Goal>, shares: seq<Share>, account: Id)
    requires CreditShares(goals, shares, account).Ok?
    ensures var after := CreditShares(goals, shares, account).value;
            after.Keys == goals.Keys && forall g <- goals :: !HasGoal(shares, g) ==> after[g] == goals[g]
    decreases |shares|
  {
    hide ApplyDelta;
    if shares != [] {
      OneGoalTouched(goals, shares[0].goal, shares[0].amount, Some(account));
      CreditTouches(ApplyDelta(goals, shares[0].goal, shares[0].amount, Some(account)).value, shares[1..], account);
      RestHasFewer(shares);
    }
  }

  lemma RestHasFewer(shares: seq<Share>)
    requires shares != []
    ensures HasGoal(shares, shares[0].goal)
    ensures forall g: Id :: HasGoal(shares[1..], g) ==> HasGoal(shares, g)
  {
    forall g: Id | HasGoal(shares[1..], g) ensures HasGoal(shares, g) {
      var j :| 0 <= j < |shares[1..]| && shares[1..][j].goal == g;
      assert shares[j + 1].goal == g;
    }
  }

  lemma {:induction false} DebitTouches(goals: map<Id, Goal>, shares: seq<Share>)
    requires DebitShares(goals, shares).Ok?
    ensures var after := DebitShares(goals, shares).value;
            after.Keys == goals.Keys && forall g <- goals :: !HasGoal(shares, g) ==> after[g] == goals[g]
    decreases |shares|
  {
    hide ApplyDelta;
    if shares != [] {
      OneGoalTouched(goals, shares[0].goal, -shares[0].amount, None);
      DebitTouches(ApplyDelta(goals, shares[0].goal, -shares[0].amount, None).value, shares[1..]);
      RestHasFewer(shares);
    }
  }

  /** The shares of a yield go to goals of the plan. */
  lemma SharesArePlanned(p: Pots, account: Id, input: YieldInput)
    requires account in p.books.accounts && p.books.accounts[account].balance.Some?
    ensures input.gain <= 0 ==> YieldSplit(p, account, input) == []
    ensures forall g: Id :: HasGoal(YieldSplit(p, account, input), g) ==> g in GoalsIn(p.rows, account)
  {
    hide GoalsIn, HeldBy, Funded, Split, Denominator;
    var ids := GoalsIn(p.rows, account);
    var held := HeldBy(p.rows, account, ids);
    GoalsAreDistinct(p.rows, account);
    HeldIsRising(p.rows, account, ids);
    FundedIsRising(held);
    var balance := p.books.accounts[account].balance.value;
    var funded, denominator, shares := Funded(held), Denominator(balance, held), YieldSplit(p, account, input);
    if shares != [] {
      SplitIsRising(input.gain, denominator, funded);
      forall g: Id | HasGoal(shares, g) ensures g in ids {
        var i :| 0 <= i < |shares| && shares[i].goal == g;
        assert HasGoal(funded, shares[i].goal);
        var j :| 0 <= j < |funded| && funded[j].goal == g;
        assert HasGoal(held, funded[j].goal);
        var k :| 0 <= k < |held| && held[k].goal == g;
        assert ids[k] in ids;
      }
    }
  }

  lemma ReconcileTouches(p: Pots, account: Id, input: YieldInput, today: Date)
    requires PotsSound(p) && ReconcileYield(p, account, input, today).Ok?
    ensures Touches(p, ReconcileYield(p, account, input, today).value, [account], GoalPlan(MatchYield(account, input, today), p))
  {
    hide PotsSound, CheckYield, BookYield, CreditShares, YieldSplit, RowsIn, FindRecord, GoalsIn, RecordFor;
    ReconcileIsAccepted(p, account, input, today);
    SharesArePlanned(p, account, input);
    var after, shares, r := ReconcileYield(p, account, input, today).value, YieldSplit(p, account, input), RecordOf(p, account, input);
    CreditTouches(p.goals, shares, account);
    ShareRowsAre(shares, account, input.on, p.tick);
    StampedRecords(p);
    forall a: Id | a != account
      ensures SameAccountState(p, after, a)
    {
      RowsInAppended(p.rows, ShareRows(shares, account, input.on, p.tick), a);
      forall id: nat ensures RecordFor(after.reconciliations, a, id) == RecordFor(p.reconciliations, a, id) {
        RecordAdded(p.reconciliations, r, a, id);
      }
    }
  }

  lemma StampedRecords(p: Pots)
    requires PotsSound(p)
    ensures Increasing(p.reconciliations) && forall i :: 0 <= i < |p.reconciliations| ==> p.reconciliations[i].operation < p.tick
    ensures SharesLinked(p.rows, p.reconciliations)
  {
    hide Consistent, GoalsAgree, RecordsBacked, DatesAgree, SharesLinked, RecordsTracked;
  }

  lemma UndoTouches(p: Pots, account: Id, id: nat)
    requires PotsSound(p) && UndoYield(p, account, id).Ok?
    ensures Touches(p, UndoYield(p, account, id).value, [account], GoalPlan(UndoMatch(account, id), p))
  {
    hide PotsSound, CheckUndo, UnbookYield, DebitShares, CreditedBy, WithoutShares, LatestOf, Redated, FindRecord, RowsIn, RecordFor, UndoYield, GoalIds;
    UndoIsAccepted(p, account, id);
    UndoneParts(p, account, id);
    UndoneGoals(p, account, id);
    var k, after := FindRecord(p.reconciliations, id).value, UndoYield(p, account, id).value;
    RecordNamed(p, account, id);
    StampedRecords(p);
    SharesBelongToRecord(p, k);
    GoalIdsAscend(CreditedBy(p.rows, id));
    DebitTouches(p.goals, CreditedBy(p.rows, id));
    forall a: Id | a != account
      ensures SameAccountState(p, after, a)
    {
      RowsInWithout(p.rows, id, account, a);
      forall other: nat ensures RecordFor(after.reconciliations, a, other) == RecordFor(p.reconciliations, a, other) {
        RecordRemoved(p.reconciliations, k, a, other);
      }
    }
    forall g | g in p.goals && g !in GoalIds(CreditedBy(p.rows, id))
      ensures after.goals[g] == p.goals[g]
    {
      NotCredited(CreditedBy(p.rows, id), g);
    }
  }

  lemma NotCredited(shares: seq<Share>, g: Id)
    requires g !in GoalIds(shares)
    ensures !HasGoal(shares, g)
  {
    hide GoalIds;
    GoalIdsAscend(shares);
  }

  lemma UndoneGoals(p: Pots, account: Id, id: nat)
    requires UndoYield(p, account, id).Ok?
    ensures DebitShares(p.goals, CreditedBy(p.rows, id)) == Ok(UndoYield(p, account, id).value.goals)
  {
    hide CheckUndo, UnbookYield, DebitShares, CreditedBy, WithoutShares, LatestOf, Redated, FindRecord;
  }

  lemma RecordNamed(p: Pots, account: Id, id: nat)
    requires UndoYield(p, account, id).Ok?
    ensures RecordFor(p.reconciliations, account, id).Some?
    ensures p.reconciliations[FindRecord(p.reconciliations, id).value].account == account
  {
    hide CheckUndo, UnbookYield, DebitShares, CreditedBy, WithoutShares, LatestOf, Redated, FindRecord;
  }

  lemma {:induction false} PostingTouches(b: Books, es: seq<Entry>, accounts: seq<Id>)
    requires PostAll(b, es).Ok? && forall i :: 0 <= i < |es| ==> es[i].account in accounts
    ensures var after := PostAll(b, es).value;
            after.accounts.Keys == b.accounts.Keys && forall a <- b.accounts :: a !in accounts ==> after.accounts[a] == b.accounts[a]
    decreases |es|
  {
    if es != [] {
      PostingTouches(Post(b, es[0]).value, es[1..], accounts);
    }
  }

  lemma CreationTouches(p: Pots, t: Transaction, keys: map<string, Id>)
    requires CreateTransaction(p.books, t).Ok?
    ensures Touches(p, p.(books := CreateTransaction(p.books, t).value, keys := keys), AccountsInOrder(t), [])
  {
    hide PostAll, ValidShape, ValidateAccounts, RowsIn, FindRecord, InsertId;
    if t.transferTo.Some? {
      InsertIsAscending([t.account], t.transferTo.value);
    }
    var b, id := p.books, p.books.nextId;
    var listed := b.(nextId := id + 1, transactions := b.transactions[id := t]);
    if t.affectsBalance {
      PostingTouches(listed, Deltas(id, t).value, AccountsInOrder(t));
    }
  }

  lemma KeyedTouches(p: Pots, key: string, t: Transaction)
    requires CreateKeyed(p, key, t).Ok?
    ensures Touches(p, CreateKeyed(p, key, t).value, AccountsInOrder(t), [])
  {
    hide CreateTransaction, ValidShape, ValidateAccounts, AccountsInOrder;
    if KeyInUse(p, key) {
      UntouchedTouches(p, AccountsInOrder(t));
    } else {
      CreationTouches(p, t, p.keys[key := p.books.nextId]);
    }
  }

  lemma UntouchedTouches(p: Pots, accounts: seq<Id>)
    ensures Touches(p, p, accounts, [])
  {
    hide RowsIn, FindRecord;
  }

  lemma KeysAreOutside(p: Pots, after: Pots, accounts: seq<Id>, goals: seq<Id>)
    requires Touches(p, after, accounts, goals)
    ensures Touches(p, LiveKeys(after), accounts, goals)
  {
    hide RowsIn, FindRecord;
  }

  /** Deleting a goal takes its rows out of whatever accounts they are in, and changes nothing else. */
  predicate Loses(p: Pots, after: Pots, goal: Id) {
    && after.books == p.books.(managers := after.books.managers) && after.goals == p.goals - {goal}
    && after.rows == RowsOfOthers(p.rows, goal) && after.reconciliations == p.reconciliations
  }

  /** Every locking operation but the deletion of a goal changes nothing outside the accounts and goals it locks. */
  lemma OperationTouches(p: Pots, op: Step)
    requires PotsSound(p) && Locking(op) && !op.DropGoal? && Take(p, op).Ok?
    ensures Touches(p, Take(p, op).value, AccountPlan(op), GoalPlan(op, p))
  {
    hide PotsSound, Save, Allocate, Reallocate, ReconcileYield, UndoYield, CreateKeyed, Touches, CreateTransaction, GoalsIn, GoalIds, InsertId,
         AccountsInOrder;
    match op
    case SaveTo(goal, input) => SaveTouches(p, goal, input);
    case AssignTo(goal, input) => AllocateTouches(p, goal, input);
    case MoveFrom(goal, input) => ReallocateTouches(p, goal, input);
    case MatchYield(account, input, today) => ReconcileTouches(p, account, input, today);
    case UndoMatch(account, id) =>
      UndoTouches(p, account, id);
      KeysAreOutside(p, UndoYield(p, account, id).value, AccountPlan(op), GoalPlan(op, p));
    case Keyed(key, t) => KeyedTouches(p, key, t);
    case Elsewhere(r) => CreationTouches(p, r.transaction, Take(p, op).value.keys);
    case _ => {}
  }
}
