/** Which rows and keys each operation locks, and so which operations never commit side by side. */
module LockMeaning {
  import opened Common
  import opened Footprints
  import opened Ledger
  import opened RowLocks
  import opened Savings
  import opened SavingsLaws
  import opened YieldLaws
  import opened YieldShares

  /** The accounts an operation names are the ones it locks. */
  lemma AccountsMean(op: Step, id: Id)
    ensures id in AccountPlan(op)
            <==> || (op.SaveTo? && (id == op.save.source || id == op.save.destination))
                 || (op.AssignTo? && id == op.assign.account) || (op.MoveFrom? && id == op.move.account)
                 || ((op.MatchYield? || op.UndoMatch?) && id == op.account)
                 || (op.Keyed? && (id == op.transaction.account || op.transaction.transferTo == Some(id)))
                 || (op.Elsewhere? && op.request.NewTransaction?
                     && (id == op.request.transaction.account || op.request.transaction.transferTo == Some(id)))
  {
    if op.SaveTo? {
      InsertIsAscending([op.save.source], op.save.destination);
    } else if op.Keyed? {
      OrderedAccounts(op.transaction, id);
    } else if op.Elsewhere? && op.request.NewTransaction? {
      OrderedAccounts(op.request.transaction, id);
    }
  }

  lemma OrderedAccounts(t: Transaction, id: Id)
    ensures id in AccountsInOrder(t) <==> id == t.account || t.transferTo == Some(id)
  {
    if t.transferTo.Some? {
      InsertIsAscending([t.account], t.transferTo.value);
    }
  }

  lemma {:induction false} GoalIdsMean(shares: seq<Share>, id: Id)
    ensures id in GoalIds(shares) <==> exists s <- shares :: s.goal == id
  {
    if shares != [] {
      var init, last := shares[..|shares| - 1], shares[|shares| - 1];
      GoalIdsMean(init, id);
      GoalIdsAscend(init);
      InsertIsAscending(GoalIds(init), last.goal);
      assert shares == init + [last];
    }
  }

  lemma {:induction false} GoalsInMean(rows: seq<Allocation>, account: Id, id: Id)
    ensures id in GoalsIn(rows, account) <==> exists r <- rows :: r.account == Some(account) && r.goal == id
  {
    if rows != [] {
      var init, last := rows[..|rows| - 1], rows[|rows| - 1];
      GoalsInMean(init, account, id);
      GoalsAreDistinct(init, account);
      InsertIsAscending(GoalsIn(init, account), last.goal);
      assert rows == init + [last];
    }
  }

  /** The goals an operation locks: the ones it names; for a yield every goal with rows in the account; for an undo every goal
      the record paid. */
  lemma GoalsMean(op: Step, p: Pots, id: Id)
    ensures id in GoalPlan(op, p)
            <==> || ((op.SaveTo? || op.AssignTo? || op.MoveFrom? || op.DropGoal?) && id == op.goal)
                 || (op.MoveFrom? && id == op.move.to)
                 || (op.MatchYield? && op.gained.gain > 0 && exists r <- p.rows :: r.account == Some(op.account) && r.goal == id)
                 || (op.UndoMatch? && RecordFor(p.reconciliations, op.account, op.record).Some?
                     && exists r <- p.rows :: r.kind == Yielded && r.operation == op.record && r.goal == id)
  {
    hide InsertId, GoalsIn, GoalIds, CreditedBy, FindRecord;
    if op.MoveFrom? {
      InsertIsAscending([op.goal], op.move.to);
    } else if op.MatchYield? {
      GoalsInMean(p.rows, op.account, id);
    } else if op.UndoMatch? {
      var shares := CreditedBy(p.rows, op.record);
      GoalIdsMean(shares, id);
      CreditedIsPart(p.rows, op.record);
      CreditedHasAll(p.rows, op.record);
      if s :| s in shares && s.goal == id {
        assert ComesFrom(s, p.rows, op.record);
      }
      if r :| r in p.rows && r.kind == Yielded && r.operation == op.record && r.goal == id {
        assert Share(r.goal, r.amount) in shares;
      }
    }
  }

  lemma {:induction false} CreditedHasAll(rows: seq<Allocation>, operation: nat)
    ensures forall r <- rows :: IsShare(r, operation) ==> Share(r.goal, r.amount) in CreditedBy(rows, operation)
  {
    if rows != [] {
      var init := rows[..|rows| - 1];
      CreditedHasAll(init, operation);
      assert rows == init + [rows[|rows| - 1]];
    }
  }

  // ---------------------------------------------------------------- which operations exclude each other

  /** The thread holds all the locks it takes; only its commit is left. */
  predicate Ready(t: Thread) {
    !t.done && t.goals.Some? && t.held == |Plan(t)|
  }

  lemma ReadyHolds(t: Thread, l: Lock)
    requires Ready(t) && l in Plan(t)
    ensures Holds(t, l)
  {
  }

  /** The operation writes rows that allocate money to goals. */
  predicate Allocates(op: Step) {
    op.SaveTo? || op.AssignTo? || op.MoveFrom? || (op.MatchYield? && op.gained.gain > 0)
  }

  /** The operations write under the same key of the same column. */
  predicate SameKey(a: Step, b: Step) {
    || (KeyOfTransaction(a).Some? && KeyOfTransaction(a) == KeyOfTransaction(b))
    || (KeyOfRow(a).Some? && KeyOfRow(a) == KeyOfRow(b))
  }

  function KeyOfTransaction(op: Step): Option<string> {
    if op.SaveTo? then Some(op.save.key) else if op.Keyed? then Some(op.key) else None
  }

  function KeyOfRow(op: Step): Option<string> {
    if op.AssignTo? then Some(op.assign.key) else if op.MoveFrom? then Some(op.move.key) else None
  }

  /** The operation takes the lock, by what it is for. */
  predicate Takes(t: Thread, l: Lock)
    requires t.goals.Some?
  {
    match l
    case ClaimLock(key) => t.op.Keyed? && t.op.key == key
    case AccountLock(id) => id in AccountPlan(t.op)
    case GoalLock(id) => id in t.goals.value
    case KeyLock(key) => KeyOfTransaction(t.op) == Some(key)
    case UserLock => Allocates(t.op)
    case RowKeyLock(key) => KeyOfRow(t.op) == Some(key)
  }

  /** A planned operation takes those locks and no other. */
  lemma LocksMean(t: Thread, l: Lock)
    requires t.goals.Some?
    ensures l in Plan(t) <==> Takes(t, l)
  {
    hide AccountPlan;
    var accounts, goals := AccountPlan(t.op), t.goals.value;
    assert l in Plan(t) <==> l in Claims(t.op) || l in AccountLocks(accounts) || l in GoalLocks(goals) || l in Inserted(t.op);
    if l.AccountLock? && l.id in accounts {
      var k :| 0 <= k < |accounts| && accounts[k] == l.id;
      assert AccountLocks(accounts)[k] == l;
    }
    if l.GoalLock? && l.id in goals {
      var k :| 0 <= k < |goals| && goals[k] == l.id;
      assert GoalLocks(goals)[k] == l;
    }
  }

  lemma HeldOnce(threads: seq<Thread>, i: nat, j: nat, l: Lock)
    requires Exclusive(threads) && i < |threads| && j < |threads| && i != j && Ready(threads[i]) && Ready(threads[j])
    ensures !(l in Plan(threads[i]) && l in Plan(threads[j]))
  {
    hide Holds, Plan, Ready;
    if l in Plan(threads[i]) && l in Plan(threads[j]) {
      ReadyHolds(threads[i], l);
      ReadyHolds(threads[j], l);
    }
  }

  lemma ReadyInSound(threads: seq<Thread>, i: nat, j: nat)
    requires Exclusive(threads) && i < |threads| && j < |threads| && i != j && Ready(threads[i]) && Ready(threads[j])
    ensures var a, b := threads[i].op, threads[j].op;
            && !(Allocates(a) && Allocates(b)) && !SameKey(a, b)
            && (forall id <- AccountPlan(a) :: id !in AccountPlan(b))
            && (forall id <- threads[i].goals.value :: id !in threads[j].goals.value)
  {
    hide Exclusive, Plan, AccountPlan, Allocates, KeyOfTransaction, KeyOfRow;
    var a, b := threads[i].op, threads[j].op;
    OneHolds(threads, i, j, UserLock);
    if KeyOfTransaction(a).Some? {
      OneHolds(threads, i, j, KeyLock(KeyOfTransaction(a).value));
    }
    if KeyOfRow(a).Some? {
      OneHolds(threads, i, j, RowKeyLock(KeyOfRow(a).value));
    }
    forall id | id in AccountPlan(a) ensures id !in AccountPlan(b) {
      OneHolds(threads, i, j, AccountLock(id));
    }
    forall id | id in threads[i].goals.value ensures id !in threads[j].goals.value {
      OneHolds(threads, i, j, GoalLock(id));
    }
  }

  lemma OneHolds(threads: seq<Thread>, i: nat, j: nat, l: Lock)
    requires Exclusive(threads) && i < |threads| && j < |threads| && i != j && Ready(threads[i]) && Ready(threads[j])
    ensures !(Takes(threads[i], l) && Takes(threads[j], l))
  {
    hide Exclusive, Plan, Takes;
    HeldOnce(threads, i, j, l);
    LocksMean(threads[i], l);
    LocksMean(threads[j], l);
  }

  /** In every interleaving, of operations that write allocations, of those that write under one key and of those that move one
      account or one goal, at most one holds all its locks: no two of them are ready to commit at once. */
  lemma ReadyExclude(p: Pots, ops: seq<Step>, events: seq<Event>, i: nat, j: nat)
    requires PotsSound(p) && forall i :: 0 <= i < |ops| ==> Locking(ops[i])
    requires var threads := RowLocks.Run(Start(p, ops), events).threads;
             i < |threads| && j < |threads| && i != j && Ready(threads[i]) && Ready(threads[j])
    ensures var s := RowLocks.Run(Start(p, ops), events);
            var a, b := s.threads[i].op, s.threads[j].op;
            && !(Allocates(a) && Allocates(b)) && !SameKey(a, b)
            && (forall id <- AccountPlan(a) :: id !in AccountPlan(b))
            && (forall id <- GoalPlan(a, s.pots) :: id !in GoalPlan(b, s.pots))
  {
    hide PotsSound, RowLocks.Run, Plan, AccountPlan, GoalPlan, Exclusive, Allocates, SameKey, CanMove, Coherent;
    InterleavingsAreSafe(p, ops, events);
    ReadyInSound(RowLocks.Run(Start(p, ops), events).threads, i, j);
  }

  /** A create claims its key before it locks anything: of two under one key only one ever holds a lock. */
  lemma ClaimsExclude(p: Pots, ops: seq<Step>, events: seq<Event>, i: nat, j: nat)
    requires PotsSound(p) && forall i :: 0 <= i < |ops| ==> Locking(ops[i])
    requires var threads := RowLocks.Run(Start(p, ops), events).threads;
             && i < |threads| && j < |threads| && i != j && !threads[i].done && !threads[j].done
             && threads[i].op.Keyed? && threads[j].op.Keyed? && threads[i].op.key == threads[j].op.key
    ensures var threads := RowLocks.Run(Start(p, ops), events).threads;
            threads[i].held == 0 || threads[j].held == 0
  {
    hide PotsSound, RowLocks.Run, CanMove, Coherent;
    InterleavingsAreSafe(p, ops, events);
    var threads := RowLocks.Run(Start(p, ops), events).threads;
    if threads[i].held > 0 && threads[j].held > 0 {
      ClaimIsHeld(threads[i]);
      ClaimIsHeld(threads[j]);
    }
  }

  lemma ClaimIsHeld(t: Thread)
    requires !t.done && t.held > 0 && t.op.Keyed?
    ensures Holds(t, ClaimLock(t.op.key))
  {
    assert Plan(t)[0] == ClaimLock(t.op.key);
  }
}
