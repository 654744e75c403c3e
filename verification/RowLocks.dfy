/** Concurrent savings operations, interleaved at every lock: each claims its receipt, locks its accounts in ascending
    order and then, from what it reads under those locks, its goals in ascending order, and last waits for the locks of
    its inserts; it keeps all of them until it commits or aborts. Nothing deadlocks, what was read under a lock stays
    true but for the rows of deleted goals, and every commit leaves the tables sound. */
module RowLocks {
  import opened Common
  import opened Footprints
  import opened Ledger
  import opened Savings
  import opened SavingsLaws
  import opened YieldLaws
  import opened YieldShares

  /** Unique keys lock too: an insert waits for an unfinished one under the same key. The rows of all goals of a user share
      one advisory lock, taken by the trigger that checks their currency. */
  datatype Lock =
    | ClaimLock(key: string)
    | AccountLock(id: Id)
    | GoalLock(id: Id)
    | KeyLock(key: string)
    | UserLock
    | RowKeyLock(key: string)
  {
    function Rank(): nat {
      match this
      case ClaimLock(_) => 0
      case AccountLock(_) => 1
      case GoalLock(_) => 2
      case KeyLock(_) => 3
      case UserLock => 4
      case RowKeyLock(_) => 5
    }

    /** The order in which every operation locks: accounts and goals each in ascending order, and one lock of any other
        kind. */
    predicate Before(other: Lock) {
      Rank() < other.Rank() || (AccountLock? && other.AccountLock? && id < other.id) || (GoalLock? && other.GoalLock? && id < other.id)
    }
  }

  /** What a thread saw when it locked an account: the row, and the money assigned in it. */
  datatype Sight = Sight(account: Account, rows: seq<Allocation>)

  /** `goals` is planned once every account is locked. */
  datatype Thread = Thread(op: Step, held: nat, goals: Option<seq<Id>>, seen: map<Id, Sight>, done: bool)

  datatype System = System(pots: Pots, threads: seq<Thread>)

  function AccountLocks(ids: seq<Id>): seq<Lock> {
    seq(|ids|, i requires 0 <= i < |ids| => AccountLock(ids[i]))
  }

  function GoalLocks(ids: seq<Id>): seq<Lock> {
    seq(|ids|, i requires 0 <= i < |ids| => GoalLock(ids[i]))
  }

  /** A create claims its receipt before anything else. */
  function Claims(op: Step): seq<Lock> {
    if op.Keyed? then [ClaimLock(op.key)] else []
  }

  /** The locks that inserting rows takes. */
  function Inserted(op: Step): seq<Lock> {
    match op
    case SaveTo(_, input) => [KeyLock(input.key), UserLock]
    case AssignTo(_, input) => [UserLock, RowKeyLock(input.key)]
    case MoveFrom(_, input) => [UserLock, RowKeyLock(input.key)]
    case MatchYield(_, input, _) => if input.gain > 0 then [UserLock] else []
    case Keyed(key, _) => [KeyLock(key)]
    case _ => []
  }

  /** The locks taken before the goals are planned. */
  function Early(op: Step): seq<Lock> {
    Claims(op) + AccountLocks(AccountPlan(op))
  }

  /** The locks a thread takes, as far as it has planned them. */
  function Plan(t: Thread): seq<Lock> {
    Early(t.op) + (if t.goals.Some? then GoalLocks(t.goals.value) + Inserted(t.op) else [])
  }

  predicate Holds(t: Thread, l: Lock) {
    !t.done && exists i :: 0 <= i < t.held && i < |Plan(t)| && Plan(t)[i] == l
  }

  /** The next row the thread locks, if it still has one to lock. */
  function Wanted(t: Thread): Option<Lock> {
    if t.held < |Plan(t)| then Some(Plan(t)[t.held]) else None
  }

  predicate Exists(p: Pots, l: Lock) {
    match l
    case AccountLock(id) => id in p.books.accounts
    case GoalLock(id) => id in p.goals
    case _ => true
  }

  predicate HeldByOther(threads: seq<Thread>, l: Lock, i: nat) {
    exists j :: 0 <= j < |threads| && j != i && Holds(threads[j], l)
  }

  /** A thread can move unless the row it wants exists and another thread holds it. */
  predicate CanMove(s: System, i: nat) {
    && i < |s.threads| && !s.threads[i].done
    && (Wanted(s.threads[i]).Some? && Exists(s.pots, Wanted(s.threads[i]).value) ==> !HeldByOther(s.threads, Wanted(s.threads[i]).value, i))
  }

  function Stopped(t: Thread): Thread {
    t.(done := true)
  }

  function Locked(t: Thread, l: Lock, p: Pots): Thread
    requires Exists(p, l)
  {
    var seen := if l.AccountLock? then t.seen[l.id := Sight(p.books.accounts[l.id], RowsIn(p.rows, l.id))] else t.seen;
    t.(held := t.held + 1, seen := seen)
  }

  /** One step of thread i: lock the next row, or give up if there is no such row; plan the goals; or commit. */
  function Moved(s: System, i: nat): System
    requires CanMove(s, i)
  {
    var t := s.threads[i];
    if Wanted(t).Some? then
      if Exists(s.pots, Wanted(t).value) then s.(threads := s.threads[i := Locked(t, Wanted(t).value, s.pots)])
      else s.(threads := s.threads[i := Stopped(t)])
    else if t.goals.None? then s.(threads := s.threads[i := t.(goals := Some(GoalPlan(t.op, s.pots)))])
    else System(Committed(s.pots, Take(s.pots, t.op)), s.threads[i := Stopped(t)])
  }

  /** A thread may also abort at any moment; its locks are released and nothing is written. */
  datatype Event = Go(thread: nat) | Abort(thread: nat)

  predicate Possible(s: System, e: Event) {
    match e
    case Go(i) => CanMove(s, i)
    case Abort(i) => i < |s.threads| && !s.threads[i].done
  }

  function Next(s: System, e: Event): System
    requires Possible(s, e)
  {
    match e
    case Go(i) => Moved(s, i)
    case Abort(i) => s.(threads := s.threads[i := Stopped(s.threads[i])])
  }

  /** A run: possible events happen, impossible ones are skipped. */
  function Run(s: System, events: seq<Event>): System
    decreases |events|
  {
    if events == [] then s else Run(if Possible(s, events[0]) then Next(s, events[0]) else s, events[1..])
  }

  function Start(p: Pots, ops: seq<Step>): System {
    System(p, seq(|ops|, i requires 0 <= i < |ops| => Thread(ops[i], 0, None, map[], false)))
  }

  // ---------------------------------------------------------------- the invariant

  /** The rows whose goals still exist. */
  function Surviving(rows: seq<Allocation>, goals: map<Id, Goal>): seq<Allocation> {
    if rows == [] then []
    else
      var last := rows[|rows| - 1];
      Surviving(rows[..|rows| - 1], goals) + (if last.goal in goals then [last] else [])
  }

  /** The thread follows its plan, and what it read under its locks is still true. */
  ghost predicate ThreadSound(t: Thread, p: Pots) {
    && Locking(t.op)
    && (!t.done ==>
          && t.held <= |Plan(t)| && (t.goals.None? ==> t.held <= |Early(t.op)|) && (t.goals.Some? ==> t.held >= |Early(t.op)|)
          && (forall k :: 0 <= k < |AccountPlan(t.op)| && |Claims(t.op)| + k < t.held ==> Coherent(t, p, AccountPlan(t.op)[k]))
          && (t.goals.Some? ==> Ascending(t.goals.value) && PlanCurrent(t.op, t.goals.value, p) && LockedExist(t, p)))
  }

  /** The account is as it was when it was locked, and so are its rows, except that goals may have been deleted. */
  predicate Coherent(t: Thread, p: Pots, a: Id) {
    && a in t.seen && a in p.books.accounts
    && p.books.accounts[a] == t.seen[a].account && RowsIn(p.rows, a) == Surviving(t.seen[a].rows, p.goals)
  }

  /** The planned goals are those the operation needs, unless one of them was deleted before it was locked. */
  predicate PlanCurrent(op: Step, goals: seq<Id>, p: Pots) {
    goals == GoalPlan(op, p) || exists g <- goals :: g !in p.goals
  }

  /** Goals that the thread has locked exist. */
  predicate LockedExist(t: Thread, p: Pots)
    requires t.goals.Some?
  {
    forall k :: 0 <= k < |t.goals.value| && |Early(t.op)| + k < t.held ==> t.goals.value[k] in p.goals
  }

  /** No row is locked by two threads. */
  ghost predicate Exclusive(threads: seq<Thread>) {
    forall i, j, l: Lock :: 0 <= i < |threads| && 0 <= j < |threads| && Holds(threads[i], l) && Holds(threads[j], l) ==> i == j
  }

  ghost predicate SystemSound(s: System) {
    && PotsSound(s.pots) && Exclusive(s.threads)
    && (forall i :: 0 <= i < |s.threads| ==> ThreadSound(s.threads[i], s.pots))
  }

  lemma StartIsSound(p: Pots, ops: seq<Step>)
    requires PotsSound(p) && forall i :: 0 <= i < |ops| ==> Locking(ops[i])
    ensures SystemSound(Start(p, ops))
  {
    hide PotsSound;
  }

  // ---------------------------------------------------------------- plans ascend

  predicate InOrder(locks: seq<Lock>) {
    forall i, j :: 0 <= i < j < |locks| ==> locks[i].Before(locks[j])
  }

  lemma PartsAreInOrder(op: Step, goals: seq<Id>, p: Pots)
    requires Ascending(goals)
    ensures InOrder(Early(op)) && forall i :: 0 <= i < |Early(op)| ==> Early(op)[i].Rank() < 2
    ensures InOrder(GoalLocks(goals)) && InOrder(Inserted(op)) && forall i :: 0 <= i < |Inserted(op)| ==> Inserted(op)[i].Rank() > 2
  {
    hide GoalPlan, AccountPlan;
    PlansAscend(op, p);
  }

  lemma PlanIsInOrder(t: Thread, p: Pots)
    requires ThreadSound(t, p) && !t.done
    ensures InOrder(Plan(t))
  {
    hide GoalPlan, AccountPlan, Coherent, Early, Inserted, PlanCurrent, LockedExist;
    PartsAreInOrder(t.op, if t.goals.Some? then t.goals.value else [], p);
  }

  lemma WantsAfterHeld(t: Thread, p: Pots, l: Lock)
    requires ThreadSound(t, p) && Wanted(t).Some? && Holds(t, l)
    ensures l.Before(Wanted(t).value)
  {
    hide GoalPlan, AccountPlan, Coherent, Plan, Early, PlanCurrent, LockedExist;
    PlanIsInOrder(t, p);
  }

  // ---------------------------------------------------------------- locking and planning keep the system sound

  lemma StoppedHoldsNothing(t: Thread, l: Lock)
    ensures !Holds(Stopped(t), l)
  {
  }

  lemma LockedHolds(t: Thread, l: Lock, p: Pots, other: Lock)
    requires Wanted(t) == Some(l) && Exists(p, l) && Holds(Locked(t, l, p), other)
    ensures Holds(t, other) || other == l
  {
    hide AccountPlan;
  }

  lemma PlannedHolds(t: Thread, ids: seq<Id>, l: Lock)
    requires t.goals.None? && t.held <= |Early(t.op)| && Holds(t.(goals := Some(ids)), l)
    ensures Holds(t, l)
  {
    hide Early, Inserted;
    var i :| 0 <= i < t.held && i < |Plan(t.(goals := Some(ids)))| && Plan(t.(goals := Some(ids)))[i] == l;
    assert Plan(t)[i] == l;
  }

  lemma SubstituteExclusive(threads: seq<Thread>, i: nat, t: Thread)
    requires Exclusive(threads) && i < |threads|
    requires forall l: Lock :: Holds(t, l) ==> Holds(threads[i], l) || !HeldByOther(threads, l, i)
    ensures Exclusive(threads[i := t])
  {
    hide Holds;
  }

  lemma LockKeeps(s: System, i: nat)
    requires SystemSound(s) && CanMove(s, i) && Wanted(s.threads[i]).Some? && Exists(s.pots, Wanted(s.threads[i]).value)
    ensures SystemSound(Moved(s, i))
  {
    hide PotsSound, GoalPlan, RowsIn, Holds, HeldByOther, Exclusive;
    var t := s.threads[i];
    var l := Wanted(t).value;
    var locked := Locked(t, l, s.pots);
    forall other: Lock | Holds(locked, other)
      ensures Holds(t, other) || !HeldByOther(s.threads, other, i)
    {
      LockedHolds(t, l, s.pots, other);
    }
    SubstituteExclusive(s.threads, i, locked);
    LockedIsSound(t, l, s.pots);
  }

  lemma EarlyLength(op: Step)
    ensures |Early(op)| == |Claims(op)| + |AccountPlan(op)|
  {
    hide AccountPlan, Claims;
  }

  lemma AccountIndex(t: Thread, k: nat)
    requires k < |AccountPlan(t.op)|
    ensures |Early(t.op)| == |Claims(t.op)| + |AccountPlan(t.op)|
    ensures |Claims(t.op)| + k < |Plan(t)| && Plan(t)[|Claims(t.op)| + k] == AccountLock(AccountPlan(t.op)[k])
  {
    hide AccountPlan, Claims, Inserted;
  }

  lemma GoalIndex(t: Thread, k: nat)
    requires t.goals.Some? && k < |t.goals.value|
    ensures |Early(t.op)| + k < |Plan(t)| && Plan(t)[|Early(t.op)| + k] == GoalLock(t.goals.value[k])
  {
    hide Early, Inserted;
  }

  /** The next account, if that is what is locked next, is then locked and seen. */
  lemma LockedIsSound(t: Thread, l: Lock, p: Pots)
    requires PotsSound(p) && ThreadSound(t, p) && !t.done && Wanted(t) == Some(l) && Exists(p, l)
    ensures ThreadSound(Locked(t, l, p), p)
  {
    hide PotsSound, GoalPlan, RowsIn, AccountPlan, Early, Inserted, Claims, Surviving, PlanCurrent;
    var locked := Locked(t, l, p);
    assert Plan(locked) == Plan(t);
    if t.goals.None? {
      WithoutGoals(t);
    }
    forall k | 0 <= k < |AccountPlan(t.op)| && |Claims(t.op)| + k < locked.held
      ensures Coherent(locked, p, AccountPlan(t.op)[k])
    {
      AccountIndex(t, k);
      AllSurvive(p, AccountPlan(t.op)[k]);
      if |Claims(t.op)| + k < t.held {
        assert Coherent(t, p, AccountPlan(t.op)[k]);
      }
    }
    if t.goals.Some? {
      forall k | 0 <= k < |t.goals.value| && |Early(t.op)| + k < locked.held
        ensures t.goals.value[k] in p.goals
      {
        GoalIndex(t, k);
      }
    }
  }

  lemma WithoutGoals(t: Thread)
    requires t.goals.None?
    ensures Plan(t) == Early(t.op)
  {
    hide Early;
  }

  lemma {:induction false} NoneIsGone(rows: seq<Allocation>, goals: map<Id, Goal>)
    requires forall i :: 0 <= i < |rows| ==> rows[i].goal in goals
    ensures Surviving(rows, goals) == rows
  {
    if rows != [] {
      NoneIsGone(rows[..|rows| - 1], goals);
    }
  }

  lemma {:induction false} RowsInArePart(rows: seq<Allocation>, a: Id)
    ensures forall r <- RowsIn(rows, a) :: r in rows
  {
    if rows != [] {
      RowsInArePart(rows[..|rows| - 1], a);
    }
  }

  lemma AllSurvive(p: Pots, a: Id)
    requires PotsSound(p)
    ensures Surviving(RowsIn(p.rows, a), p.goals) == RowsIn(p.rows, a)
  {
    hide Consistent, RecordsBacked, RecordsTracked, DatesAgree, SharesLinked, Stamped, GoalAgrees, NeverNegative, RowsIn, Surviving;
    RowsInArePart(p.rows, a);
    var rows := RowsIn(p.rows, a);
    forall i | 0 <= i < |rows| ensures rows[i].goal in p.goals {
      assert rows[i] in rows;
    }
    NoneIsGone(rows, p.goals);
  }

  lemma StopKeeps(s: System, i: nat)
    requires SystemSound(s) && i < |s.threads|
    ensures SystemSound(s.(threads := s.threads[i := Stopped(s.threads[i])]))
  {
    hide PotsSound, GoalPlan, Coherent, Holds, AccountPlan;
    forall l: Lock ensures !Holds(Stopped(s.threads[i]), l) {
      StoppedHoldsNothing(s.threads[i], l);
    }
    SubstituteExclusive(s.threads, i, Stopped(s.threads[i]));
  }

  lemma PlanKeeps(s: System, i: nat)
    requires SystemSound(s) && CanMove(s, i) && Wanted(s.threads[i]).None? && s.threads[i].goals.None?
    ensures SystemSound(Moved(s, i))
  {
    hide PotsSound, GoalPlan, RowsIn, Holds, HeldByOther, AccountPlan, Exclusive, Early, Claims, Coherent;
    var t := s.threads[i];
    var planned := t.(goals := Some(GoalPlan(t.op, s.pots)));
    WithoutGoals(t);
    PlansAscend(t.op, s.pots);
    SameSight(t, planned, s.pots);
    forall l: Lock | Holds(planned, l) ensures Holds(t, l) {
      PlannedHolds(t, GoalPlan(t.op, s.pots), l);
    }
    SubstituteExclusive(s.threads, i, planned);
  }

  lemma SameSight(t: Thread, u: Thread, p: Pots)
    requires t.seen == u.seen
    ensures forall a: Id :: Coherent(t, p, a) <==> Coherent(u, p, a)
  {
    hide RowsIn, Surviving;
  }

  // ---------------------------------------------------------------- committing

  lemma {:induction false} GoalsOfRows(rows: seq<Allocation>, a: Id)
    ensures GoalsIn(RowsIn(rows, a), a) == GoalsIn(rows, a)
  {
    hide InsertId;
    if rows != [] {
      var init, last := rows[..|rows| - 1], rows[|rows| - 1];
      GoalsOfRows(init, a);
      if last.account == Some(a) {
        assert (RowsIn(init, a) + [last])[..|RowsIn(init, a)|] == RowsIn(init, a);
      } else {
        assert RowsIn(rows, a) == RowsIn(init, a);
      }
    }
  }

  lemma {:induction false} CreditedOfRows(rows: seq<Allocation>, a: Id, id: nat)
    requires forall i :: 0 <= i < |rows| && IsShare(rows[i], id) ==> rows[i].account == Some(a)
    ensures CreditedBy(RowsIn(rows, a), id) == CreditedBy(rows, id)
  {
    if rows != [] {
      var init, last := rows[..|rows| - 1], rows[|rows| - 1];
      CreditedOfRows(init, a, id);
      if last.account == Some(a) {
        assert (RowsIn(init, a) + [last])[..|RowsIn(init, a)|] == RowsIn(init, a);
      } else {
        assert RowsIn(rows, a) == RowsIn(init, a);
        assert CreditedBy(rows, id) == CreditedBy(init, id);
      }
    }
  }

  lemma SharesOfRecord(p: Pots, a: Id, id: nat)
    requires PotsSound(p) && RecordFor(p.reconciliations, a, id).Some?
    ensures forall i :: 0 <= i < |p.rows| && IsShare(p.rows[i], id) ==> p.rows[i].account == Some(a)
  {
    hide PotsSound, FindRecord;
    StampedRecords(p);
    SharesBelongToRecord(p, FindRecord(p.reconciliations, id).value);
  }

  /** The goals an operation plans depend only on the accounts it has locked. */
  lemma PlanIsStable(op: Step, p: Pots, after: Pots)
    requires PotsSound(p) && PotsSound(after)
    requires forall i :: 0 <= i < |AccountPlan(op)| ==> SameAccountState(p, after, AccountPlan(op)[i])
    ensures GoalPlan(op, after) == GoalPlan(op, p)
  {
    hide PotsSound, GoalsIn, CreditedBy, RowsIn, InsertId, GoalIds, FindRecord, RecordFor;
    match op
    case MatchYield(account, _, _) =>
      assert AccountPlan(op)[0] == account;
      GoalsOfRows(p.rows, account);
      GoalsOfRows(after.rows, account);
    case UndoMatch(account, id) =>
      assert AccountPlan(op)[0] == account;
      assert RecordFor(after.reconciliations, account, id) == RecordFor(p.reconciliations, account, id);
      if RecordFor(p.reconciliations, account, id).Some? {
        SharesOfRecord(p, account, id);
        SharesOfRecord(after, account, id);
        CreditedOfRows(p.rows, account, id);
        CreditedOfRows(after.rows, account, id);
      }
    case _ => {}
  }

  /** A running thread holds the locks of its plan up to the one it wants. */
  lemma HolderHolds(t: Thread, i: nat)
    requires !t.done && i < t.held && i < |Plan(t)|
    ensures Holds(t, Plan(t)[i])
  {
    hide Plan;
  }

  /** Of a thread about to commit every planned goal is locked, so it exists, and the plan is what the operation needs. */
  lemma CommitterPlan(t: Thread, p: Pots)
    requires ThreadSound(t, p) && !t.done && Wanted(t).None? && t.goals.Some?
    ensures t.goals.value == GoalPlan(t.op, p) && t.held == |Plan(t)|
    ensures forall k :: 0 <= k < |t.goals.value| ==> Holds(t, GoalLock(t.goals.value[k]))
    ensures forall k :: 0 <= k < |AccountPlan(t.op)| ==> Holds(t, AccountLock(AccountPlan(t.op)[k]))
  {
    hide GoalPlan, AccountPlan, Coherent, Early, Inserted, Claims, Holds;
    var goals := t.goals.value;
    forall k | 0 <= k < |goals| ensures goals[k] in p.goals && Holds(t, GoalLock(goals[k])) {
      GoalIndex(t, k);
      HolderHolds(t, |Early(t.op)| + k);
    }
    forall k | 0 <= k < |AccountPlan(t.op)| ensures Holds(t, AccountLock(AccountPlan(t.op)[k])) {
      AccountIndex(t, k);
      HolderHolds(t, |Claims(t.op)| + k);
    }
  }

  /** Accounts that another thread holds are not touched by a commit. */
  lemma OthersAccounts(s: System, i: nat, j: nat, k: nat)
    requires SystemSound(s) && i < |s.threads| && j < |s.threads| && i != j && !s.threads[i].done && !s.threads[j].done
    requires Wanted(s.threads[i]).None? && s.threads[i].goals.Some?
    requires k < |AccountPlan(s.threads[j].op)| && |Claims(s.threads[j].op)| + k < s.threads[j].held
    ensures AccountPlan(s.threads[j].op)[k] !in AccountPlan(s.threads[i].op)
  {
    hide PotsSound, GoalPlan, AccountPlan, Coherent, Plan, Holds, Claims, Early, PlanCurrent, LockedExist, Wanted;
    var t, u := s.threads[i], s.threads[j];
    var a := AccountPlan(u.op)[k];
    AccountIndex(u, k);
    HolderHolds(u, |Claims(u.op)| + k);
    assert ThreadSound(t, s.pots);
    CommitterPlan(t, s.pots);
  }

  /** Goals that another thread holds are not the committer's. */
  lemma OthersGoals(s: System, i: nat, j: nat, k: nat)
    requires SystemSound(s) && i < |s.threads| && j < |s.threads| && i != j && !s.threads[i].done && !s.threads[j].done
    requires Wanted(s.threads[i]).None? && s.threads[i].goals.Some?
    requires s.threads[j].goals.Some? && k < |s.threads[j].goals.value| && |Early(s.threads[j].op)| + k < s.threads[j].held
    ensures s.threads[j].goals.value[k] !in GoalPlan(s.threads[i].op, s.pots)
  {
    hide PotsSound, GoalPlan, AccountPlan, Coherent, Plan, Holds, Claims, Early, PlanCurrent, LockedExist, Wanted;
    var t, u := s.threads[i], s.threads[j];
    var g := u.goals.value[k];
    GoalIndex(u, k);
    HolderHolds(u, |Early(u.op)| + k);
    assert ThreadSound(t, s.pots);
    CommitterPlan(t, s.pots);
  }

  lemma {:induction false} SameSurvivors(rows: seq<Allocation>, goals: map<Id, Goal>, others: map<Id, Goal>)
    requires goals.Keys == others.Keys
    ensures Surviving(rows, goals) == Surviving(rows, others)
  {
    if rows != [] {
      SameSurvivors(rows[..|rows| - 1], goals, others);
    }
  }

  /** What a thread saw stays true when an account it holds is left alone. */
  lemma StaysCoherent(u: Thread, p: Pots, after: Pots, a: Id)
    requires Coherent(u, p, a) && SameAccountState(p, after, a) && after.goals.Keys == p.goals.Keys
    ensures Coherent(u, after, a)
  {
    hide RowsIn, Surviving, RecordFor;
    SameSurvivors(u.seen[a].rows, p.goals, after.goals);
  }

  /** A plan stays current as long as it has all its accounts, none of which changed. */
  lemma PlanStaysCurrent(u: Thread, p: Pots, after: Pots)
    requires PotsSound(p) && PotsSound(after) && u.goals.Some? && PlanCurrent(u.op, u.goals.value, p) && after.goals.Keys == p.goals.Keys
    requires forall k :: 0 <= k < |AccountPlan(u.op)| ==> SameAccountState(p, after, AccountPlan(u.op)[k])
    ensures PlanCurrent(u.op, u.goals.value, after)
  {
    hide PotsSound, GoalPlan, RowsIn, RecordFor, AccountPlan;
    PlanIsStable(u.op, p, after);
  }

  lemma OtherStaysSound(s: System, i: nat, j: nat, after: Pots)
    requires SystemSound(s) && i < |s.threads| && j < |s.threads| && i != j && !s.threads[i].done && Wanted(s.threads[i]).None?
    requires s.threads[i].goals.Some?
    requires PotsSound(after) && Touches(s.pots, after, AccountPlan(s.threads[i].op), GoalPlan(s.threads[i].op, s.pots))
    ensures ThreadSound(s.threads[j], after)
  {
    hide PotsSound, GoalPlan, AccountPlan, Plan, Holds, RowsIn, RecordFor, Wanted, SameAccountState, Coherent, PlanCurrent, Claims, Early;
    var u := s.threads[j];
    assert ThreadSound(u, s.pots);
    if !u.done {
      forall k | 0 <= k < |AccountPlan(u.op)| && |Claims(u.op)| + k < u.held
        ensures SameAccountState(s.pots, after, AccountPlan(u.op)[k]) && Coherent(u, after, AccountPlan(u.op)[k])
      {
        OthersAccounts(s, i, j, k);
        assert Coherent(u, s.pots, AccountPlan(u.op)[k]);
        StaysCoherent(u, s.pots, after, AccountPlan(u.op)[k]);
      }
      if u.goals.Some? {
        EarlyLength(u.op);
        PlanStaysCurrent(u, s.pots, after);
      }
    }
  }

  // ---------------------------------------------------------------- deleting a goal meanwhile

  lemma {:induction false} RowsInOfOthers(rows: seq<Allocation>, goal: Id, a: Id)
    ensures RowsIn(RowsOfOthers(rows, goal), a) == RowsOfOthers(RowsIn(rows, a), goal)
  {
    if rows != [] {
      var init, last := rows[..|rows| - 1], rows[|rows| - 1];
      RowsInOfOthers(init, goal, a);
      assert init + [last] == rows;
      hide RowsIn, RowsOfOthers;
      OthersMore(init, last, goal);
      OthersMore(RowsIn(init, a), last, goal);
      RowsInMore(init, last, a);
      RowsInMore(RowsOfOthers(init, goal), last, a);
      assert RowsIn(init, a) + [] == RowsIn(init, a);
      assert RowsIn(RowsOfOthers(init, goal), a) + [] == RowsIn(RowsOfOthers(init, goal), a);
    }
  }

  lemma {:induction false} SurvivorsOfOthers(rows: seq<Allocation>, goals: map<Id, Goal>, goal: Id)
    ensures RowsOfOthers(Surviving(rows, goals), goal) == Surviving(rows, goals - {goal})
  {
    if rows != [] {
      var init, last := rows[..|rows| - 1], rows[|rows| - 1];
      SurvivorsOfOthers(init, goals, goal);
      OthersMore(Surviving(init, goals), last, goal);
      assert Surviving(init, goals) + [] == Surviving(init, goals);
      assert Surviving(init, goals - {goal}) + [] == Surviving(init, goals - {goal});
    }
  }

  lemma CoherentWithoutGoal(u: Thread, p: Pots, after: Pots, goal: Id, a: Id)
    requires Coherent(u, p, a) && Loses(p, after, goal)
    ensures Coherent(u, after, a)
  {
    hide RowsIn, Surviving, RowsOfOthers;
    RowsInOfOthers(p.rows, goal, a);
    SurvivorsOfOthers(u.seen[a].rows, p.goals, goal);
  }

  lemma {:induction false} GoalsInWithout(rows: seq<Allocation>, goal: Id, a: Id)
    requires goal !in GoalsIn(rows, a)
    ensures GoalsIn(RowsOfOthers(rows, goal), a) == GoalsIn(rows, a)
  {
    hide InsertId;
    if rows != [] {
      var init, last := rows[..|rows| - 1], rows[|rows| - 1];
      GoalsAreDistinct(init, a);
      InsertIsAscending(GoalsIn(init, a), last.goal);
      GoalsInWithout(init, goal, a);
      OthersMore(init, last, goal);
      assert init + [last] == rows;
      if last.goal != goal {
        assert (RowsOfOthers(init, goal) + [last])[..|RowsOfOthers(init, goal)|] == RowsOfOthers(init, goal);
      }
    }
  }

  lemma CreditedMore(rows: seq<Allocation>, r: Allocation, operation: nat)
    ensures CreditedBy(rows + [r], operation) == CreditedBy(rows, operation) + if IsShare(r, operation) then [Share(r.goal, r.amount)] else []
  {
    assert (rows + [r])[..|rows|] == rows;
  }

  lemma {:induction false} CreditedWithout(rows: seq<Allocation>, goal: Id, operation: nat)
    requires goal !in GoalIds(CreditedBy(rows, operation))
    ensures CreditedBy(RowsOfOthers(rows, goal), operation) == CreditedBy(rows, operation)
  {
    if rows != [] {
      var init, last := rows[..|rows| - 1], rows[|rows| - 1];
      FewerCredited(rows, operation, goal);
      CreditedWithout(init, goal, operation);
      assert init + [last] == rows;
      hide GoalIds, CreditedBy, RowsOfOthers;
      OthersMore(init, last, goal);
      CreditedMore(init, last, operation);
      CreditedMore(RowsOfOthers(init, goal), last, operation);
    }
  }

  lemma FewerCredited(rows: seq<Allocation>, operation: nat, goal: Id)
    requires rows != [] && goal !in GoalIds(CreditedBy(rows, operation))
    ensures goal !in GoalIds(CreditedBy(rows[..|rows| - 1], operation))
    ensures IsShare(rows[|rows| - 1], operation) ==> rows[|rows| - 1].goal != goal
  {
    hide InsertId;
    var before, last := CreditedBy(rows[..|rows| - 1], operation), rows[|rows| - 1];
    if IsShare(last, operation) {
      var share := Share(last.goal, last.amount);
      assert (before + [share])[..|before|] == before;
      GoalIdsAscend(before);
      InsertIsAscending(GoalIds(before), last.goal);
    } else {
      assert before + [] == before;
    }
  }

  /** Deleting a goal outside a plan leaves the plan as it is. */
  lemma PlanWithoutGoal(op: Step, p: Pots, after: Pots, goal: Id)
    requires Loses(p, after, goal)
    ensures GoalPlan(op, after) == GoalPlan(op, p) || goal in GoalPlan(op, p)
  {
    hide GoalsIn, CreditedBy, GoalIds, InsertId, FindRecord, RowsOfOthers;
    match op
    case MatchYield(account, _, _) => if goal !in GoalsIn(p.rows, account) { GoalsInWithout(p.rows, goal, account); }
    case UndoMatch(account, id) => if goal !in GoalIds(CreditedBy(p.rows, id)) { CreditedWithout(p.rows, goal, id); }
    case _ => {}
  }

  lemma OtherWithoutGoal(s: System, i: nat, j: nat, after: Pots)
    requires SystemSound(s) && i < |s.threads| && j < |s.threads| && i != j && !s.threads[i].done && Wanted(s.threads[i]).None?
    requires s.threads[i].goals.Some? && s.threads[i].op.DropGoal? && Loses(s.pots, after, s.threads[i].op.goal)
    ensures ThreadSound(s.threads[j], after)
  {
    hide PotsSound, AccountPlan, Plan, Holds, RowsIn, Wanted, Coherent, Claims, Early, RowsOfOthers, GoalPlan;
    var u, goal := s.threads[j], s.threads[i].op.goal;
    assert ThreadSound(u, s.pots);
    if !u.done {
      forall k | 0 <= k < |AccountPlan(u.op)| && |Claims(u.op)| + k < u.held
        ensures Coherent(u, after, AccountPlan(u.op)[k])
      {
        assert Coherent(u, s.pots, AccountPlan(u.op)[k]);
        CoherentWithoutGoal(u, s.pots, after, goal, AccountPlan(u.op)[k]);
      }
      if u.goals.Some? {
        PlanWithoutGoal(u.op, s.pots, after, goal);
        forall k | 0 <= k < |u.goals.value| && |Early(u.op)| + k < u.held
          ensures u.goals.value[k] in after.goals
        {
          OthersGoals(s, i, j, k);
          PlanOfDeletion(s.threads[i].op, s.pots);
        }
      }
    }
  }

  lemma PlanOfDeletion(op: Step, p: Pots)
    requires op.DropGoal?
    ensures GoalPlan(op, p) == [op.goal]
  {
  }

  lemma CommitKeeps(s: System, i: nat)
    requires SystemSound(s) && CanMove(s, i) && Wanted(s.threads[i]).None? && s.threads[i].goals.Some?
    ensures SystemSound(Moved(s, i))
  {
    hide PotsSound, GoalPlan, AccountPlan, Holds, Touches, Take, Wanted, ThreadSound, Exclusive, HeldByOther, Loses;
    var t := s.threads[i];
    var after := Committed(s.pots, Take(s.pots, t.op));
    StopKeeps(s, i);
    CommitterLocks(t, s.pots);
    if Take(s.pots, t.op).Ok? {
      TakeKeeps(s.pots, t.op);
      if t.op.DropGoal? {
        TakesGoal(s.pots, t.op);
      } else {
        OperationTouches(s.pots, t.op);
      }
      forall j | 0 <= j < |s.threads|
        ensures ThreadSound(Moved(s, i).threads[j], after)
      {
        if j == i {
          StoppedIsSound(t, s.pots, after);
        } else if t.op.DropGoal? {
          OtherWithoutGoal(s, i, j, after);
        } else {
          OtherStaysSound(s, i, j, after);
        }
      }
    }
  }

  lemma TakesGoal(p: Pots, op: Step)
    requires op.DropGoal? && Take(p, op).Ok?
    ensures Loses(p, Take(p, op).value, op.goal)
  {
  }

  lemma CommitterLocks(t: Thread, p: Pots)
    requires ThreadSound(t, p)
    ensures Locking(t.op)
  {
    hide GoalPlan, AccountPlan, Coherent;
  }

  lemma StoppedIsSound(t: Thread, p: Pots, after: Pots)
    requires ThreadSound(t, p)
    ensures ThreadSound(Stopped(t), after)
  {
    hide GoalPlan, AccountPlan, Coherent;
  }

  lemma NextKeeps(s: System, e: Event)
    requires SystemSound(s) && Possible(s, e)
    ensures SystemSound(Next(s, e))
  {
    hide SystemSound, Exists, Wanted, HeldByOther, Moved;
    match e
    case Abort(i) => StopKeeps(s, i);
    case Go(i) =>
      var t := s.threads[i];
      if Wanted(t).Some? {
        if Exists(s.pots, Wanted(t).value) {
          LockKeeps(s, i);
        } else {
          StopKeeps(s, i);
          GivesUp(s, i);
        }
      } else if t.goals.None? {
        PlanKeeps(s, i);
      } else {
        CommitKeeps(s, i);
      }
  }

  lemma GivesUp(s: System, i: nat)
    requires CanMove(s, i) && Wanted(s.threads[i]).Some? && !Exists(s.pots, Wanted(s.threads[i]).value)
    ensures Moved(s, i) == s.(threads := s.threads[i := Stopped(s.threads[i])])
  {
    hide Take;
  }

  lemma {:induction false} RunKeeps(s: System, events: seq<Event>)
    requires SystemSound(s)
    ensures SystemSound(Run(s, events))
    decreases |events|
  {
    hide SystemSound, Next, Possible;
    if events != [] {
      if Possible(s, events[0]) {
        NextKeeps(s, events[0]);
        RunKeeps(Next(s, events[0]), events[1..]);
      } else {
        RunKeeps(s, events[1..]);
      }
    }
  }

  // ---------------------------------------------------------------- no deadlock

  predicate Running(s: System, i: nat) {
    i < |s.threads| && !s.threads[i].done
  }

  /** A thread that cannot move waits for a row another running thread holds. */
  predicate Blocked(s: System, i: nat) {
    Running(s, i) && Wanted(s.threads[i]).Some? && HeldByOther(s.threads, Wanted(s.threads[i]).value, i)
  }

  /** Of the first n threads, all of them blocked when running, one that wants a row no other wants a later one than. */
  lemma {:induction false} LatestWanted(s: System, n: nat) returns (m: Option<nat>)
    requires n <= |s.threads| && forall i :: 0 <= i < n && Running(s, i) ==> Wanted(s.threads[i]).Some?
    ensures m.None? ==> forall i :: 0 <= i < n ==> !Running(s, i)
    ensures m.Some? ==> m.value < n && Running(s, m.value)
    ensures m.Some? ==> forall i :: 0 <= i < n && Running(s, i) ==> !Wanted(s.threads[m.value]).value.Before(Wanted(s.threads[i]).value)
  {
    hide Wanted;
    m := None;
    for k := 0 to n
      invariant m.None? ==> forall i :: 0 <= i < k ==> !Running(s, i)
      invariant m.Some? ==> m.value < k && Running(s, m.value)
      invariant m.Some? ==> forall i :: 0 <= i < k && Running(s, i) ==> !Wanted(s.threads[m.value]).value.Before(Wanted(s.threads[i]).value)
    {
      if Running(s, k) && (m.None? || Wanted(s.threads[m.value]).value.Before(Wanted(s.threads[k]).value)) {
        m := Some(k);
      }
    }
  }

  /** As long as some operation is unfinished, some operation can move. */
  lemma NoDeadlock(s: System, i: nat)
    requires SystemSound(s) && Running(s, i)
    ensures exists j :: 0 <= j < |s.threads| && CanMove(s, j)
  {
    hide PotsSound, Wanted, HeldByOther, ThreadSound, Exclusive;
    if forall j :: 0 <= j < |s.threads| ==> !CanMove(s, j) {
      forall j | 0 <= j < |s.threads| && Running(s, j)
        ensures Blocked(s, j)
      {
        assert !CanMove(s, j);
      }
      assert forall j :: 0 <= j < |s.threads| && Running(s, j) ==> Blocked(s, j);
      var m := LatestWanted(s, |s.threads|);
      var l := Wanted(s.threads[m.value]).value;
      assert Blocked(s, m.value);
      var u := Holder(s.threads, l, m.value);
      assert Running(s, u) && Blocked(s, u);
      assert ThreadSound(s.threads[u], s.pots);
      WantsAfterHeld(s.threads[u], s.pots, l);
    }
  }

  lemma Holder(threads: seq<Thread>, l: Lock, i: nat) returns (j: nat)
    requires HeldByOther(threads, l, i)
    ensures j < |threads| && j != i && Holds(threads[j], l) && !threads[j].done
  {
    j :| 0 <= j < |threads| && j != i && Holds(threads[j], l);
  }

  // ---------------------------------------------------------------- every schedule ends

  function Tally(threads: seq<Thread>, weight: Thread -> nat): nat {
    if threads == [] then 0 else Tally(threads[..|threads| - 1], weight) + weight(threads[|threads| - 1])
  }

  lemma {:induction false} TallySubstitute(threads: seq<Thread>, i: nat, t: Thread, weight: Thread -> nat)
    requires i < |threads|
    ensures Tally(threads[i := t], weight) + weight(threads[i]) == Tally(threads, weight) + weight(t)
  {
    if i == |threads| - 1 {
      assert threads[i := t][..i] == threads[..i];
    } else {
      TallySubstitute(threads[..|threads| - 1], i, t, weight);
      assert threads[i := t][..|threads| - 1] == threads[..|threads| - 1][i := t];
    }
  }

  function Unfinished(t: Thread): nat { if t.done then 0 else 1 }

  function Unplanned(t: Thread): nat { if !t.done && t.goals.None? then 1 else 0 }

  function LocksLeft(t: Thread): nat { if !t.done && t.held <= |Plan(t)| then |Plan(t)| - t.held else 0 }

  /** Every step finishes an operation, plans one, or takes one more of the planned locks. */
  lemma StepsMakeProgress(s: System, e: Event)
    requires SystemSound(s) && Possible(s, e)
    ensures var before, after := s.threads, Next(s, e).threads;
            || Tally(after, Unfinished) < Tally(before, Unfinished)
            || (Tally(after, Unfinished) == Tally(before, Unfinished)
                && (|| Tally(after, Unplanned) < Tally(before, Unplanned)
                    || (Tally(after, Unplanned) == Tally(before, Unplanned) && Tally(after, LocksLeft) < Tally(before, LocksLeft))))
  {
    hide PotsSound, AccountPlan, GoalPlan, Exclusive, Take, HeldByOther, Tally, Coherent;
    var i := e.thread;
    assert ThreadSound(s.threads[i], s.pots);
    var t := Next(s, e).threads[i];
    assert Next(s, e).threads == s.threads[i := t];
    TallySubstitute(s.threads, i, t, Unfinished);
    TallySubstitute(s.threads, i, t, Unplanned);
    TallySubstitute(s.threads, i, t, LocksLeft);
  }

  /** From every sound system, stepping any thread that can move finishes every operation. */
  lemma {:induction false} EverythingFinishes(s: System) returns (events: seq<Event>)
    requires SystemSound(s)
    ensures SystemSound(Run(s, events)) && |Run(s, events).threads| == |s.threads|
    ensures forall i :: 0 <= i < |s.threads| ==> Run(s, events).threads[i].done
    decreases Tally(s.threads, Unfinished), Tally(s.threads, Unplanned), Tally(s.threads, LocksLeft)
  {
    hide SystemSound, Tally, Moved, HeldByOther, Wanted;
    events := [];
    if i :| 0 <= i < |s.threads| && !s.threads[i].done {
      NoDeadlock(s, i);
      var j :| 0 <= j < |s.threads| && CanMove(s, j);
      var e := Go(j);
      NextKeeps(s, e);
      StepsMakeProgress(s, e);
      SameThreads(s, e);
      var rest := EverythingFinishes(Next(s, e));
      events := [e] + rest;
      assert events[1..] == rest;
    }
  }

  lemma SameThreads(s: System, e: Event)
    requires Possible(s, e)
    ensures |Next(s, e).threads| == |s.threads|
  {
    hide Take;
  }

  /** Any number of operations, interleaved at every lock in any way and aborted at any moment: every state has sound
      tables, nothing locked twice, everything read under a lock still true but for the rows of deleted goals, an
      operation that has all its locks has locked the goals it needs, and there is a next step unless all is done. */
  lemma InterleavingsAreSafe(p: Pots, ops: seq<Step>, events: seq<Event>)
    requires PotsSound(p) && forall i :: 0 <= i < |ops| ==> Locking(ops[i])
    ensures var s := Run(Start(p, ops), events);
            && PotsSound(s.pots) && Exclusive(s.threads)
            && (forall i, k :: 0 <= i < |s.threads| && !s.threads[i].done && 0 <= k < |AccountPlan(s.threads[i].op)| && |Claims(s.threads[i].op)| + k < s.threads[i].held ==>
                  Coherent(s.threads[i], s.pots, AccountPlan(s.threads[i].op)[k]))
            && (forall i :: 0 <= i < |s.threads| && !s.threads[i].done && s.threads[i].goals.Some? && Wanted(s.threads[i]).None? ==>
                  s.threads[i].goals.value == GoalPlan(s.threads[i].op, s.pots))
            && ((exists i :: 0 <= i < |s.threads| && !s.threads[i].done) ==> exists j :: 0 <= j < |s.threads| && CanMove(s, j))
  {
    hide PotsSound, Exclusive, Coherent, AccountPlan, GoalPlan, Plan, Run, Start, Wanted, HeldByOther, Claims, Early, PlanCurrent, LockedExist;
    StartIsSound(p, ops);
    RunKeeps(Start(p, ops), events);
    var s := Run(Start(p, ops), events);
    if i :| 0 <= i < |s.threads| && !s.threads[i].done {
      NoDeadlock(s, i);
    }
    assert forall i :: 0 <= i < |s.threads| ==> ThreadSound(s.threads[i], s.pots);
    forall i | 0 <= i < |s.threads| && !s.threads[i].done && s.threads[i].goals.Some? && Wanted(s.threads[i]).None?
      ensures s.threads[i].goals.value == GoalPlan(s.threads[i].op, s.pots)
    {
      CommitterPlan(s.threads[i], s.pots);
    }
  }
}
