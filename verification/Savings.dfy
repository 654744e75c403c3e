/** Savings goals: two views of the same money (totals kept on goals, and the rows that allocate an account's balance
    to them), transfers into goals, and reconciliations of an account's yield. */
module Savings {
  import opened Calendar
  import opened Common
  import opened Ledger
  import opened YieldShares

  datatype Goal = Goal(target: int, current: int, account: Option<Id>, completed: bool)

  datatype RowKind = Saved | Assigned | Released | Moved | Yielded

  /** One allocation row. Rows written before accounts were recorded have none. */
  datatype Allocation = Allocation(goal: Id, account: Option<Id>, amount: int, kind: RowKind, on: Date,
                                   key: Option<string>, transaction: Option<Id>, operation: nat)

  datatype Reconciled = Reconciled(account: Id, on: Date, before: int, after: int, yielded: int, adjustment: int,
                                   transaction: Option<Id>, operation: nat)

  /** `keys` is the key column of transactions, one key to a row whether the row saves into a goal or not; `tick`
      numbers goals and operations. */
  datatype Pots = Pots(books: Books, goals: map<Id, Goal>, rows: seq<Allocation>, reconciliations: seq<Reconciled>,
                       reconciledOn: map<Id, Date>, keys: map<string, Id>, incomeCategories: set<Id>, tick: nat)

  // ---------------------------------------------------------------- sums of rows

  function TotalOf(rows: seq<Allocation>, goal: Id): int {
    if rows == [] then 0
    else
      var last := rows[|rows| - 1];
      TotalOf(rows[..|rows| - 1], goal) + (if last.goal == goal then last.amount else 0)
  }

  function Held(rows: seq<Allocation>, goal: Id, account: Option<Id>): int {
    if rows == [] then 0
    else
      var last := rows[|rows| - 1];
      Held(rows[..|rows| - 1], goal, account) + (if last.goal == goal && last.account == account then last.amount else 0)
  }

  function AssignedIn(rows: seq<Allocation>, account: Id): int {
    if rows == [] then 0
    else
      var last := rows[|rows| - 1];
      AssignedIn(rows[..|rows| - 1], account) + (if last.account == Some(account) then last.amount else 0)
  }

  /** Insert into an ascending sequence, once. */
  function InsertId(ids: seq<Id>, id: Id): seq<Id> {
    if ids == [] then [id]
    else if id < ids[0] then [id] + ids
    else if id == ids[0] then ids
    else [ids[0]] + InsertId(ids[1..], id)
  }

  /** The goals with rows in an account, in ascending order. */
  function GoalsIn(rows: seq<Allocation>, account: Id): seq<Id> {
    if rows == [] then []
    else
      var last, before := rows[|rows| - 1], GoalsIn(rows[..|rows| - 1], account);
      if last.account == Some(account) then InsertId(before, last.goal) else before
  }

  function HeldBy(rows: seq<Allocation>, account: Id, goals: seq<Id>): seq<Share> {
    if goals == [] then []
    else HeldBy(rows, account, goals[..|goals| - 1])
         + [Share(goals[|goals| - 1], Held(rows, goals[|goals| - 1], Some(account)))]
  }

  // ---------------------------------------------------------------- goals

  /** `applySavingsGoalDelta`: one guarded UPDATE of a goal. */
  function ApplyDelta(goals: map<Id, Goal>, id: Id, delta: int, preferred: Option<Id>): Result<map<Id, Goal>> {
    if id !in goals || goals[id].current + delta < 0 then Err(InsufficientGoalAllocation)
    else
      var g := goals[id];
      Ok(goals[id := g.(current := g.current + delta, completed := g.current + delta >= g.target,
                        account := if g.account.None? then preferred else g.account)])
  }

  function CreateGoal(p: Pots, target: int, current: int, account: Option<Id>): Result<Pots> {
    if target <= 0 then Err(BadRequest)
    else if current != 0 then Err(InvalidTransactionShape)
    else Ok(p.(goals := p.goals[p.tick := Goal(target, current, account, current >= target)], tick := p.tick + 1))
  }

  function UpdateGoal(p: Pots, id: Id, target: Option<int>, account: Option<Option<Id>>): Result<Pots> {
    if target.Some? && target.value <= 0 then Err(BadRequest)
    else if id !in p.goals then Err(NotFound)
    else
      var g := p.goals[id];
      Ok(p.(goals := p.goals[id := g.(target := Or(target, g.target), account := Or(account, g.account),
                                      completed := if target.Some? then g.current >= target.value else g.completed)]))
  }

  predicate Backs(rows: seq<Allocation>, t: Id) {
    exists i :: 0 <= i < |rows| && rows[i].transaction == Some(t)
  }

  function RowsOfOthers(rows: seq<Allocation>, goal: Id): seq<Allocation> {
    if rows == [] then []
    else
      var last := rows[|rows| - 1];
      RowsOfOthers(rows[..|rows| - 1], goal) + (if last.goal == goal then [] else [last])
  }

  /** The transfers that were managed for their rows and no longer have one. */
  function Freed(p: Pots, goal: Id): set<Id> {
    set t <- p.books.managers | p.books.managers[t] == SavingsAllocation && Backs(p.rows, t) && !Backs(RowsOfOthers(p.rows, goal), t)
  }

  /** Delete a goal. Its rows go with it, and their transfers are ordinary transactions from then on. */
  function DeleteGoal(p: Pots, goal: Id): Result<Pots> {
    if goal !in p.goals then Err(NotFound)
    else Ok(p.(books := p.books.(managers := p.books.managers - Freed(p, goal)), goals := p.goals - {goal},
               rows := RowsOfOthers(p.rows, goal)))
  }

  // ---------------------------------------------------------------- checks shared by the operations

  /** All money set aside is in one currency. */
  function CheckCurrency(p: Pots, currency: string): Result<()> {
    if exists i :: 0 <= i < |p.rows| && Foreign(p.books.accounts, p.rows[i], currency) then Err(TransferCurrencyMismatch) else Ok(())
  }

  predicate Foreign(accounts: map<Id, Account>, row: Allocation, currency: string) {
    row.account.Some? && row.account.value in accounts && accounts[row.account.value].currency != currency
  }

  function FindKey(rows: seq<Allocation>, key: string): Option<Allocation> {
    if rows == [] then None
    else if rows[|rows| - 1].key == Some(key) then Some(rows[|rows| - 1])
    else FindKey(rows[..|rows| - 1], key)
  }

  function FindTransaction(rows: seq<Allocation>, t: Id): Option<Allocation> {
    if rows == [] then None
    else if rows[|rows| - 1].transaction == Some(t) then Some(rows[|rows| - 1])
    else FindTransaction(rows[..|rows| - 1], t)
  }

  /** The other half of a reallocation. */
  function FindPair(rows: seq<Allocation>, operation: nat): Option<Allocation> {
    if rows == [] then None
    else if rows[|rows| - 1].operation == operation && rows[|rows| - 1].key.None? then Some(rows[|rows| - 1])
    else FindPair(rows[..|rows| - 1], operation)
  }

  // ---------------------------------------------------------------- saving into a goal

  /** A stored row has the key. */
  predicate KeyInUse(p: Pots, key: string) {
    key in p.keys && p.keys[key] in p.books.transactions
  }

  /** A key goes with its row. */
  function LiveKeys(p: Pots): Pots {
    p.(keys := map key <- p.keys | p.keys[key] in p.books.transactions :: p.keys[key])
  }

  datatype SaveInput = SaveInput(source: Id, destination: Id, amount: int, description: string, on: Date, key: string)

  function SaveTransfer(input: SaveInput): Transaction {
    Transaction(input.source, Transfer, input.amount, None, input.on, Trim(input.description), Some(input.destination), None, true, None)
  }

  predicate ValidSave(input: SaveInput) {
    input.source != input.destination && input.amount > 0 && !IsBlank(input.description) && input.key != ""
  }

  function CheckSave(p: Pots, goal: Id, input: SaveInput): Result<()> {
    if !ValidSave(input) then Err(InvalidTransactionShape)
    else if input.source !in p.books.accounts || input.destination !in p.books.accounts then Err(NotFound)
    else if !p.books.accounts[input.source].kind.Debit? || !p.books.accounts[input.destination].kind.Debit? then Err(InvalidAccountShape)
    else if !p.books.accounts[input.source].tracking || !p.books.accounts[input.destination].tracking then Err(TrackingNotEnabled)
    else
      var _ :- CheckCurrency(p, p.books.accounts[input.destination].currency);
      if goal !in p.goals then Err(NotFound) else Ok(())
  }

  /** The transfer and its allocation row. */
  function SaveAnew(p: Pots, goal: Id, input: SaveInput): Result<Pots> {
    var t := p.books.nextId;
    var books :- CreateManaged(p.books, SaveTransfer(input), SavingsAllocation);
    var row := Allocation(goal, Some(input.destination), input.amount, Saved, input.on, None, Some(t), p.tick);
    var goals :- ApplyDelta(p.goals, goal, input.amount, Some(input.destination));
    Ok(p.(books := books, goals := goals, rows := p.rows + [row], keys := p.keys[input.key := t],
          tick := p.tick + 1))
  }

  /** A transfer is created once per key; asking again with the same data changes nothing. */
  function Save(p: Pots, goal: Id, input: SaveInput): Result<Pots> {
    var _ :- CheckSave(p, goal, input);
    var _ :- ValidateAccounts(p.books, SaveTransfer(input));
    if KeyInUse(p, input.key) then
      var t := p.keys[input.key];
      var row := FindTransaction(p.rows, t);
      if p.books.transactions[t] != SaveTransfer(input) then Err(IdempotencyConflict)
      else if row.None? || row.value.goal != goal || row.value.account != Some(input.destination) || row.value.amount != input.amount
        then Err(IdempotencyConflict)
      else Ok(p)
    else SaveAnew(p, goal, input)
  }

  /** An ordinary transaction under a key, on the same column. */
  function CreateKeyed(p: Pots, key: string, t: Transaction): Result<Pots> {
    if t.purchase.Some? then Err(InstallmentManaged)
    else if !ValidShape(t) then Err(InvalidTransactionShape)
    else
      var _ :- ValidateAccounts(p.books, t);
      if KeyInUse(p, key) then
        if p.books.transactions[p.keys[key]] == t then Ok(p) else Err(IdempotencyConflict)
      else
        var books :- CreateTransaction(p.books, t);
        Ok(p.(books := books, keys := p.keys[key := p.books.nextId]))
  }

  function CreateMaybeKeyed(p: Pots, key: Option<string>, t: Transaction): Result<Pots> {
    if key.Some? then CreateKeyed(p, key.value, t)
    else
      var books :- CreateTransaction(p.books, t);
      Ok(p.(books := books))
  }

  // ---------------------------------------------------------------- assigning money an account already holds

  datatype AssignInput = AssignInput(account: Id, amount: int, on: Date, key: string)

  function AssignKind(amount: int): RowKind {
    if amount > 0 then Assigned else Released
  }

  function CheckAssign(p: Pots, goal: Id, input: AssignInput): Result<()> {
    if input.amount == 0 || input.key == "" then Err(InvalidTransactionShape)
    else if input.account !in p.books.accounts then Err(NotFound)
    else if !p.books.accounts[input.account].kind.Debit? || p.books.accounts[input.account].balance.None? then Err(InvalidAccountShape)
    else if !p.books.accounts[input.account].tracking then Err(TrackingNotEnabled)
    else
      var _ :- CheckCurrency(p, p.books.accounts[input.account].currency);
      if goal !in p.goals then Err(NotFound) else Ok(())
  }

  function AssignAnew(p: Pots, goal: Id, input: AssignInput): Result<Pots>
    requires input.account in p.books.accounts && p.books.accounts[input.account].balance.Some?
  {
    if input.amount > 0 && input.amount > p.books.accounts[input.account].balance.value - AssignedIn(p.rows, input.account)
      then Err(InsufficientUnallocatedSavings)
    else if input.amount < 0 && -input.amount > Held(p.rows, goal, Some(input.account)) then Err(InsufficientGoalAllocation)
    else
      var row := Allocation(goal, Some(input.account), input.amount, AssignKind(input.amount), input.on, Some(input.key), None, p.tick);
      var goals :- ApplyDelta(p.goals, goal, input.amount, Some(input.account));
      Ok(p.(goals := goals, rows := p.rows + [row], tick := p.tick + 1))
  }

  function Allocate(p: Pots, goal: Id, input: AssignInput): Result<Pots> {
    var _ :- CheckAssign(p, goal, input);
    var existing := FindKey(p.rows, input.key);
    if existing.Some? then
      var row := existing.value;
      if row.goal != goal || row.account != Some(input.account) || row.amount != input.amount || row.on != input.on || row.kind != AssignKind(input.amount)
        then Err(IdempotencyConflict)
      else Ok(p)
    else AssignAnew(p, goal, input)
  }

  // ---------------------------------------------------------------- moving money between goals

  datatype MoveInput = MoveInput(to: Id, account: Id, amount: int, on: Date, key: string)

  function CheckMove(p: Pots, from: Id, input: MoveInput): Result<()> {
    if from == input.to || input.amount <= 0 || input.key == "" then Err(InvalidTransactionShape)
    else if input.account !in p.books.accounts then Err(NotFound)
    else if !p.books.accounts[input.account].kind.Debit? || !p.books.accounts[input.account].tracking then Err(InvalidAccountShape)
    else
      var _ :- CheckCurrency(p, p.books.accounts[input.account].currency);
      if from !in p.goals || input.to !in p.goals then Err(NotFound) else Ok(())
  }

  function MoveAnew(p: Pots, from: Id, input: MoveInput): Result<Pots> {
    if input.amount > Held(p.rows, from, Some(input.account)) then Err(InsufficientGoalAllocation)
    else
      var out := Allocation(from, Some(input.account), -input.amount, Moved, input.on, Some(input.key), None, p.tick);
      var into := Allocation(input.to, Some(input.account), input.amount, Moved, input.on, None, None, p.tick);
      var lowered :- ApplyDelta(p.goals, from, -input.amount, None);
      var goals :- ApplyDelta(lowered, input.to, input.amount, Some(input.account));
      Ok(p.(goals := goals, rows := p.rows + [out, into], tick := p.tick + 1))
  }

  function Reallocate(p: Pots, from: Id, input: MoveInput): Result<Pots> {
    var _ :- CheckMove(p, from, input);
    var existing := FindKey(p.rows, input.key);
    if existing.Some? then
      var out, pair := existing.value, FindPair(p.rows, existing.value.operation);
      if pair.None? || out.goal != from || pair.value.goal != input.to || out.account != Some(input.account)
         || out.amount != -input.amount || pair.value.amount != input.amount || out.on != input.on
        then Err(IdempotencyConflict)
      else Ok(p)
    else MoveAnew(p, from, input)
  }

  // ---------------------------------------------------------------- reconciling yield

  datatype YieldInput = YieldInput(on: Date, balance: int, gain: int, category: Option<Id>)

  /** A movement of the account dated after the bank figure. */
  predicate MovesLater(t: Transaction, account: Id, on: Date) {
    t.affectsBalance && Before(on, t.date) && (t.account == account || t.transferTo == Some(account))
  }

  predicate MovedLater(b: Books, account: Id, on: Date) {
    exists id <- b.transactions :: MovesLater(b.transactions[id], account, on)
  }

  function YieldIncome(account: Id, input: YieldInput): Transaction {
    Transaction(account, Income, input.gain, input.category, input.on, "Rendimientos", None, None, true, None)
  }

  function CheckYield(p: Pots, account: Id, input: YieldInput, today: Date): Result<()> {
    if input.gain < 0 || Before(NextDay(today), input.on) then Err(InvalidTransactionShape)
    else if account !in p.books.accounts then Err(NotFound)
    else
      var a := p.books.accounts[account];
      if !a.kind.Debit? || a.balance.None? then Err(InvalidAccountShape)
      else if !a.tracking then Err(TrackingNotEnabled)
      else if !a.active then Err(InvalidAccountShape)
      else if MovedLater(p.books, account, input.on) then Err(YieldDateBeforeMovements)
      else if account in p.reconciledOn && Before(input.on, p.reconciledOn[account]) then Err(InvalidTransactionShape)
      else
        var delta := input.balance - a.balance.value;
        if (delta >= 0 && input.gain > delta) || (delta < 0 && input.gain != 0) then Err(InvalidTransactionShape)
        else if input.category.Some? && input.category.value !in p.incomeCategories then Err(InvalidTransactionShape)
        else Ok(())
  }

  /** The income and the adjustment that bring the balance to the bank's figure. */
  function BookYield(b: Books, account: Id, input: YieldInput, adjustment: int): Result<Books> {
    var earned :- if input.gain > 0 then CreateManaged(b, YieldIncome(account, input), YieldReconciliation) else Ok(b);
    if adjustment == 0 then Ok(earned) else Adjust(earned, account, adjustment)
  }

  function ShareRow(share: Share, account: Id, on: Date, operation: nat): Allocation {
    Allocation(share.goal, Some(account), share.amount, Yielded, on, None, None, operation)
  }

  function ShareRows(shares: seq<Share>, account: Id, on: Date, operation: nat): seq<Allocation> {
    if shares == [] then [] else [ShareRow(shares[0], account, on, operation)] + ShareRows(shares[1..], account, on, operation)
  }

  /** Credit each goal with its share. */
  function CreditShares(goals: map<Id, Goal>, shares: seq<Share>, account: Id): Result<map<Id, Goal>>
    decreases |shares|
  {
    if shares == [] then Ok(goals)
    else
      var next :- ApplyDelta(goals, shares[0].goal, shares[0].amount, Some(account));
      CreditShares(next, shares[1..], account)
  }

  function YieldSplit(p: Pots, account: Id, input: YieldInput): seq<Share>
    requires account in p.books.accounts && p.books.accounts[account].balance.Some?
  {
    SharesOf(input.gain, p.books.accounts[account].balance.value, HeldBy(p.rows, account, GoalsIn(p.rows, account)))
  }

  function ReconcileYield(p: Pots, account: Id, input: YieldInput, today: Date): Result<Pots> {
    var _ :- CheckYield(p, account, input, today);
    var before := p.books.accounts[account].balance.value;
    var adjustment := input.balance - before - input.gain;
    var books :- BookYield(p.books, account, input, adjustment);
    var shares := YieldSplit(p, account, input);
    var goals :- CreditShares(p.goals, shares, account);
    var record := Reconciled(account, input.on, before, input.balance, input.gain, adjustment,
                             if input.gain > 0 then Some(p.books.nextId) else None, p.tick);
    Ok(p.(books := books, goals := goals, rows := p.rows + ShareRows(shares, account, input.on, p.tick),
          reconciliations := p.reconciliations + [record], reconciledOn := p.reconciledOn[account := input.on],
          tick := p.tick + 1))
  }

  // ---------------------------------------------------------------- undoing a reconciliation

  /** The latest reconciliation of an account: the latest date, and of those the one recorded last. */
  function LatestOf(records: seq<Reconciled>, account: Id): (k: Option<nat>)
    ensures k.Some? ==> k.value < |records| && records[k.value].account == account
  {
    if records == [] then None
    else
      var last, before := records[|records| - 1], LatestOf(records[..|records| - 1], account);
      if last.account == account && (before.None? || !Before(last.on, records[before.value].on)) then Some(|records| - 1) else before
  }

  predicate IsShare(row: Allocation, operation: nat) {
    row.kind == Yielded && row.operation == operation
  }

  /** What an operation credited to goals. */
  function CreditedBy(rows: seq<Allocation>, operation: nat): seq<Share> {
    if rows == [] then []
    else
      var last := rows[|rows| - 1];
      CreditedBy(rows[..|rows| - 1], operation) + (if IsShare(last, operation) then [Share(last.goal, last.amount)] else [])
  }

  function WithoutShares(rows: seq<Allocation>, operation: nat): seq<Allocation> {
    if rows == [] then []
    else
      var last := rows[|rows| - 1];
      WithoutShares(rows[..|rows| - 1], operation) + (if IsShare(last, operation) then [] else [last])
  }

  predicate StillHeld(p: Pots, shares: seq<Share>, account: Id) {
    forall i :: 0 <= i < |shares| ==> Held(p.rows, shares[i].goal, Some(account)) >= shares[i].amount
  }

  function DebitShares(goals: map<Id, Goal>, shares: seq<Share>): Result<map<Id, Goal>>
    decreases |shares|
  {
    if shares == [] then Ok(goals)
    else
      var next :- ApplyDelta(goals, shares[0].goal, -shares[0].amount, None);
      DebitShares(next, shares[1..])
  }

  function UnbookYield(b: Books, r: Reconciled): Result<Books> {
    var reversed :- if r.transaction.Some? then RemoveManaged(b, r.transaction.value) else Ok(b);
    if r.adjustment == 0 then Ok(reversed) else Adjust(reversed, r.account, -r.adjustment)
  }

  /** The largest date of an account's reconciliations. */
  function LastDate(records: seq<Reconciled>, account: Id): Option<Date> {
    if records == [] then None
    else
      var last, before := records[|records| - 1], LastDate(records[..|records| - 1], account);
      if last.account == account && (before.None? || !Before(last.on, before.value)) then Some(last.on) else before
  }

  function Redated(records: seq<Reconciled>, account: Id, reconciledOn: map<Id, Date>): map<Id, Date> {
    var latest := LastDate(records, account);
    if latest.Some? then reconciledOn[account := latest.value] else reconciledOn - {account}
  }

  /** The checks of an undo, once the record is known to be the latest of its account. */
  function CheckUndo(p: Pots, r: Reconciled): Result<()> {
    var shares := CreditedBy(p.rows, r.operation);
    if r.account !in p.books.accounts then Err(NotFound)
    else if exists i :: 0 <= i < |shares| && shares[i].goal !in p.goals then Err(NotFound)
    else if !StillHeld(p, shares, r.account) then Err(InsufficientGoalAllocation)
    else if p.books.accounts[r.account].balance.None? then Err(InvalidAccountShape)
    else
      var balance := p.books.accounts[r.account].balance.value;
      var undone := balance - r.yielded - r.adjustment;
      if AssignedIn(p.rows, r.account) - Total(shares) > undone && undone < balance then Err(InsufficientUnallocatedSavings) else Ok(())
  }

  function FindRecord(records: seq<Reconciled>, id: nat): (k: Option<nat>)
    ensures k.Some? ==> k.value < |records| && records[k.value].operation == id
  {
    if records == [] then None
    else if records[|records| - 1].operation == id then Some(|records| - 1)
    else FindRecord(records[..|records| - 1], id)
  }

  /** Undo a record of an account, named by its operation. */
  function UndoYield(p: Pots, account: Id, id: nat): Result<Pots> {
    var found := FindRecord(p.reconciliations, id);
    if account !in p.books.accounts then Err(NotFound)
    else if found.None? || p.reconciliations[found.value].account != account then Err(NotFound)
    else if LatestOf(p.reconciliations, account) != found then Err(YieldNotLatest)
    else
      var k := found.value;
      var r := p.reconciliations[k];
      var _ :- CheckUndo(p, r);
      var goals :- DebitShares(p.goals, CreditedBy(p.rows, r.operation));
      var books :- UnbookYield(p.books, r);
      var records := p.reconciliations[..k] + p.reconciliations[k + 1..];
      Ok(p.(books := books, goals := goals, rows := WithoutShares(p.rows, r.operation), reconciliations := records,
            reconciledOn := Redated(records, account, p.reconciledOn)))
  }

  // ---------------------------------------------------------------- runs

  predicate Backing(p: Pots, t: Id) {
    || Backs(p.rows, t)
    || (exists i :: 0 <= i < |p.reconciliations| && p.reconciliations[i].transaction == Some(t))
  }

  datatype Step =
    | NewGoal(target: int, current: int, preferred: Option<Id>)
    | EditGoal(goal: Id, newTarget: Option<int>, newAccount: Option<Option<Id>>)
    | DropGoal(goal: Id)
    | SaveTo(goal: Id, save: SaveInput)
    | AssignTo(goal: Id, assign: AssignInput)
    | MoveFrom(goal: Id, move: MoveInput)
    | MatchYield(account: Id, gained: YieldInput, today: Date)
    | UndoMatch(account: Id, record: nat)
    | Keyed(key: string, transaction: Transaction)
    | Elsewhere(request: Request)

  /** One request. Requests on other resources leave the transactions that back rows and reconciliations to their
      managers. */
  function Take(p: Pots, s: Step): Result<Pots> {
    match s
    case NewGoal(target, current, preferred) => CreateGoal(p, target, current, preferred)
    case EditGoal(goal, target, account) => UpdateGoal(p, goal, target, account)
    case DropGoal(goal) => DeleteGoal(p, goal)
    case SaveTo(goal, input) => Save(p, goal, input)
    case AssignTo(goal, input) => Allocate(p, goal, input)
    case MoveFrom(goal, input) => Reallocate(p, goal, input)
    case MatchYield(account, input, today) => ReconcileYield(p, account, input, today)
    case UndoMatch(account, id) =>
      var after :- UndoYield(p, account, id);
      Ok(LiveKeys(after))
    case Keyed(key, t) => CreateKeyed(p, key, t)
    case Elsewhere(r) =>
      if r.DropManaged? && Backing(p, r.id) then Err(SavingsManaged)
      else
        var books :- Perform(p.books, r);
        Ok(LiveKeys(p.(books := books)))
  }

  function TakeAll(p: Pots, steps: seq<Step>): Pots
    decreases |steps|
  {
    if steps == [] then p else TakeAll(Committed(p, Take(p, steps[0])), steps[1..])
  }
}
