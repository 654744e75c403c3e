/** Account balances and the ledger of entries behind them, as a value: what each repository request does to
    the accounts, transactions, balance entries and deferred purchases of one user. */
module Ledger {
  import opened Calendar
  import opened Common

  datatype AccountKind = Debit | Credit

  /** `trackedFrom` is the credit limit at the moment tracking began (zero for a debit account). The table does
      not store it; the invariant of credit accounts is stated with it. */
  datatype Account = Account(kind: AccountKind, currency: string, tracking: bool, balance: Option<int>,
                             creditLimit: Option<int>, availableCredit: Option<int>, active: bool, trackedFrom: int) {
    /** The constraints of the accounts table. */
    predicate WellShaped() {
      && (kind.Debit? ==> creditLimit.None? && availableCredit.None?)
      && (kind.Credit? ==> balance.None?)
      && (creditLimit.Some? ==> creditLimit.value >= 0)
      && (tracking ==> if kind.Debit? then balance.Some? else creditLimit.Some? && availableCredit.Some?)
    }

    /** The money the user can use: the balance, or the available credit. */
    function Funds(): Option<int> {
      if kind.Debit? then balance else availableCredit
    }

    function WithFunds(amount: int): Account {
      if kind.Debit? then this.(balance := Some(amount)) else this.(availableCredit := Some(amount))
    }
  }

  datatype TransactionKind = Expense | Income | Transfer | OtherKind

  datatype Transaction = Transaction(account: Id, kind: TransactionKind, amount: int, category: Option<Id>, date: Date,
                                     description: string, transferTo: Option<Id>, statement: Option<Id>,
                                     affectsBalance: bool, purchase: Option<Id>)

  datatype TransactionPatch = TransactionPatch(account: Option<Id>, kind: Option<TransactionKind>, amount: Option<int>,
                                               category: Option<Option<Id>>, date: Option<Date>, description: Option<string>,
                                               purchase: Option<Option<Id>>, transferTo: Option<Option<Id>>,
                                               statement: Option<Option<Id>>, affectsBalance: Option<bool>)

  datatype Source = Opening | Reconciliation | OfTransaction(id: Id) | OfPurchase(id: Id)

  datatype Entry = Entry(account: Id, source: Source, delta: int)

  datatype Purchase = Purchase(account: Id, category: Option<Id>, description: string, total: int, count: int,
                               installment: int, paid: int, start: Date)

  datatype PurchaseInput = PurchaseInput(account: Id, category: Option<Id>, description: string, total: int, count: int, start: Date)

  /** Why a transaction may only be changed through another resource. */
  datatype Manager = LoanPayment | SavingsAllocation | YieldReconciliation

  datatype Books = Books(accounts: map<Id, Account>, transactions: map<Id, Transaction>, entries: seq<Entry>,
                         purchases: map<Id, Purchase>, statements: map<Id, Id>, managers: map<Id, Manager>, nextId: Id)

  // ---------------------------------------------------------------- sums of entries

  function Sum(entries: seq<Entry>, account: Id): int {
    if entries == [] then 0
    else
      var last := entries[|entries| - 1];
      Sum(entries[..|entries| - 1], account) + (if last.account == account then last.delta else 0)
  }

  /** The entries of some transactions and of at most one purchase. */
  datatype Selection = Selection(transactions: set<Id>, purchase: Option<Id>) {
    predicate Has(e: Entry) {
      match e.source
      case OfTransaction(t) => t in transactions
      case OfPurchase(p) => purchase == Some(p)
      case Opening => false
      case Reconciliation => false
    }
  }

  function Selected(entries: seq<Entry>, s: Selection): seq<Entry> {
    if entries == [] then []
    else
      var last := entries[|entries| - 1];
      Selected(entries[..|entries| - 1], s) + (if s.Has(last) then [last] else [])
  }

  function Others(entries: seq<Entry>, s: Selection): seq<Entry> {
    if entries == [] then []
    else
      var last := entries[|entries| - 1];
      Others(entries[..|entries| - 1], s) + (if s.Has(last) then [] else [last])
  }

  lemma {:induction false} SelectionIsPart(entries: seq<Entry>, s: Selection)
    ensures forall e <- Selected(entries, s) :: e in entries && s.Has(e)
    ensures forall e <- Others(entries, s) :: e in entries && !s.Has(e)
  {
    hide s.Has;
    if entries != [] {
      SelectionIsPart(entries[..|entries| - 1], s);
    }
  }

  lemma SumOfAppended(entries: seq<Entry>, e: Entry, account: Id)
    ensures Sum(entries + [e], account) == Sum(entries, account) + (if e.account == account then e.delta else 0)
  {
    assert (entries + [e])[..|entries|] == entries;
  }

  lemma {:induction false} SumSplits(entries: seq<Entry>, s: Selection, account: Id)
    ensures Sum(entries, account) == Sum(Selected(entries, s), account) + Sum(Others(entries, s), account)
  {
    if entries != [] {
      var init, last := entries[..|entries| - 1], entries[|entries| - 1];
      SumSplits(init, s, account);
      if s.Has(last) {
        assert Others(entries, s) == Others(init, s);
        SumOfAppended(Selected(init, s), last, account);
      } else {
        assert Selected(entries, s) == Selected(init, s);
        SumOfAppended(Others(init, s), last, account);
      }
    }
  }

  lemma {:induction false} SumSplitsAt(before: seq<Entry>, after: seq<Entry>, account: Id)
    ensures Sum(before + after, account) == Sum(before, account) + Sum(after, account)
  {
    if after == [] {
      assert before + after == before;
    } else {
      var init := after[..|after| - 1];
      SumSplitsAt(before, init, account);
      assert (before + after)[..|before + after| - 1] == before + init;
    }
  }

  lemma {:induction false} NoEntriesSumToZero(entries: seq<Entry>, account: Id)
    requires forall e <- entries :: e.account != account
    ensures Sum(entries, account) == 0
  {
    if entries != [] {
      assert forall e <- entries[..|entries| - 1] :: e in entries;
      NoEntriesSumToZero(entries[..|entries| - 1], account);
    }
  }

  // ---------------------------------------------------------------- the invariant

  /** The funds of a tracked account are the sum of its entries, plus for a credit account what its limit moved
      since tracking began; an account that is not tracked has no entries. */
  predicate AccountAgrees(a: Account, entries: seq<Entry>, id: Id) {
    && a.WellShaped()
    && (a.tracking ==>
          a.Funds().value == Sum(entries, id) + (if a.kind.Debit? then 0 else a.creditLimit.value - a.trackedFrom))
    && (!a.tracking ==> forall e <- entries :: e.account != id)
  }

  ghost predicate Agrees(accounts: map<Id, Account>, entries: seq<Entry>) {
    && (forall id <- accounts :: AccountAgrees(accounts[id], entries, id))
    && (forall e <- entries :: e.account in accounts)
  }

  /** Every entry names a stored row. */
  ghost predicate Sourced(e: Entry, b: Books) {
    && (e.source.OfTransaction? ==> e.source.id in b.transactions)
    && (e.source.OfPurchase? ==> e.source.id in b.purchases)
  }

  /** Foreign keys, fresh ids, and who manages what. */
  ghost predicate Linked(b: Books) {
    && (forall e <- b.entries :: Sourced(e, b))
    && (forall id <- b.transactions :: id < b.nextId)
    && (forall id <- b.purchases :: id < b.nextId)
    && (forall id <- b.accounts :: id < b.nextId)
    && (forall id <- b.managers :: id in b.transactions && b.transactions[id].purchase.None?)
    && (forall id <- b.transactions | b.transactions[id].purchase.Some? :: b.transactions[id].purchase.value in b.purchases)
  }

  ghost predicate Consistent(b: Books) {
    Agrees(b.accounts, b.entries) && Linked(b)
  }

  // ---------------------------------------------------------------- moving money

  /** `updateMaterializedBalance`: one UPDATE that adds to the stored balance or available credit. */
  function MoveFunds(accounts: map<Id, Account>, id: Id, delta: int): Result<map<Id, Account>> {
    if id !in accounts then Err(NotFound)
    else if accounts[id].Funds().None? then Err(InvalidAccountShape)
    else Ok(accounts[id := accounts[id].WithFunds(accounts[id].Funds().value + delta)])
  }

  /** A tracked account moves and gets an entry; an account that is not tracked is left alone. */
  function Post(b: Books, e: Entry): Result<Books> {
    if e.account !in b.accounts then Err(NotFound)
    else if !b.accounts[e.account].tracking then Ok(b)
    else
      var accounts :- MoveFunds(b.accounts, e.account, e.delta);
      Ok(b.(accounts := accounts, entries := b.entries + [e]))
  }

  function PostAll(b: Books, es: seq<Entry>): Result<Books>
    decreases |es|
  {
    if es == [] then Ok(b)
    else
      var next :- Post(b, es[0]);
      PostAll(next, es[1..])
  }

  /** Take back what entries moved, without touching the entries. */
  function Reverse(accounts: map<Id, Account>, es: seq<Entry>): Result<map<Id, Account>>
    decreases |es|
  {
    if es == [] then Ok(accounts)
    else if es[0].account !in accounts then Err(InvalidAccountShape)
    else
      var next :- MoveFunds(accounts, es[0].account, -es[0].delta);
      Reverse(next, es[1..])
  }

  /** What a transaction means for each account it touches. */
  function Deltas(id: Id, t: Transaction): Result<seq<Entry>> {
    if t.amount <= 0 then Err(InvalidTransactionShape)
    else match t.kind
      case Expense => Ok([Entry(t.account, OfTransaction(id), -t.amount)])
      case Income => Ok([Entry(t.account, OfTransaction(id), t.amount)])
      case Transfer =>
        if t.transferTo.None? || t.transferTo.value == t.account then Err(InvalidTransactionShape)
        else Ok([Entry(t.account, OfTransaction(id), -t.amount), Entry(t.transferTo.value, OfTransaction(id), t.amount)])
      case OtherKind => Err(InvalidTransactionShape)
  }

  function ApplyEffects(b: Books, id: Id, t: Transaction): Result<Books> {
    if !t.affectsBalance then Ok(b)
    else
      var deltas :- Deltas(id, t);
      PostAll(b, deltas)
  }

  // ---------------------------------------------------------------- validation

  predicate ValidShape(t: Transaction) {
    && t.amount > 0 && !IsBlank(t.description)
    && (t.kind == Transfer ==> t.transferTo.Some? && t.transferTo.value != t.account && t.category.None?)
    && (t.kind != Transfer ==> t.transferTo.None? && t.statement.None?)
    && t.kind != OtherKind
    && (t.statement.Some? ==> t.affectsBalance)
  }

  function AccountsOf(t: Transaction): set<Id> {
    {t.account} + (if t.transferTo.Some? then {t.transferTo.value} else {})
  }

  /** Accounts exist and a transfer keeps its currency; a payment of a card statement goes to the card of the
      statement, with both accounts tracked. */
  function ValidateAccounts(b: Books, t: Transaction): Result<()> {
    if !(AccountsOf(t) <= b.accounts.Keys) then Err(NotFound)
    else if t.kind == Transfer && t.transferTo.Some? && b.accounts[t.account].currency != b.accounts[t.transferTo.value].currency
      then Err(TransferCurrencyMismatch)
    else if t.statement.None? then Ok(())
    else if t.kind != Transfer || t.transferTo.None? then Err(InvalidTransactionShape)
    else if t.statement.value !in b.statements then Err(NotFound)
    else if b.statements[t.statement.value] != t.transferTo.value then Err(InvalidTransactionShape)
    else if !b.accounts[t.account].tracking || !b.accounts[t.transferTo.value].tracking then Err(TrackingNotEnabled)
    else Ok(())
  }

  // ---------------------------------------------------------------- transactions

  /** Insert a row under a given id and apply its effects. */
  function Record(b: Books, id: Id, t: Transaction): Result<Books> {
    if !ValidShape(t) then Err(InvalidTransactionShape)
    else
      var _ :- ValidateAccounts(b, t);
      ApplyEffects(b.(transactions := b.transactions[id := t]), id, t)
  }

  function CreateTransaction(b: Books, t: Transaction): Result<Books> {
    if t.purchase.Some? then Err(InstallmentManaged)
    else Record(b.(nextId := b.nextId + 1), b.nextId, t)
  }

  function ManagedError(m: Manager): Error {
    match m
    case LoanPayment => LoanPaymentManaged
    case SavingsAllocation => SavingsManaged
    case YieldReconciliation => YieldManaged
  }

  function Unmanaged(b: Books, id: Id): Result<Transaction> {
    if id !in b.transactions then Err(NotFound)
    else if b.transactions[id].purchase.Some? then Err(InstallmentManaged)
    else if id in b.managers then Err(ManagedError(b.managers[id]))
    else Ok(b.transactions[id])
  }

  /** Undo the effects of transactions and of a purchase and drop their entries. */
  function Retract(b: Books, s: Selection): Result<Books> {
    var accounts :- Reverse(b.accounts, Selected(b.entries, s));
    Ok(b.(accounts := accounts, entries := Others(b.entries, s)))
  }

  function OneTransaction(id: Id): Selection {
    Selection({id}, None)
  }

  /** Reverse and delete one row, whoever manages it. */
  function Remove(b: Books, id: Id): Result<Books> {
    var retracted :- Retract(b, OneTransaction(id));
    Ok(retracted.(transactions := retracted.transactions - {id}, managers := retracted.managers - {id}))
  }

  function DeleteTransaction(b: Books, id: Id): Result<Books> {
    var existing :- Unmanaged(b, id);
    if !(AccountsOf(existing) <= b.accounts.Keys) then Err(NotFound)
    else Remove(b, id)
  }

  function Or<T>(patch: Option<T>, current: T): T {
    if patch.Some? then patch.value else current
  }

  function Patched(t: Transaction, p: TransactionPatch): Transaction {
    Transaction(Or(p.account, t.account), Or(p.kind, t.kind), Or(p.amount, t.amount), Or(p.category, t.category),
                Or(p.date, t.date), Or(p.description, t.description), Or(p.transferTo, t.transferTo),
                Or(p.statement, t.statement), Or(p.affectsBalance, t.affectsBalance), Or(p.purchase, t.purchase))
  }

  /** The patch touches something balances depend on. */
  predicate BalanceShaped(p: TransactionPatch) {
    p.account.Some? || p.kind.Some? || p.amount.Some? || p.transferTo.Some? || p.affectsBalance.Some?
    || (p.statement.Some? && p.statement.value.Some?)
  }

  function UpdateTransaction(b: Books, id: Id, p: TransactionPatch): Result<Books> {
    if p.purchase.Some? then Err(InstallmentManaged)
    else
      var existing :- Unmanaged(b, id);
      var updated := Patched(existing, p);
      if !ValidShape(updated) then Err(InvalidTransactionShape)
      else if BalanceShaped(p) then
        if !(AccountsOf(existing) <= b.accounts.Keys) then Err(NotFound)
        else
          var _ :- ValidateAccounts(b, updated);
          var retracted :- Retract(b, OneTransaction(id));
          ApplyEffects(retracted.(transactions := retracted.transactions[id := updated]), id, updated)
      else if updated.statement.Some? then
        var _ :- ValidateAccounts(b, updated);
        Ok(b.(transactions := b.transactions[id := updated]))
      else Ok(b.(transactions := b.transactions[id := updated]))
  }

  // ---------------------------------------------------------------- accounts

  function CreateAccount(b: Books, a: Account): Result<Books> {
    var stored := a.(active := true, trackedFrom := if a.creditLimit.Some? then a.creditLimit.value else 0);
    if !stored.WellShaped() then Err(InvalidAccountShape)
    else
      var entries := if a.tracking then b.entries + [Entry(b.nextId, Opening, stored.Funds().value)] else b.entries;
      Ok(b.(accounts := b.accounts[b.nextId := stored], entries := entries, nextId := b.nextId + 1))
  }

  datatype AccountPatch = AccountPatch(balance: Option<Option<int>>, creditLimit: Option<Option<int>>,
                                       availableCredit: Option<Option<int>>, active: Option<bool>)

  /** The balance fields of an account update. Moving the limit of a tracked card moves its available credit. */
  function UpdateAccount(b: Books, id: Id, p: AccountPatch): Result<Books> {
    if id !in b.accounts then Err(NotFound)
    else
      var a := b.accounts[id];
      if a.tracking && a.kind.Debit? && p.balance.Some? then Err(DirectBalancePatchForbidden)
      else if a.tracking && a.kind.Credit? && p.availableCredit.Some? then Err(DirectBalancePatchForbidden)
      else
        var moves := a.tracking && a.kind.Credit? && p.creditLimit.Some?;
        if moves && (p.creditLimit.value.None? || a.creditLimit.None? || a.availableCredit.None?) then Err(InvalidAccountShape)
        else if moves && (a.creditLimit.value < 0 || p.creditLimit.value.value < 0) then Err(InvalidAccountShape)
        else
          var available := if moves then Some(a.availableCredit.value + p.creditLimit.value.value - a.creditLimit.value)
                           else Or(p.availableCredit, a.availableCredit);
          var patched := a.(balance := Or(p.balance, a.balance), creditLimit := Or(p.creditLimit, a.creditLimit),
                            availableCredit := available, active := Or(p.active, a.active));
          if !patched.WellShaped() then Err(InvalidAccountShape)
          else Ok(b.(accounts := b.accounts[id := patched]))
  }

  function EnableTracking(b: Books, id: Id, amount: int): Result<Books> {
    if id !in b.accounts then Err(NotFound)
    else
      var a := b.accounts[id];
      if a.tracking then Err(TrackingAlreadyEnabled)
      else if a.kind.Credit? && a.creditLimit.None? then Err(InvalidAccountShape)
      else
        var tracked := a.WithFunds(amount).(tracking := true, trackedFrom := if a.kind.Credit? then a.creditLimit.value else 0);
        Ok(b.(accounts := b.accounts[id := tracked], entries := b.entries + [Entry(id, Opening, amount)]))
  }

  function ReconcileBalance(b: Books, id: Id, amount: int): Result<Books> {
    if id !in b.accounts then Err(NotFound)
    else
      var a := b.accounts[id];
      if !a.tracking then Err(TrackingNotEnabled)
      else if a.Funds().None? || (a.kind.Credit? && a.creditLimit.None?) then Err(InvalidAccountShape)
      else if amount == a.Funds().value then Ok(b)
      else Ok(b.(accounts := b.accounts[id := a.WithFunds(amount)],
                 entries := b.entries + [Entry(id, Reconciliation, amount - a.Funds().value)]))
  }

  /** The adjustment half of a yield reconciliation. */
  function Adjust(b: Books, id: Id, delta: int): Result<Books> {
    var accounts :- MoveFunds(b.accounts, id, delta);
    Ok(b.(accounts := accounts, entries := b.entries + [Entry(id, Reconciliation, delta)]))
  }

  // ---------------------------------------------------------------- deferred purchases

  predicate ValidPurchase(p: PurchaseInput) {
    && !IsBlank(p.description) && 2 <= p.count <= 60 && p.count <= p.total
  }

  /** The last installment takes what the division leaves over. */
  function InstallmentAmount(total: int, count: int, number: int): int
    requires count > 0
  {
    if number == count then total - (total / count) * (count - 1) else total / count
  }

  function InstallmentRow(id: Id, p: PurchaseInput, number: nat): Transaction
    requires p.count > 0
  {
    Transaction(p.account, Expense, InstallmentAmount(p.total, p.count, number), p.category,
                InMonth(p.start.MonthIndex() + number - 1, p.start.day),
                p.description + " (" + Decimal(number) + "/" + Decimal(p.count) + ")", None, None, false, Some(id))
  }

  /** The first n installments of a purchase, one a month, under consecutive ids. */
  function InstallmentRows(id: Id, p: PurchaseInput, first: Id, n: nat): map<Id, Transaction>
    requires p.count > 0
  {
    if n == 0 then map[] else InstallmentRows(id, p, first, n - 1)[first + n - 1 := InstallmentRow(id, p, n)]
  }

  /** Installments are historical: they are inserted without touching any balance. */
  function InsertInstallments(b: Books, id: Id, p: PurchaseInput): Books
    requires p.count > 0
  {
    b.(transactions := b.transactions + InstallmentRows(id, p, b.nextId, p.count), nextId := b.nextId + p.count)
  }

  function PurchaseRow(p: PurchaseInput): Purchase
    requires p.count > 0
  {
    Purchase(p.account, p.category, p.description, p.total, p.count, p.total / p.count, 0, p.start)
  }

  /** Charge the whole principal once, then schedule the installments. */
  function PlacePurchase(b: Books, id: Id, p: PurchaseInput, charge: bool): Result<Books>
    requires p.count > 0
  {
    var listed := b.(purchases := b.purchases[id := PurchaseRow(p)]);
    var charged :- if charge then Post(listed, Entry(p.account, OfPurchase(id), -p.total)) else Ok(listed);
    Ok(InsertInstallments(charged, id, p))
  }

  /** A purchase is placed on a tracked card. */
  function AdmitPurchase(b: Books, id: Id, p: PurchaseInput): Result<Books> {
    if !ValidPurchase(p) then Err(BadRequest)
    else if p.account !in b.accounts then Err(NotFound)
    else if !b.accounts[p.account].kind.Credit? then Err(RequiresCreditAccount)
    else if !b.accounts[p.account].tracking then Err(TrackingNotEnabled)
    else PlacePurchase(b, id, p, true)
  }

  function CreatePurchase(b: Books, p: PurchaseInput): Result<Books> {
    AdmitPurchase(b.(nextId := b.nextId + 1), b.nextId, p)
  }

  function InstallmentIds(b: Books, id: Id): set<Id> {
    set t <- b.transactions | b.transactions[t].purchase == Some(id)
  }

  function PurchaseEntries(b: Books, id: Id): Selection {
    Selection(InstallmentIds(b, id), Some(id))
  }

  predicate HadPurchaseEntry(b: Books, id: Id) {
    exists e <- b.entries :: e.source == OfPurchase(id)
  }

  /** Reverse every entry of a purchase and delete its entries and installments, keeping its own row. */
  function ClearPurchase(b: Books, id: Id): Result<Books> {
    var retracted :- Retract(b, PurchaseEntries(b, id));
    Ok(retracted.(transactions := retracted.transactions - InstallmentIds(b, id)))
  }

  function UpdatePurchase(b: Books, id: Id, p: PurchaseInput): Result<Books> {
    if !ValidPurchase(p) then Err(BadRequest)
    else if id !in b.purchases then Err(NotFound)
    else
      var existing := b.purchases[id];
      var charged := HadPurchaseEntry(b, id);
      if existing.paid > 0 then Err(PurchaseHasPaidInstallments)
      else if existing.account !in b.accounts || p.account !in b.accounts then Err(NotFound)
      else if !b.accounts[p.account].kind.Credit? then Err(RequiresCreditAccount)
      else if charged && !b.accounts[p.account].tracking then Err(TrackingNotEnabled)
      else if !charged && (existing.account != p.account || existing.total != p.total || existing.count != p.count || existing.start != p.start)
        then Err(LegacyBalanceChange)
      else
        var cleared :- ClearPurchase(b, id);
        PlacePurchase(cleared, id, p, charged)
  }

  function DeletePurchase(b: Books, id: Id): Result<Books> {
    if id !in b.purchases then Err(NotFound)
    else if b.purchases[id].account !in b.accounts then Err(NotFound)
    else
      var cleared :- ClearPurchase(b, id);
      Ok(cleared.(purchases := cleared.purchases - {id}))
  }

  // ---------------------------------------------------------------- requests

  /** A transaction created on behalf of a loan, a savings goal or a yield reconciliation. */
  function CreateManaged(b: Books, t: Transaction, m: Manager): Result<Books> {
    var created :- CreateTransaction(b, t);
    Ok(created.(managers := created.managers[b.nextId := m]))
  }

  /** Its manager takes it back. */
  function RemoveManaged(b: Books, id: Id): Result<Books> {
    if id !in b.managers then Err(NotFound) else Remove(b, id)
  }

  datatype Request =
    | NewAccount(account: Account)
    | ChangeAccount(id: Id, accountPatch: AccountPatch)
    | StartTracking(id: Id, amount: int)
    | CountBalance(id: Id, amount: int)
    | AdjustBalance(id: Id, delta: int)
    | NewTransaction(transaction: Transaction)
    | ChangeTransaction(id: Id, patch: TransactionPatch)
    | DropTransaction(id: Id)
    | NewManaged(transaction: Transaction, manager: Manager)
    | DropManaged(id: Id)
    | NewPurchase(purchase: PurchaseInput)
    | ChangePurchase(id: Id, purchase: PurchaseInput)
    | DropPurchase(id: Id)

  function Perform(b: Books, r: Request): Result<Books> {
    match r
    case NewAccount(a) => CreateAccount(b, a)
    case ChangeAccount(id, p) => UpdateAccount(b, id, p)
    case StartTracking(id, amount) => EnableTracking(b, id, amount)
    case CountBalance(id, amount) => ReconcileBalance(b, id, amount)
    case AdjustBalance(id, delta) =>
      if id in b.accounts && !b.accounts[id].tracking then Err(TrackingNotEnabled) else Adjust(b, id, delta)
    case NewTransaction(t) => CreateTransaction(b, t)
    case ChangeTransaction(id, p) => UpdateTransaction(b, id, p)
    case DropTransaction(id) => DeleteTransaction(b, id)
    case NewManaged(t, m) => CreateManaged(b, t, m)
    case DropManaged(id) => RemoveManaged(b, id)
    case NewPurchase(p) => CreatePurchase(b, p)
    case ChangePurchase(id, p) => UpdatePurchase(b, id, p)
    case DropPurchase(id) => DeletePurchase(b, id)
  }

  /** A request either commits or leaves the books as they were. */
  function Run(b: Books, requests: seq<Request>): Books
    decreases |requests|
  {
    if requests == [] then b
    else Run(Committed(b, Perform(b, requests[0])), requests[1..])
  }

  const EMPTY_BOOKS := Books(map[], map[], [], map[], map[], map[], 0)
}
