/** Laws of the ledger: balances agree with entries after any run of requests, deleting undoes creating, and
    editing is deleting and creating again. */
module LedgerLaws {
  import opened Calendar
  import opened Common
  import opened Ledger

  // ---------------------------------------------------------------- moving money keeps the agreement

  lemma AppendKeepsOthers(a: Account, entries: seq<Entry>, e: Entry, id: Id)
    requires AccountAgrees(a, entries, id) && e.account != id
    ensures AccountAgrees(a, entries + [e], id)
  {
    SumOfAppended(entries, e, id);
  }

  /** Adding a delta to the funds and recording it keeps the agreement. */
  lemma MoveAndRecord(accounts: map<Id, Account>, entries: seq<Entry>, e: Entry)
    requires Agrees(accounts, entries) && e.account in accounts && accounts[e.account].tracking
    ensures MoveFunds(accounts, e.account, e.delta).Ok?
    ensures Agrees(MoveFunds(accounts, e.account, e.delta).value, entries + [e])
  {
    hide Sum;
    var moved := MoveFunds(accounts, e.account, e.delta).value;
    SumOfAppended(entries, e, e.account);
    forall id | id in moved
      ensures AccountAgrees(moved[id], entries + [e], id)
    {
      if id != e.account {
        AppendKeepsOthers(accounts[id], entries, e, id);
      }
    }
  }

  lemma PostKeeps(b: Books, e: Entry)
    requires Agrees(b.accounts, b.entries) && e.account in b.accounts
    ensures Post(b, e).Ok?
    ensures var r := Post(b, e).value;
            && Agrees(r.accounts, r.entries) && r.accounts.Keys == b.accounts.Keys
            && r == b.(accounts := r.accounts, entries := r.entries)
            && r.entries == b.entries + (if b.accounts[e.account].tracking then [e] else [])
            && (forall id <- b.accounts :: SameAccount(r.accounts[id], b.accounts[id]) && StillUntracked(r.accounts[id], b.accounts[id]))
  {
    hide AccountAgrees;
    if b.accounts[e.account].tracking {
      MoveAndRecord(b.accounts, b.entries, e);
    }
  }

  lemma OnePosted(b: Books, e: Entry)
    ensures PostAll(b, [e]) == Post(b, e)
  {
    assert [e][1..] == [];
  }

  lemma TwoPosted(b: Books, first: Entry, second: Entry)
    requires Post(b, first).Ok?
    ensures PostAll(b, [first, second]) == Post(Post(b, first).value, second)
  {
    assert [first, second][1..] == [second];
    OnePosted(Post(b, first).value, second);
  }

  lemma AccountOf(b: Books, id: Id)
    requires Consistent(b) && id in b.accounts
    ensures AccountAgrees(b.accounts[id], b.entries, id)
  {
    hide AccountAgrees;
  }

  /** Two states of one account: everything but its funds is equal. */
  predicate SameAccount(a: Account, c: Account) {
    a.kind == c.kind && a.currency == c.currency && a.tracking == c.tracking && a.creditLimit == c.creditLimit
    && a.active == c.active && a.trackedFrom == c.trackedFrom
  }

  predicate StillUntracked(a: Account, c: Account) {
    !c.tracking ==> a == c
  }

  function TrackedOnly(accounts: map<Id, Account>, es: seq<Entry>): seq<Entry>
    requires forall e <- es :: e.account in accounts
  {
    if es == [] then []
    else (if accounts[es[0].account].tracking then [es[0]] else []) + TrackedOnly(accounts, es[1..])
  }

  lemma {:induction false} PostAllKeeps(b: Books, es: seq<Entry>)
    requires Agrees(b.accounts, b.entries) && forall e <- es :: e.account in b.accounts
    ensures PostAll(b, es).Ok?
    ensures var r := PostAll(b, es).value;
            && Agrees(r.accounts, r.entries) && r.accounts.Keys == b.accounts.Keys
            && r == b.(accounts := r.accounts, entries := r.entries)
            && r.entries == b.entries + TrackedOnly(b.accounts, es)
            && (forall id <- b.accounts :: SameAccount(r.accounts[id], b.accounts[id]) && StillUntracked(r.accounts[id], b.accounts[id]))
    decreases |es|
  {
    hide Agrees, Post, SameAccount, StillUntracked;
    if es == [] {
      ItselfTwice(b.accounts);
    } else {
      PostKeeps(b, es[0]);
      var next := Post(b, es[0]).value;
      PostAllKeeps(next, es[1..]);
      SameTracking(b.accounts, next.accounts, es[1..]);
      SameTwice(b.accounts, next.accounts, PostAll(next, es[1..]).value.accounts);
    }
  }

  lemma ItselfTwice(accounts: map<Id, Account>)
    ensures forall id <- accounts :: SameAccount(accounts[id], accounts[id]) && StillUntracked(accounts[id], accounts[id])
  {
  }

  lemma SameTwice(before: map<Id, Account>, between: map<Id, Account>, after: map<Id, Account>)
    requires before.Keys == between.Keys == after.Keys
    requires forall id <- before :: SameAccount(between[id], before[id]) && StillUntracked(between[id], before[id])
    requires forall id <- between :: SameAccount(after[id], between[id]) && StillUntracked(after[id], between[id])
    ensures forall id <- before :: SameAccount(after[id], before[id]) && StillUntracked(after[id], before[id])
  {
  }

  lemma {:induction false} SameTracking(before: map<Id, Account>, after: map<Id, Account>, es: seq<Entry>)
    requires before.Keys == after.Keys && (forall id <- before :: SameAccount(after[id], before[id]))
    requires forall e <- es :: e.account in before
    ensures TrackedOnly(before, es) == TrackedOnly(after, es)
    decreases |es|
  {
    if es != [] {
      SameTracking(before, after, es[1..]);
    }
  }

  predicate AllFunded(accounts: map<Id, Account>, es: seq<Entry>) {
    forall e <- es :: e.account in accounts && accounts[e.account].Funds().Some?
  }

  function Lowered(a: Account, amount: int): Account {
    if a.Funds().Some? then a.WithFunds(a.Funds().value - amount) else a
  }

  lemma SumFromFront(es: seq<Entry>, id: Id)
    requires es != []
    ensures Sum(es, id) == (if es[0].account == id then es[0].delta else 0) + Sum(es[1..], id)
  {
    SumSplitsAt([es[0]], es[1..], id);
    assert [es[0]] + es[1..] == es;
    assert Sum([es[0]][..0], id) == 0;
  }

  /** One step of a reversal. */
  lemma MoveLowers(accounts: map<Id, Account>, id: Id, delta: int)
    requires id in accounts && accounts[id].Funds().Some?
    ensures MoveFunds(accounts, id, -delta) == Ok(accounts[id := Lowered(accounts[id], delta)])
    ensures Lowered(accounts[id], delta).Funds().Some?
  {
  }

  lemma LoweredTwice(a: Account, first: int, second: int)
    ensures Lowered(Lowered(a, first), second) == Lowered(a, first + second) && Lowered(a, 0) == a
  {
  }

  /** Reversing entries lowers each account by the sum of its entries. */
  lemma {:induction false} ReverseLowers(accounts: map<Id, Account>, es: seq<Entry>)
    requires AllFunded(accounts, es)
    ensures Reverse(accounts, es).Ok?
    ensures var r := Reverse(accounts, es).value;
            r.Keys == accounts.Keys && forall id <- accounts :: r[id] == Lowered(accounts[id], Sum(es, id))
    decreases |es|
  {
    hide Sum, Lowered, MoveFunds;
    if es == [] {
      forall id | id in accounts ensures Lowered(accounts[id], Sum(es, id)) == accounts[id] {
        NoEntriesSumToZero(es, id);
        LoweredTwice(accounts[id], 0, 0);
      }
    } else {
      var e := es[0];
      MoveLowers(accounts, e.account, e.delta);
      var next := accounts[e.account := Lowered(accounts[e.account], e.delta)];
      ReverseLowers(next, es[1..]);
      forall id | id in accounts
        ensures Reverse(accounts, es).value[id] == Lowered(accounts[id], Sum(es, id))
      {
        SumFromFront(es, id);
        LoweredTwice(accounts[id], e.delta, Sum(es[1..], id));
      }
    }
  }

  lemma RetractKeeps(b: Books, s: Selection)
    requires Agrees(b.accounts, b.entries)
    ensures Retract(b, s).Ok?
    ensures var r := Retract(b, s).value;
            && Agrees(r.accounts, r.entries) && r.accounts.Keys == b.accounts.Keys
            && r == b.(accounts := r.accounts, entries := Others(b.entries, s))
            && (forall id <- b.accounts :: r.accounts[id] == Lowered(b.accounts[id], Sum(Selected(b.entries, s), id)))
  {
    hide Sum, Selected, Others;
    var es := Selected(b.entries, s);
    SelectionIsPart(b.entries, s);
    ReverseLowers(b.accounts, es);
    var r := Retract(b, s).value;
    forall id | id in r.accounts
      ensures AccountAgrees(r.accounts[id], r.entries, id)
    {
      SumSplits(b.entries, s, id);
    }
  }

  // ---------------------------------------------------------------- every request keeps the books consistent

  lemma DeltasTouchItsAccounts(id: Id, t: Transaction)
    requires Deltas(id, t).Ok?
    ensures forall e <- Deltas(id, t).value :: e.account in AccountsOf(t) && e.source == OfTransaction(id)
  {
  }

  lemma TrackedOnlyIsSome(accounts: map<Id, Account>, es: seq<Entry>)
    requires forall e <- es :: e.account in accounts
    ensures forall e <- TrackedOnly(accounts, es) :: e in es && accounts[e.account].tracking
  {
  }

  /** Effects of a listed transaction. */
  lemma EffectsKeep(b: Books, id: Id, t: Transaction)
    requires Agrees(b.accounts, b.entries) && ValidShape(t) && AccountsOf(t) <= b.accounts.Keys
    ensures ApplyEffects(b, id, t).Ok?
    ensures var r := ApplyEffects(b, id, t).value;
            && Agrees(r.accounts, r.entries) && r.accounts.Keys == b.accounts.Keys
            && r == b.(accounts := r.accounts, entries := r.entries)
            && r.entries == b.entries + (if t.affectsBalance then TrackedOnly(b.accounts, Deltas(id, t).value) else [])
            && (forall i <- b.accounts :: SameAccount(r.accounts[i], b.accounts[i]) && StillUntracked(r.accounts[i], b.accounts[i]))
  {
    hide Agrees;
    if t.affectsBalance {
      DeltasTouchItsAccounts(id, t);
      PostAllKeeps(b, Deltas(id, t).value);
    }
  }

  /** Effects of a stored transaction keep the books consistent. */
  lemma StoredEffectsKeep(b: Books, id: Id, t: Transaction)
    requires Consistent(b) && id in b.transactions && ValidShape(t) && AccountsOf(t) <= b.accounts.Keys
    ensures ApplyEffects(b, id, t).Ok? && Consistent(ApplyEffects(b, id, t).value)
  {
    hide Agrees;
    EffectsKeep(b, id, t);
    if t.affectsBalance {
      DeltasTouchItsAccounts(id, t);
      TrackedOnlyIsSome(b.accounts, Deltas(id, t).value);
    }
  }

  lemma StoringKeeps(b: Books, id: Id, t: Transaction)
    requires Consistent(b) && id < b.nextId && t.purchase.None?
    ensures Consistent(b.(transactions := b.transactions[id := t]))
  {
    hide Agrees;
  }

  lemma RecordKeeps(b: Books, id: Id, t: Transaction)
    requires Consistent(b) && id < b.nextId && t.purchase.None?
    requires Record(b, id, t).Ok?
    ensures Consistent(Record(b, id, t).value)
  {
    hide Agrees, Linked;
    StoringKeeps(b, id, t);
    StoredEffectsKeep(b.(transactions := b.transactions[id := t]), id, t);
  }

  lemma RetractConsistent(b: Books, s: Selection)
    requires Consistent(b)
    ensures Retract(b, s).Ok? && Consistent(Retract(b, s).value)
  {
    hide Agrees;
    RetractKeeps(b, s);
    SelectionIsPart(b.entries, s);
  }

  lemma RemoveKeeps(b: Books, id: Id)
    requires Consistent(b)
    ensures Remove(b, id).Ok? && Consistent(Remove(b, id).value)
  {
    hide Agrees;
    RetractKeeps(b, OneTransaction(id));
    SelectionIsPart(b.entries, OneTransaction(id));
  }

  lemma UpdateTransactionKeeps(b: Books, id: Id, p: TransactionPatch)
    requires Consistent(b) && UpdateTransaction(b, id, p).Ok?
    ensures Consistent(UpdateTransaction(b, id, p).value)
  {
    hide Agrees;
    var updated := Patched(b.transactions[id], p);
    if BalanceShaped(p) {
      RetractConsistent(b, OneTransaction(id));
      RetractKeeps(b, OneTransaction(id));
      var retracted := Retract(b, OneTransaction(id)).value;
      StoringKeeps(retracted, id, updated);
      StoredEffectsKeep(retracted.(transactions := retracted.transactions[id := updated]), id, updated);
    } else {
      StoringKeeps(b, id, updated);
    }
  }

  lemma ClearPurchaseKeeps(b: Books, id: Id)
    requires Consistent(b)
    ensures ClearPurchase(b, id).Ok? && Consistent(ClearPurchase(b, id).value)
    ensures var r := ClearPurchase(b, id).value;
            && r.accounts.Keys == b.accounts.Keys && r.purchases == b.purchases && r.nextId == b.nextId
            && (forall e <- r.entries :: e.source != OfPurchase(id))
            && (forall i <- b.accounts :: SameAccount(r.accounts[i], b.accounts[i]))
  {
    hide Agrees, Linked, Others, Selected, Reverse, InstallmentIds;
    RetractKeeps(b, PurchaseEntries(b, id));
    SelectionIsPart(b.entries, PurchaseEntries(b, id));
    ClearedLinks(b, id);
  }

  lemma ClearedLinks(b: Books, id: Id)
    requires Linked(b) && ClearPurchase(b, id).Ok? && ClearPurchase(b, id).value.accounts.Keys == b.accounts.Keys
    ensures Linked(ClearPurchase(b, id).value)
  {
    SelectionIsPart(b.entries, PurchaseEntries(b, id));
    hide Agrees, Selected, Others, Reverse;
  }

  lemma PlacePurchaseKeeps(b: Books, id: Id, p: PurchaseInput, charge: bool)
    requires Consistent(b) && p.count > 0 && p.account in b.accounts && id < b.nextId
    ensures PlacePurchase(b, id, p, charge).Ok? && Consistent(PlacePurchase(b, id, p, charge).value)
  {
    hide Agrees, InsertInstallments, Post;
    var listed := b.(purchases := b.purchases[id := PurchaseRow(p)]);
    assert Linked(listed);
    if charge {
      ChargeKeeps(listed, id, p);
      InsertingKeeps(Post(listed, Entry(p.account, OfPurchase(id), -p.total)).value, id, p);
    } else {
      InsertingKeeps(listed, id, p);
    }
  }

  lemma ChargeKeeps(b: Books, id: Id, p: PurchaseInput)
    requires Consistent(b) && p.account in b.accounts && id in b.purchases
    ensures var r := Post(b, Entry(p.account, OfPurchase(id), -p.total));
            r.Ok? && Consistent(r.value) && id in r.value.purchases
  {
    hide Agrees, Post;
    PostKeeps(b, Entry(p.account, OfPurchase(id), -p.total));
  }

  lemma RowOfPurchase(id: Id, p: PurchaseInput, number: nat)
    requires p.count > 0
    ensures InstallmentRow(id, p, number).purchase == Some(id)
  {
  }

  /** The installments of a purchase by number. */
  lemma {:induction false} RowsByNumber(id: Id, p: PurchaseInput, first: Id, n: nat)
    requires p.count > 0
    ensures forall t <- InstallmentRows(id, p, first, n) :: first <= t < first + n
    ensures forall t | first <= t < first + n :: t in InstallmentRows(id, p, first, n)
              && InstallmentRows(id, p, first, n)[t] == InstallmentRow(id, p, t - first + 1)
              && InstallmentRows(id, p, first, n)[t].purchase == Some(id)
  {
    hide InstallmentRow;
    if n > 0 {
      RowOfPurchase(id, p, n);
      RowsByNumber(id, p, first, n - 1);
    }
  }

  lemma InsertingKeeps(b: Books, id: Id, p: PurchaseInput)
    requires Consistent(b) && p.count > 0 && id in b.purchases
    ensures Consistent(InsertInstallments(b, id, p))
  {
    hide Agrees, InstallmentRows, InstallmentRow;
    RowsByNumber(id, p, b.nextId, p.count);
    assert Linked(InsertInstallments(b, id, p));
  }

  lemma AccountsKeep(b: Books, id: Id, a: Account, entries: seq<Entry>)
    requires Consistent(b) && id in b.accounts && AccountAgrees(a, b.entries + entries, id)
    requires forall e <- entries :: e.account == id && (e.source.Opening? || e.source.Reconciliation?)
    ensures Consistent(b.(accounts := b.accounts[id := a], entries := b.entries + entries))
  {
    hide AccountAgrees;
    var r := b.(accounts := b.accounts[id := a], entries := b.entries + entries);
    forall i | i in r.accounts
      ensures AccountAgrees(r.accounts[i], r.entries, i)
    {
      if i != id {
        MoreEntriesElsewhere(b.accounts[i], b.entries, entries, i);
      }
    }
  }

  lemma MoreEntriesElsewhere(a: Account, entries: seq<Entry>, more: seq<Entry>, id: Id)
    requires AccountAgrees(a, entries, id) && forall e <- more :: e.account != id
    ensures AccountAgrees(a, entries + more, id)
  {
    SumSplitsAt(entries, more, id);
    NoEntriesSumToZero(more, id);
  }

  lemma OneMoreEntry(entries: seq<Entry>, e: Entry)
    ensures Sum(entries + [e], e.account) == Sum(entries, e.account) + e.delta
  {
    SumOfAppended(entries, e, e.account);
  }

  lemma CreateAccountKeeps(b: Books, a: Account)
    requires Consistent(b) && CreateAccount(b, a).Ok?
    ensures Consistent(CreateAccount(b, a).value)
  {
    hide Sum;
    var r := CreateAccount(b, a).value;
    var id := b.nextId;
    NoEntriesSumToZero(b.entries, id);
    if a.tracking {
      OneMoreEntry(b.entries, r.entries[|b.entries|]);
    }
    assert AccountAgrees(r.accounts[id], r.entries, id);
    forall i | i in r.accounts
      ensures AccountAgrees(r.accounts[i], r.entries, i)
    {
      if i != id {
        MoreEntriesElsewhere(b.accounts[i], b.entries, r.entries[|b.entries|..], i);
        assert b.entries + r.entries[|b.entries|..] == r.entries;
      }
    }
  }

  lemma UpdateAccountKeeps(b: Books, id: Id, p: AccountPatch)
    requires Consistent(b) && UpdateAccount(b, id, p).Ok?
    ensures Consistent(UpdateAccount(b, id, p).value)
  {
    hide Sum;
    assert b.entries + [] == b.entries;
    AccountsKeep(b, id, UpdateAccount(b, id, p).value.accounts[id], []);
  }

  lemma EnableTrackingKeeps(b: Books, id: Id, amount: int)
    requires Consistent(b) && EnableTracking(b, id, amount).Ok?
    ensures Consistent(EnableTracking(b, id, amount).value)
  {
    hide Sum;
    NoEntriesSumToZero(b.entries, id);
    OneMoreEntry(b.entries, Entry(id, Opening, amount));
    AccountsKeep(b, id, EnableTracking(b, id, amount).value.accounts[id], [Entry(id, Opening, amount)]);
  }

  lemma ReconcileBalanceKeeps(b: Books, id: Id, amount: int)
    requires Consistent(b) && ReconcileBalance(b, id, amount).Ok?
    ensures Consistent(ReconcileBalance(b, id, amount).value)
    ensures ReconcileBalance(b, id, amount).value.accounts[id].Funds() == Some(amount)
  {
    hide Sum;
    if amount != b.accounts[id].Funds().value {
      var e := Entry(id, Reconciliation, amount - b.accounts[id].Funds().value);
      OneMoreEntry(b.entries, e);
      AccountsKeep(b, id, b.accounts[id].WithFunds(amount), [e]);
    }
  }

  lemma AdjustKeeps(b: Books, id: Id, delta: int)
    requires Consistent(b) && id in b.accounts && b.accounts[id].tracking
    ensures Adjust(b, id, delta).Ok? && Consistent(Adjust(b, id, delta).value)
  {
    hide Sum;
    var e := Entry(id, Reconciliation, delta);
    OneMoreEntry(b.entries, e);
    AccountsKeep(b, id, b.accounts[id].WithFunds(b.accounts[id].Funds().value + delta), [e]);
  }

  // ---------------------------------------------------------------- over whole runs

  lemma PerformKeeps(b: Books, r: Request)
    requires Consistent(b) && Perform(b, r).Ok?
    ensures Consistent(Perform(b, r).value)
  {
    hide Consistent, CreateAccount, UpdateAccount, EnableTracking, ReconcileBalance, UpdateTransaction, Adjust;
    match r
    case NewAccount(a) => CreateAccountKeeps(b, a);
    case ChangeAccount(id, p) => UpdateAccountKeeps(b, id, p);
    case StartTracking(id, amount) => EnableTrackingKeeps(b, id, amount);
    case CountBalance(id, amount) => ReconcileBalanceKeeps(b, id, amount);
    case AdjustBalance(id, delta) => AdjustBalanceKeeps(b, id, delta);
    case NewTransaction(t) => CreateTransactionKeeps(b, t);
    case ChangeTransaction(id, p) => UpdateTransactionKeeps(b, id, p);
    case DropTransaction(id) => RemoveKeeps(b, id);
    case NewManaged(t, m) => CreateTransactionKeeps(b, t); ManagingKeeps(b, t, m);
    case DropManaged(id) => RemoveKeeps(b, id);
    case NewPurchase(p) => CreatePurchaseKeeps(b, p);
    case ChangePurchase(id, p) => UpdatePurchaseKeeps(b, id, p);
    case DropPurchase(id) => DeletePurchaseKeeps(b, id);
  }

  lemma AdjustBalanceKeeps(b: Books, id: Id, delta: int)
    requires Consistent(b) && (id in b.accounts ==> b.accounts[id].tracking) && Adjust(b, id, delta).Ok?
    ensures Consistent(Adjust(b, id, delta).value)
  {
    hide Consistent;
    AdjustKeeps(b, id, delta);
  }

  lemma CreateTransactionKeeps(b: Books, t: Transaction)
    requires Consistent(b) && CreateTransaction(b, t).Ok?
    ensures Consistent(CreateTransaction(b, t).value)
    ensures b.nextId in CreateTransaction(b, t).value.transactions && CreateTransaction(b, t).value.transactions[b.nextId] == t
  {
    hide Agrees;
    var next := b.(nextId := b.nextId + 1);
    RecordKeeps(next, b.nextId, t);
    EffectsKeep(next.(transactions := next.transactions[b.nextId := t]), b.nextId, t);
  }

  lemma ManagingKeeps(b: Books, t: Transaction, m: Manager)
    requires Consistent(b) && CreateManaged(b, t, m).Ok? && CreateTransaction(b, t).Ok?
    requires Consistent(CreateTransaction(b, t).value)
    requires b.nextId in CreateTransaction(b, t).value.transactions && CreateTransaction(b, t).value.transactions[b.nextId] == t
    ensures Consistent(CreateManaged(b, t, m).value)
  {
    hide Agrees, Record;
  }

  lemma CreatePurchaseKeeps(b: Books, p: PurchaseInput)
    requires Consistent(b) && CreatePurchase(b, p).Ok?
    ensures Consistent(CreatePurchase(b, p).value)
  {
    hide Agrees, PlacePurchase;
    PlacePurchaseKeeps(b.(nextId := b.nextId + 1), b.nextId, p, true);
  }

  lemma UpdatePurchaseKeeps(b: Books, id: Id, p: PurchaseInput)
    requires Consistent(b) && UpdatePurchase(b, id, p).Ok?
    ensures Consistent(UpdatePurchase(b, id, p).value)
  {
    hide Agrees, PlacePurchase, ClearPurchase;
    ClearPurchaseKeeps(b, id);
    PlacePurchaseKeeps(ClearPurchase(b, id).value, id, p, HadPurchaseEntry(b, id));
  }

  lemma DeletePurchaseKeeps(b: Books, id: Id)
    requires Consistent(b) && DeletePurchase(b, id).Ok?
    ensures Consistent(DeletePurchase(b, id).value)
  {
    hide Agrees;
    ClearPurchaseKeeps(b, id);
    RetractKeeps(b, PurchaseEntries(b, id));
    SelectionIsPart(b.entries, PurchaseEntries(b, id));
  }

  lemma {:induction false} RunKeeps(b: Books, requests: seq<Request>)
    requires Consistent(b)
    ensures Consistent(Run(b, requests))
    decreases |requests|
  {
    hide Consistent, Perform;
    if requests != [] {
      if Perform(b, requests[0]).Ok? {
        PerformKeeps(b, requests[0]);
      }
      RunKeeps(Committed(b, Perform(b, requests[0])), requests[1..]);
    }
  }

  /** A user who has nothing but statements of cards to come. */
  lemma EmptyBooksAreConsistent(statements: map<Id, Id>)
    ensures Consistent(EMPTY_BOOKS.(statements := statements))
  {
  }

  /** In every state reached from consistent books, as those of a new user are, a tracked debit account holds the sum of
      its entries, and a tracked card owes (limit minus available credit) its limit when tracking began minus the sum
      of its entries. */
  lemma BalancesAlwaysAgree(start: Books, requests: seq<Request>, id: Id)
    requires Consistent(start)
    ensures var b := Run(start, requests);
            id in b.accounts && b.accounts[id].tracking ==>
              var a := b.accounts[id];
              if a.kind.Debit? then a.balance == Some(Sum(b.entries, id))
              else a.creditLimit.Some? && a.availableCredit.Some?
                   && a.creditLimit.value - a.availableCredit.value == a.trackedFrom - Sum(b.entries, id)
  {
    hide Sum, Run;
    RunKeeps(start, requests);
    var b := Run(start, requests);
    if id in b.accounts {
      assert AccountAgrees(b.accounts[id], b.entries, id);
    }
  }

  // ---------------------------------------------------------------- deleting undoes creating

  /** The stored shape, the entries and the untouched fields settle an account. */
  lemma AgreementSettlesAccount(a: Account, c: Account, entries: seq<Entry>, id: Id)
    requires AccountAgrees(a, entries, id) && AccountAgrees(c, entries, id)
    requires SameAccount(a, c) && (!c.tracking ==> a.Funds() == c.Funds())
    ensures a == c
  {
  }

  /** Taking back exactly the entries a request added gives back the accounts it started from. */
  lemma RetractUndoes(b: Books, after: Books, s: Selection)
    requires Agrees(b.accounts, b.entries) && Agrees(after.accounts, after.entries)
    requires after.accounts.Keys == b.accounts.Keys
    requires forall id <- b.accounts :: SameAccount(after.accounts[id], b.accounts[id]) && StillUntracked(after.accounts[id], b.accounts[id])
    requires Others(after.entries, s) == b.entries
    ensures Retract(after, s).Ok?
    ensures Retract(after, s).value.accounts == b.accounts && Retract(after, s).value.entries == b.entries
  {
    hide AccountAgrees, Sum, Selected, Others;
    RetractKeeps(after, s);
    var r := Retract(after, s).value;
    forall id | id in b.accounts
      ensures r.accounts[id] == b.accounts[id]
    {
      RetractedAccount(b, after, s, id);
      AgreementSettlesAccount(r.accounts[id], b.accounts[id], b.entries, id);
    }
  }

  lemma RetractedAccount(b: Books, after: Books, s: Selection, id: Id)
    requires Agrees(b.accounts, b.entries) && Agrees(after.accounts, after.entries)
    requires id in b.accounts && id in after.accounts
    requires SameAccount(after.accounts[id], b.accounts[id]) && StillUntracked(after.accounts[id], b.accounts[id])
    ensures var lowered := Lowered(after.accounts[id], Sum(Selected(after.entries, s), id));
            SameAccount(lowered, b.accounts[id]) && (!b.accounts[id].tracking ==> lowered.Funds() == b.accounts[id].Funds())
  {
    hide Sum, Selected;
    assert AccountAgrees(after.accounts[id], after.entries, id);
    if !b.accounts[id].tracking {
      SelectionIsPart(after.entries, s);
      NoEntriesSumToZero(Selected(after.entries, s), id);
    }
  }

  lemma {:induction false} NothingSelected(entries: seq<Entry>, s: Selection)
    requires forall e <- entries :: !s.Has(e)
    ensures Selected(entries, s) == [] && Others(entries, s) == entries
  {
    hide s.Has;
    if entries != [] {
      var init := entries[..|entries| - 1];
      assert forall e <- init :: e in entries;
      NothingSelected(init, s);
    }
  }

  lemma NoEntryYet(b: Books, id: Id)
    requires Linked(b) && b.nextId <= id
    ensures Selected(b.entries, OneTransaction(id)) == []
  {
    hide Selected;
    NothingSelected(b.entries, OneTransaction(id));
  }

  lemma OthersOfOneMore(entries: seq<Entry>, e: Entry, s: Selection)
    requires s.Has(e)
    ensures Others(entries + [e], s) == Others(entries, s)
  {
    assert (entries + [e])[..|entries|] == entries;
  }

  lemma {:induction false} OthersOfAppended(entries: seq<Entry>, more: seq<Entry>, s: Selection)
    requires (forall e <- entries :: !s.Has(e)) && (forall e <- more :: s.Has(e))
    ensures Others(entries + more, s) == entries
    decreases |more|
  {
    hide Others, s.Has;
    if more == [] {
      assert entries + more == entries;
      NothingSelected(entries, s);
    } else {
      var init, last := more[..|more| - 1], more[|more| - 1];
      assert entries + more == (entries + init) + [last];
      OthersOfOneMore(entries + init, last, s);
      OthersOfAppended(entries, init, s);
    }
  }

  /** What recording a transaction under a fresh id adds can be told apart. */
  lemma RecordedEntries(b: Books, t: Transaction)
    requires Consistent(b) && CreateTransaction(b, t).Ok?
    ensures var r := CreateTransaction(b, t).value;
            && Others(r.entries, OneTransaction(b.nextId)) == b.entries
            && r == b.(accounts := r.accounts, entries := r.entries, transactions := b.transactions[b.nextId := t], nextId := b.nextId + 1)
            && r.accounts.Keys == b.accounts.Keys
            && AccountsOf(t) <= b.accounts.Keys
            && Agrees(r.accounts, r.entries)
            && (forall i <- b.accounts :: SameAccount(r.accounts[i], b.accounts[i]) && StillUntracked(r.accounts[i], b.accounts[i]))
  {
    hide Agrees;
    var next := b.(nextId := b.nextId + 1);
    var listed := next.(transactions := next.transactions[b.nextId := t]);
    EffectsKeep(listed, b.nextId, t);
    var more := if t.affectsBalance then TrackedOnly(b.accounts, Deltas(b.nextId, t).value) else [];
    if t.affectsBalance {
      DeltasTouchItsAccounts(b.nextId, t);
      TrackedOnlyIsSome(b.accounts, Deltas(b.nextId, t).value);
    }
    OthersOfAppended(b.entries, more, OneTransaction(b.nextId));
  }

  /** Deleting a transaction right after creating it restores every account, entry and row. */
  lemma DeleteUndoesCreate(b: Books, t: Transaction)
    requires Consistent(b) && CreateTransaction(b, t).Ok?
    ensures DeleteTransaction(CreateTransaction(b, t).value, b.nextId) == Ok(b.(nextId := b.nextId + 1))
  {
    hide Agrees, CreateTransaction;
    RemoveUndoesCreate(b, t);
    RecordedEntries(b, t);
    CreatedIsPlain(b, t);
  }

  lemma CreatedIsPlain(b: Books, t: Transaction)
    requires CreateTransaction(b, t).Ok?
    ensures t.purchase.None?
  {
  }

  lemma RemoveUndoesCreate(b: Books, t: Transaction)
    requires Consistent(b) && CreateTransaction(b, t).Ok?
    ensures Remove(CreateTransaction(b, t).value, b.nextId) == Ok(b.(nextId := b.nextId + 1))
  {
    hide Agrees, CreateTransaction;
    RecordedEntries(b, t);
    var r := CreateTransaction(b, t).value;
    RetractUndoes(b, r, OneTransaction(b.nextId));
    assert b.transactions[b.nextId := t] - {b.nextId} == b.transactions;
    assert b.managers - {b.nextId} == b.managers;
  }

  // ---------------------------------------------------------------- editing is deleting and creating again

  lemma ValidationIgnoresFunds(b: Books, c: Books, t: Transaction)
    requires c.accounts.Keys == b.accounts.Keys && c.statements == b.statements
    requires forall id <- b.accounts :: SameAccount(c.accounts[id], b.accounts[id])
    ensures ValidateAccounts(c, t) == ValidateAccounts(b, t)
  {
  }

  /** Editing what balances depend on equals deleting the transaction and recording the patched one in its
      place: the same accounts, entries and rows, and it is accepted exactly when both steps are. */
  lemma EditIsDeleteThenRecreate(b: Books, id: Id, p: TransactionPatch)
    requires Consistent(b) && BalanceShaped(p) && p.purchase.None?
    ensures UpdateTransaction(b, id, p).Ok?
            <==> DeleteTransaction(b, id).Ok? && Record(DeleteTransaction(b, id).value, id, Patched(b.transactions[id], p)).Ok?
    ensures UpdateTransaction(b, id, p).Ok? ==>
              UpdateTransaction(b, id, p) == Record(DeleteTransaction(b, id).value, id, Patched(b.transactions[id], p))
  {
    hide Agrees, Deltas;
    RetractKeeps(b, OneTransaction(id));
    if id in b.transactions && id !in b.managers {
      var updated := Patched(b.transactions[id], p);
      var retracted := Retract(b, OneTransaction(id)).value;
      var removed := retracted.(transactions := retracted.transactions - {id}, managers := retracted.managers - {id});
      assert removed.managers == retracted.managers;
      assert removed.transactions[id := updated] == retracted.transactions[id := updated];
      ValidationIgnoresFunds(b, removed, updated);
    }
  }

  // ---------------------------------------------------------------- deferred purchases

  function SumInstallments(total: int, count: int, n: nat): int
    requires count > 0
  {
    if n == 0 then 0 else SumInstallments(total, count, n - 1) + InstallmentAmount(total, count, n)
  }

  /** The installments of an accepted purchase are positive and add up to the one total charged. */
  lemma InstallmentsAddUp(p: PurchaseInput)
    requires ValidPurchase(p)
    ensures SumInstallments(p.total, p.count, p.count) == p.total
    ensures forall n :: 1 <= n <= p.count ==> InstallmentAmount(p.total, p.count, n) > 0
  {
    EqualInstallments(p.total, p.count, p.count - 1);
    var share := p.total / p.count;
    assert share >= 1;
    assert share * p.count <= p.total;
    assert share * p.count == share * (p.count - 1) + share;
  }

  lemma {:induction false} EqualInstallments(total: int, count: int, n: nat)
    requires n < count
    ensures SumInstallments(total, count, n) == (total / count) * n
  {
    if n > 0 {
      EqualInstallments(total, count, n - 1);
      assert (total / count) * n == (total / count) * (n - 1) + total / count;
    }
  }

  /** All a new purchase changes. */
  lemma PlacedPurchase(b: Books, p: PurchaseInput)
    requires Consistent(b) && CreatePurchase(b, p).Ok?
    ensures var r, rows := CreatePurchase(b, p).value, InstallmentRows(b.nextId, p, b.nextId + 1, p.count);
            && Agrees(r.accounts, r.entries) && r.accounts.Keys == b.accounts.Keys
            && (forall i <- b.accounts :: SameAccount(r.accounts[i], b.accounts[i]) && StillUntracked(r.accounts[i], b.accounts[i]))
            && r == b.(accounts := r.accounts, entries := b.entries + [Entry(p.account, OfPurchase(b.nextId), -p.total)],
                       purchases := b.purchases[b.nextId := PurchaseRow(p)], transactions := b.transactions + rows,
                       nextId := b.nextId + 1 + p.count)
  {
    hide Agrees, Linked, InstallmentRows;
    assert Agrees(b.accounts, b.entries);
    PostKeeps(b.(nextId := b.nextId + 1, purchases := b.purchases[b.nextId := PurchaseRow(p)]), Entry(p.account, OfPurchase(b.nextId), -p.total));
  }

  /** The installments of a new purchase are the only rows that name it. */
  lemma NewInstallments(b: Books, p: PurchaseInput)
    requires Consistent(b) && CreatePurchase(b, p).Ok?
    ensures InstallmentIds(CreatePurchase(b, p).value, b.nextId) == InstallmentRows(b.nextId, p, b.nextId + 1, p.count).Keys
  {
    hide Agrees, CreatePurchase, PurchaseRow, InstallmentRow, InstallmentRows;
    PurchaseAccountExists(b, p);
    RowsByNumber(b.nextId, p, b.nextId + 1, p.count);
    PlacedPurchase(b, p);
  }

  /** The stored rows of a purchase: n installments, one a month, none of which moves a balance. */
  lemma StoredInstallments(b: Books, p: PurchaseInput, n: nat)
    requires Consistent(b) && CreatePurchase(b, p).Ok? && 1 <= n <= p.count
    ensures var r := CreatePurchase(b, p).value;
            && b.nextId + n in InstallmentIds(r, b.nextId)
            && r.transactions[b.nextId + n].amount == InstallmentAmount(p.total, p.count, n)
            && r.transactions[b.nextId + n].date == InMonth(p.start.MonthIndex() + n - 1, p.start.day)
            && !r.transactions[b.nextId + n].affectsBalance
  {
    hide Consistent, CreatePurchase, PurchaseRow, InstallmentAmount, InMonth, InstallmentRows, InstallmentIds, SameAccount, StillUntracked, Agrees;
    RowsByNumber(b.nextId, p, b.nextId + 1, p.count);
    PlacedPurchase(b, p);
    NewInstallments(b, p);
  }

  lemma PurchaseAccountExists(b: Books, p: PurchaseInput)
    requires CreatePurchase(b, p).Ok?
    ensures p.account in b.accounts && p.count > 0
  {
  }

  /** No row of the books before it belongs to a new purchase. */
  lemma RowsOfNewPurchase(b: Books, rows: map<Id, Transaction>)
    requires Linked(b) && forall t <- rows :: t >= b.nextId
    ensures (b.transactions + rows) - rows.Keys == b.transactions
  {
  }

  lemma EntriesOfNewPurchase(b: Books, e: Entry, rows: set<Id>)
    requires Linked(b) && e.source == OfPurchase(b.nextId) && forall t <- rows :: t >= b.nextId
    ensures Others(b.entries + [e], Selection(rows, Some(b.nextId))) == b.entries
  {
    hide Others;
    OthersOfAppended(b.entries, [e], Selection(rows, Some(b.nextId)));
  }

  lemma RetractedPurchase(b: Books, p: PurchaseInput)
    requires Consistent(b) && CreatePurchase(b, p).Ok?
    ensures var r := CreatePurchase(b, p).value;
            Retract(r, PurchaseEntries(r, b.nextId)) == Ok(r.(accounts := b.accounts, entries := b.entries))
  {
    hide Agrees, CreatePurchase, PurchaseRow, Retract, InstallmentIds, InstallmentRows, SameAccount, StillUntracked, Linked, Others;
    PurchaseAccountExists(b, p);
    var id := b.nextId;
    var r, rows := CreatePurchase(b, p).value, InstallmentRows(id, p, id + 1, p.count);
    RowsByNumber(b.nextId, p, b.nextId + 1, p.count);
    PlacedPurchase(b, p);
    NewInstallments(b, p);
    EntriesOfNewPurchase(b, Entry(p.account, OfPurchase(id), -p.total), rows.Keys);
    RetractUndoes(b, r, PurchaseEntries(r, id));
    RetractKeeps(r, PurchaseEntries(r, id));
  }

  /** Deleting a purchase right after creating it restores every account, entry and row. */
  lemma DeletePurchaseUndoesCreate(b: Books, p: PurchaseInput)
    requires Consistent(b) && CreatePurchase(b, p).Ok?
    ensures DeletePurchase(CreatePurchase(b, p).value, b.nextId) == Ok(b.(nextId := b.nextId + 1 + p.count))
  {
    hide Agrees, CreatePurchase, Retract, InstallmentIds, InstallmentRows, SameAccount, StillUntracked, Linked, PurchaseEntries;
    PurchaseAccountExists(b, p);
    RowsByNumber(b.nextId, p, b.nextId + 1, p.count);
    PlacedPurchase(b, p);
    NewInstallments(b, p);
    RetractedPurchase(b, p);
    RowsOfNewPurchase(b, InstallmentRows(b.nextId, p, b.nextId + 1, p.count));
    NewPurchaseRow(b, PurchaseRow(p));
  }

  lemma NewPurchaseRow(b: Books, row: Purchase)
    requires Linked(b)
    ensures b.purchases[b.nextId := row] - {b.nextId} == b.purchases
  {
  }

  /** Editing a purchase that charged a card and has no paid installment equals deleting it and placing the new
      one under the same id, and is accepted exactly when both steps are. */
  lemma EditPurchaseIsDeleteThenRecreate(b: Books, id: Id, p: PurchaseInput)
    requires Consistent(b) && id in b.purchases && HadPurchaseEntry(b, id)
    ensures UpdatePurchase(b, id, p).Ok?
            <==> b.purchases[id].paid <= 0 && DeletePurchase(b, id).Ok? && AdmitPurchase(DeletePurchase(b, id).value, id, p).Ok?
    ensures UpdatePurchase(b, id, p).Ok? ==>
              UpdatePurchase(b, id, p) == AdmitPurchase(DeletePurchase(b, id).value, id, p)
  {
    hide Agrees, Retract, InsertInstallments;
    ClearPurchaseKeeps(b, id);
    var cleared := ClearPurchase(b, id).value;
    if ValidPurchase(p) {
      assert (cleared.purchases - {id})[id := PurchaseRow(p)] == cleared.purchases[id := PurchaseRow(p)];
    }
  }

  // ---------------------------------------------------------------- recording a managed transaction

  /** Recording an income or expense on a tracked account: one entry, one account moved. */
  lemma OneSidedCreation(b: Books, x: Transaction, delta: int, m: Manager)
    requires Consistent(b) && ValidShape(x) && x.affectsBalance && x.purchase.None? && x.kind != Transfer
    requires x.account in b.accounts && b.accounts[x.account].tracking
    requires delta == (if x.kind == Expense then -x.amount else x.amount)
    ensures b.accounts[x.account].Funds().Some?
    ensures var e, a := Entry(x.account, OfTransaction(b.nextId), delta), b.accounts[x.account];
            CreateManaged(b, x, m)
            == Ok(b.(accounts := b.accounts[x.account := a.WithFunds(a.Funds().value + delta)], entries := b.entries + [e],
                     transactions := b.transactions[b.nextId := x], managers := b.managers[b.nextId := m], nextId := b.nextId + 1))
  {
    hide Agrees, Linked, IsBlank, Sum, PostAll;
    AccountOf(b, x.account);
    OnePosted(b.(nextId := b.nextId + 1, transactions := b.transactions[b.nextId := x]), Entry(x.account, OfTransaction(b.nextId), delta));
  }

  /** Recording a transfer between tracked accounts: two entries, two accounts moved by the same amount. */
  lemma TransferCreation(b: Books, x: Transaction, m: Manager)
    requires Consistent(b) && ValidShape(x) && x.affectsBalance && x.purchase.None? && x.kind == Transfer && x.statement.None?
    requires AccountsOf(x) <= b.accounts.Keys && b.accounts[x.account].tracking && b.accounts[x.transferTo.value].tracking
    ensures b.accounts[x.account].Funds().Some? && b.accounts[x.transferTo.value].Funds().Some?
    ensures CreateManaged(b, x, m).Ok? <==> b.accounts[x.account].currency == b.accounts[x.transferTo.value].currency
    ensures CreateManaged(b, x, m).Ok? ==>
              var from, to := x.account, x.transferTo.value;
              CreateManaged(b, x, m).value
              == b.(accounts := b.accounts[from := b.accounts[from].WithFunds(b.accounts[from].Funds().value - x.amount)]
                                          [to := b.accounts[to].WithFunds(b.accounts[to].Funds().value + x.amount)],
                    entries := b.entries + [Entry(from, OfTransaction(b.nextId), -x.amount), Entry(to, OfTransaction(b.nextId), x.amount)],
                    transactions := b.transactions[b.nextId := x], managers := b.managers[b.nextId := m], nextId := b.nextId + 1)
  {
    hide Agrees, Linked, IsBlank, Sum, PostAll;
    AccountOf(b, x.account);
    AccountOf(b, x.transferTo.value);
    var from, to := x.account, x.transferTo.value;
    var out, into := Entry(from, OfTransaction(b.nextId), -x.amount), Entry(to, OfTransaction(b.nextId), x.amount);
    var next := b.(nextId := b.nextId + 1, transactions := b.transactions[b.nextId := x]);
    TwoPosted(next, out, into);
    assert b.entries + [out, into] == (b.entries + [out]) + [into];
  }
}
