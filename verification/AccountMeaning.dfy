/** What the requests on accounts, on deferred purchases and the deletion of a transaction check, store and move, column by
    column. */
module AccountMeaning {
  import opened Calendar
  import opened Common
  import opened Ledger
  import opened LedgerEdits
  import opened LedgerLaws
  import LedgerMeaning

  // ---------------------------------------------------------------- accounts

  /** An account opens with the columns of its kind: a debit account has no limit, a card no balance, a limit is not
      negative, and a tracked account has its figures. It starts active; a tracked one with its funds as its only entry. */
  lemma OpeningMeans(b: Books, a: Account)
    ensures CreateAccount(b, a).Ok?
            <==> && (a.kind == Debit ==> a.creditLimit.None? && a.availableCredit.None?) && (a.kind == Credit ==> a.balance.None?)
                 && (a.creditLimit.Some? ==> a.creditLimit.value >= 0)
                 && (a.tracking && a.kind == Debit ==> a.balance.Some?)
                 && (a.tracking && a.kind == Credit ==> a.creditLimit.Some? && a.availableCredit.Some?)
    ensures CreateAccount(b, a).Ok? ==>
              CreateAccount(b, a).value
              == Books(b.accounts[b.nextId := Account(a.kind, a.currency, a.tracking, a.balance, a.creditLimit, a.availableCredit, true,
                                                      if a.creditLimit.Some? then a.creditLimit.value else 0)],
                       b.transactions,
                       if !a.tracking then b.entries
                       else b.entries + [Entry(b.nextId, Opening, if a.kind == Debit then a.balance.value else a.availableCredit.value)],
                       b.purchases, b.statements, b.managers, b.nextId + 1)
  {
  }

  /** An account update changes what it was given. A tracked account does not take its funds from it; a tracked card whose
      limit moves can spend as much more as the limit rose, so it owes what it owed. */
  lemma PatchMeans(b: Books, id: Id, p: AccountPatch)
    requires Consistent(b) && id in b.accounts
    ensures var a := b.accounts[id];
            var card := a.tracking && a.kind == Credit;
            var balance := if p.balance.Some? then p.balance.value else a.balance;
            var limit := if p.creditLimit.Some? then p.creditLimit.value else a.creditLimit;
            var available := if card && p.creditLimit.Some? && limit.Some? && a.creditLimit.Some? && a.availableCredit.Some?
                             then Some(a.availableCredit.value + limit.value - a.creditLimit.value)
                             else if p.availableCredit.Some? then p.availableCredit.value else a.availableCredit;
            && (UpdateAccount(b, id, p).Ok?
                <==> && (a.tracking && a.kind == Debit ==> p.balance.None?) && (card ==> p.availableCredit.None?)
                     && (card ==> limit.Some?) && (limit.Some? ==> limit.value >= 0)
                     && (a.kind == Debit ==> limit.None? && available.None?) && (a.kind == Credit ==> balance.None?))
            && (UpdateAccount(b, id, p).Ok? ==>
                  UpdateAccount(b, id, p).value
                  == b.(accounts := b.accounts[id := Account(a.kind, a.currency, a.tracking, balance, limit, available,
                                                             if p.active.Some? then p.active.value else a.active, a.trackedFrom)]))
  {
    AccountOf(b, id);
    hide Consistent;
  }

  /** Tracking begins for any account that is not tracked, a card with a limit; the figure given becomes its funds. */
  lemma TrackingMeans(b: Books, id: Id, amount: int)
    ensures EnableTracking(b, id, amount).Ok?
            <==> id in b.accounts && !b.accounts[id].tracking && (b.accounts[id].kind == Credit ==> b.accounts[id].creditLimit.Some?)
    ensures EnableTracking(b, id, amount).Ok? ==>
              var a := b.accounts[id];
              EnableTracking(b, id, amount).value
              == b.(accounts := b.accounts[id := Account(a.kind, a.currency, true, if a.kind == Debit then Some(amount) else a.balance, a.creditLimit,
                                                         if a.kind == Credit then Some(amount) else a.availableCredit, a.active,
                                                         if a.kind == Credit then a.creditLimit.value else 0)],
                    entries := b.entries + [Entry(id, Opening, amount)])
  {
  }

  /** A count of a tracked account makes the figure its funds and records the difference, if there is one. */
  lemma CountMeans(b: Books, id: Id, amount: int)
    requires Consistent(b)
    ensures ReconcileBalance(b, id, amount).Ok? <==> id in b.accounts && b.accounts[id].tracking
    ensures ReconcileBalance(b, id, amount).Ok? ==>
              var a := b.accounts[id];
              && (a.kind == Debit ==> a.balance.Some?) && (a.kind == Credit ==> a.availableCredit.Some?)
              && var funds := if a.kind == Debit then a.balance.value else a.availableCredit.value;
              ReconcileBalance(b, id, amount).value
              == if amount == funds then b
                 else b.(accounts := b.accounts[id := if a.kind == Debit then a.(balance := Some(amount)) else a.(availableCredit := Some(amount))],
                         entries := b.entries + [Entry(id, Reconciliation, amount - funds)])
  {
    if id in b.accounts {
      AccountOf(b, id);
    }
    hide Consistent;
  }

  // ---------------------------------------------------------------- deleting a transaction

  /** A transaction can be deleted exactly if it belongs to no purchase and no manager and its accounts exist. Its row and its
      entries go, and nothing else does. */
  lemma DeletionChecks(b: Books, id: Id)
    requires Consistent(b)
    ensures DeleteTransaction(b, id).Ok?
            <==> && id in b.transactions && b.transactions[id].purchase.None? && id !in b.managers
                 && b.transactions[id].account in b.accounts
                 && (b.transactions[id].transferTo.Some? ==> b.transactions[id].transferTo.value in b.accounts)
    ensures DeleteTransaction(b, id).Ok? ==>
              var r := DeleteTransaction(b, id).value;
              && r == b.(accounts := r.accounts, entries := r.entries, transactions := b.transactions - {id}, managers := b.managers - {id})
              && r.accounts.Keys == b.accounts.Keys && (forall e <- r.entries :: e in b.entries && e.source != OfTransaction(id))
  {
    hide Agrees, Linked, Selected, Others, Lowered, Sum, AccountsOf;
    RetractKeeps(b, OneTransaction(id));
    SelectionIsPart(b.entries, OneTransaction(id));
    if id in b.transactions {
      BothAccounts(b.transactions[id]);
    }
  }

  lemma BothAccounts(t: Transaction)
    ensures AccountsOf(t) == if t.transferTo.Some? then {t.account, t.transferTo.value} else {t.account}
  {
  }

  /** A deletion gives every tracked account back what the row had recorded in it, and leaves the others. */
  lemma DeletionMoves(b: Books, id: Id, a: Id)
    requires Consistent(b) && DeleteTransaction(b, id).Ok? && a in b.accounts
    ensures var r := DeleteTransaction(b, id).value;
            && a in r.accounts
            && var before, after := b.accounts[a], r.accounts[a];
            && (!before.tracking ==> after == before)
            && (before.tracking && before.kind == Debit ==>
                  before.balance.Some? && after == before.(balance := Some(before.balance.value - Recorded(b.entries, id, a))))
            && (before.tracking && before.kind == Credit ==>
                  before.availableCredit.Some?
                  && after == before.(availableCredit := Some(before.availableCredit.value - Recorded(b.entries, id, a))))
  {
    hide Linked, Selected, Others, Recorded, Sum, AccountsOf, AccountAgrees, Lowered, LedgerMeaning.After;
    RetractKeeps(b, OneTransaction(id));
    RecordedIsSelected(b.entries, id, a);
    AccountOf(b, a);
    MovedTwice(b.accounts[a], b.entries, a, Recorded(b.entries, id, a), 0);
    LedgerMeaning.Unmoved(Lowered(b.accounts[a], Recorded(b.entries, id, a)));
    if !b.accounts[a].tracking {
      UntrackedHasNone(b, id, a);
    }
  }

  // ---------------------------------------------------------------- on behalf of another resource

  /** A transaction created for a loan, a goal or a yield is one like any other that is marked with its manager; only a marked
      one can be taken back by its manager, and then goes as a deleted one does. */
  lemma ManagedMeans(b: Books, t: Transaction, m: Manager, id: Id)
    requires Consistent(b)
    ensures CreateManaged(b, t, m).Ok? <==> CreateTransaction(b, t).Ok?
    ensures CreateManaged(b, t, m).Ok? ==>
              var created := CreateTransaction(b, t).value;
              CreateManaged(b, t, m).value == created.(managers := created.managers[b.nextId := m])
    ensures RemoveManaged(b, id).Ok? <==> id in b.managers
    ensures RemoveManaged(b, id).Ok? ==>
              var r := RemoveManaged(b, id).value;
              && r == b.(accounts := r.accounts, entries := r.entries, transactions := b.transactions - {id}, managers := b.managers - {id})
              && r.accounts.Keys == b.accounts.Keys && (forall e <- r.entries :: e in b.entries && e.source != OfTransaction(id))
  {
    hide Agrees, Linked, Selected, Others, Lowered, Sum, AccountsOf, CreateTransaction;
    RetractKeeps(b, OneTransaction(id));
    SelectionIsPart(b.entries, OneTransaction(id));
  }

  // ---------------------------------------------------------------- deferred purchases

  /** A purchase is placed exactly with a description, 2 to 60 installments of at least a cent, on a tracked card. */
  lemma PurchaseChecks(b: Books, p: PurchaseInput)
    requires Consistent(b)
    ensures CreatePurchase(b, p).Ok?
            <==> && (exists c <- p.description :: !IsSpace(c)) && 2 <= p.count <= 60 && p.count <= p.total
                 && p.account in b.accounts && b.accounts[p.account].kind == Credit && b.accounts[p.account].tracking
  {
    hide Agrees, Linked, PlacePurchase;
    BumpedKeeps(b);
    if p.count > 0 && p.account in b.accounts {
      PlacePurchaseKeeps(b.(nextId := b.nextId + 1), b.nextId, p, true);
    }
  }

  lemma BumpedKeeps(b: Books)
    requires Consistent(b)
    ensures Consistent(b.(nextId := b.nextId + 1))
  {
    hide AccountAgrees;
  }

  /** A placed purchase charges the card its whole total once, and lists n installments as rows that move nothing. */
  lemma PurchaseCharges(b: Books, p: PurchaseInput)
    requires Consistent(b) && CreatePurchase(b, p).Ok?
    ensures var r := CreatePurchase(b, p).value;
            && p.account in b.accounts && b.accounts[p.account].availableCredit.Some?
            && var a := b.accounts[p.account];
            && r == Books(b.accounts[p.account := a.(availableCredit := Some(a.availableCredit.value - p.total))], r.transactions,
                          b.entries + [Entry(p.account, OfPurchase(b.nextId), -p.total)],
                          b.purchases[b.nextId := Purchase(p.account, p.category, p.description, p.total, p.count, p.total / p.count, 0, p.start)],
                          b.statements, b.managers, b.nextId + 1 + p.count)
            && (forall id: Id :: id in r.transactions <==> id in b.transactions || b.nextId < id <= b.nextId + p.count)
            && (forall id <- b.transactions :: r.transactions[id] == b.transactions[id])
  {
    hide Agrees, Linked, InstallmentRow, InstallmentRows;
    PurchaseChecks(b, p);
    AccountOf(b, p.account);
    RowsByNumber(b.nextId, p, b.nextId + 1, p.count);
    RowIdsAreOld(b);
    var listed := b.(nextId := b.nextId + 1, purchases := b.purchases[b.nextId := PurchaseRow(p)]);
    LedgerMeaning.PostMoves(listed, Entry(p.account, OfPurchase(b.nextId), -p.total));
  }

  lemma RowIdsAreOld(b: Books)
    requires Linked(b)
    ensures forall id <- b.transactions :: id < b.nextId
  {
  }

  /** Installment n of a placed purchase: an expense of the card that moves nothing, n - 1 months after the start on its day or,
      where the month lacks it, the last. All but the last are equal; the last takes what is left. */
  lemma InstallmentMeans(b: Books, p: PurchaseInput, n: nat)
    requires Consistent(b) && CreatePurchase(b, p).Ok? && 1 <= n <= p.count
    ensures var r := CreatePurchase(b, p).value;
            && b.nextId + n in r.transactions && b.nextId + 1 in r.transactions
            && var row, each := r.transactions[b.nextId + n], r.transactions[b.nextId + 1].amount;
            && row == Transaction(p.account, Expense, row.amount, p.category, row.date,
                                  p.description + " (" + Decimal(n) + "/" + Decimal(p.count) + ")", None, None, false, Some(b.nextId))
            && 12 * row.date.year + row.date.month == 12 * p.start.year + p.start.month + n - 1
            && row.date.day <= p.start.day && (row.date.day < p.start.day ==> NextDay(row.date).day == 1)
            && 0 <= p.total - each * p.count < p.count
            && (n < p.count ==> row.amount == each) && (n == p.count ==> row.amount == p.total - each * (p.count - 1))
  {
    hide Consistent, CreatePurchase, InMonth, NextDay, Decimal, InstallmentAmount;
    PurchaseChecks(b, p);
    InstallmentIsStored(b, p, n);
    InstallmentIsStored(b, p, 1);
    ClampedToLastDay(p.start.MonthIndex() + n - 1, p.start.day);
    Shares(p.total, p.count, n);
  }

  lemma InstallmentIsStored(b: Books, p: PurchaseInput, n: nat)
    requires Consistent(b) && CreatePurchase(b, p).Ok? && 1 <= n <= p.count
    ensures b.nextId + n in CreatePurchase(b, p).value.transactions
    ensures CreatePurchase(b, p).value.transactions[b.nextId + n] == InstallmentRow(b.nextId, p, n)
  {
    hide Consistent, CreatePurchase, InstallmentRow, InstallmentRows, Agrees, SameAccount, StillUntracked;
    RowsByNumber(b.nextId, p, b.nextId + 1, p.count);
    PlacedPurchase(b, p);
  }

  lemma Shares(total: int, count: int, n: int)
    requires count >= 2
    ensures n < count ==> InstallmentAmount(total, count, n) == InstallmentAmount(total, count, 1)
    ensures InstallmentAmount(total, count, count) == total - InstallmentAmount(total, count, 1) * (count - 1)
    ensures 0 <= total - InstallmentAmount(total, count, 1) * count < count
  {
  }

  /** A purchase can be deleted exactly if it exists and its card does; it can be edited exactly if none of its installments is
      paid, the new one fits a card, tracked if the old one was charged, and a purchase that was never charged keeps its
      card, total, count and start. */
  lemma PurchaseEditChecks(b: Books, id: Id, p: PurchaseInput)
    requires Consistent(b)
    ensures DeletePurchase(b, id).Ok? <==> id in b.purchases && b.purchases[id].account in b.accounts
    ensures UpdatePurchase(b, id, p).Ok?
            <==> && (exists c <- p.description :: !IsSpace(c)) && 2 <= p.count <= 60 && p.count <= p.total
                 && id in b.purchases && b.purchases[id].paid <= 0 && b.purchases[id].account in b.accounts
                 && p.account in b.accounts && b.accounts[p.account].kind == Credit
                 && (if exists e <- b.entries :: e.source == OfPurchase(id) then b.accounts[p.account].tracking
                     else b.purchases[id].account == p.account && b.purchases[id].total == p.total && b.purchases[id].count == p.count
                          && b.purchases[id].start == p.start)
  {
    hide Agrees, PlacePurchase, ClearPurchase;
    ClearPurchaseKeeps(b, id);
    if p.count > 0 && p.account in b.accounts && id in b.purchases {
      PlacePurchaseKeeps(ClearPurchase(b, id).value, id, p, HadPurchaseEntry(b, id));
    }
  }
}
