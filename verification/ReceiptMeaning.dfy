/** What a create answers and stores under its key, case by case and in the columns of the tables. */
module ReceiptMeaning {
  import opened Calendar
  import opened Common
  import opened Ledger
  import opened LedgerLaws
  import opened Receipts
  import opened Savings

  /** A transaction a request may ask for: of no purchase, and well shaped. */
  predicate Proper(draft: Draft) {
    draft.TransactionDraft? ==> draft.transaction.purchase.None? && ValidShape(draft.transaction)
  }

  /** The slot of a request: its key, for transactions and for purchases apart. */
  function SlotFor(key: string, draft: Draft): Slot {
    Slot(if draft.TransactionDraft? then Transactions else Purchases, key)
  }

  /** A draft that is not proper is refused before anything else. */
  lemma ImproperIsRefused(s: Shelf, key: Option<string>, draft: Draft)
    requires !Proper(draft)
    ensures Submit(s, key, draft).0 == s && Submit(s, key, draft).1.Refused?
  {
  }

  /** Where the key has a receipt nothing changes. The same draft is answered with the id of the receipt if that row is still
      stored, and that it was deleted otherwise; any other draft is in conflict. */
  lemma ReplayMeans(s: Shelf, key: string, draft: Draft)
    requires Orderly(s) && Proper(draft) && SlotFor(key, draft) in s.receipts
    ensures var receipt, b := s.receipts[SlotFor(key, draft)], s.pots.books;
            && receipt.resourceId.Some?
            && var id := receipt.resourceId.value;
            Submit(s, Some(key), draft)
            == (s, if receipt.draft != draft then Refused(IdempotencyConflict)
                   else if draft.TransactionDraft? && id in b.transactions then Replayed(id)
                   else if draft.PurchaseDraft? && id in b.purchases then Replayed(id)
                   else ReplayDeleted(id))
  {
  }

  /** Where the key has no receipt but a stored transaction, that one is answered, with a receipt from now on, exactly if it is
      the one asked for and its accounts are still accepted; nothing else is stored. */
  lemma FoundTransactionMeans(s: Shelf, key: string, t: Transaction)
    requires Proper(TransactionDraft(t)) && Slot(Transactions, key) !in s.receipts
    requires key in s.pots.keys && s.pots.keys[key] in s.pots.books.transactions
    ensures var b, id, r := s.pots.books, s.pots.keys[key], Submit(s, Some(key), TransactionDraft(t));
            if ValidateAccounts(b, t).Ok? && b.transactions[id] == t
            then r == (s.(receipts := s.receipts[Slot(Transactions, key) := Receipt(TransactionDraft(t), Some(id))]), Created(id))
            else r.0 == s && r.1 == Refused(if ValidateAccounts(b, t).Err? then ValidateAccounts(b, t).error else IdempotencyConflict)
  {
    hide ValidShape, ValidateAccounts;
  }

  lemma SameAccounts(b: Books, t: Transaction)
    ensures ValidateAccounts(b.(nextId := b.nextId + 1), t) == ValidateAccounts(b, t)
  {
  }

  /** Where the key has no receipt and no stored transaction, the transaction is created exactly as without a key, and key and
      receipt name it. */
  lemma FreshTransactionMeans(s: Shelf, key: string, t: Transaction)
    requires Proper(TransactionDraft(t)) && Slot(Transactions, key) !in s.receipts
    requires !(key in s.pots.keys && s.pots.keys[key] in s.pots.books.transactions)
    ensures var b, r := s.pots.books, Submit(s, Some(key), TransactionDraft(t));
            if CreateTransaction(b, t).Ok?
            then r == (s.(pots := s.pots.(books := CreateTransaction(b, t).value, keys := s.pots.keys[key := b.nextId]),
                          receipts := s.receipts[Slot(Transactions, key) := Receipt(TransactionDraft(t), Some(b.nextId))]), Created(b.nextId))
            else r.0 == s && r.1 == Refused(CreateTransaction(b, t).error)
  {
    hide ValidShape, ValidateAccounts, ApplyEffects;
    SameAccounts(s.pots.books, t);
  }

  /** Where the key has no receipt but a stored purchase, that one is answered exactly if its card, category, description, total,
      count and start are those asked for. */
  lemma FoundPurchaseMeans(s: Shelf, key: string, p: PurchaseInput)
    requires Slot(Purchases, key) !in s.receipts && key in s.purchaseKeys && s.purchaseKeys[key] in s.pots.books.purchases
    ensures var b, id, r := s.pots.books, s.purchaseKeys[key], Submit(s, Some(key), PurchaseDraft(p));
            var row, accepted := b.purchases[id], Admit(b, PurchaseDraft(p));
            if accepted.Ok? && row == Purchase(p.account, p.category, p.description, p.total, p.count, row.installment, row.paid, p.start)
            then r == (s.(receipts := s.receipts[Slot(Purchases, key) := Receipt(PurchaseDraft(p), Some(id))]), Created(id))
            else r.0 == s && r.1 == Refused(if accepted.Err? then accepted.error else IdempotencyConflict)
  {
    hide Admit;
  }

  /** Where the key has no receipt and no stored purchase, the purchase is placed exactly as without a key, and key and receipt
      name it. */
  lemma FreshPurchaseMeans(s: Shelf, key: string, p: PurchaseInput)
    requires Slot(Purchases, key) !in s.receipts && !(key in s.purchaseKeys && s.purchaseKeys[key] in s.pots.books.purchases)
    ensures var b, r := s.pots.books, Submit(s, Some(key), PurchaseDraft(p));
            if CreatePurchase(b, p).Ok?
            then r == (s.(pots := s.pots.(books := CreatePurchase(b, p).value), purchaseKeys := s.purchaseKeys[key := b.nextId],
                          receipts := s.receipts[Slot(Purchases, key) := Receipt(PurchaseDraft(p), Some(b.nextId))]), Created(b.nextId))
            else r.0 == s && r.1 == Refused(CreatePurchase(b, p).error)
  {
    hide PlacePurchase;
  }

  /** Without a key the row is created if it can be, and no key and no receipt is stored. */
  lemma UnkeyedMeans(s: Shelf, draft: Draft)
    requires Proper(draft)
    ensures var b, r := s.pots.books, Submit(s, None, draft);
            var created := if draft.TransactionDraft? then CreateTransaction(b, draft.transaction) else CreatePurchase(b, draft.purchase);
            if created.Ok? then r == (s.(pots := s.pots.(books := created.value)), Created(b.nextId))
            else r.0 == s && r.1 == Refused(created.error)
  {
    hide ValidShape, ValidateAccounts, ApplyEffects, PlacePurchase;
    if draft.TransactionDraft? {
      SameAccounts(s.pots.books, draft.transaction);
    }
  }
}
