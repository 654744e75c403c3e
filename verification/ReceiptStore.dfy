/** Keyed creates over the tables: a receipt row is claimed first and given its resource id last. */
module ReceiptStore {
  import opened Common
  import opened Ledger
  import opened LedgerLaws
  import opened LedgerStore
  import opened Receipts
  import opened SavedMoney
  import opened Savings
  import opened SavingsLaws
  import opened SavingsStore
  import opened YieldLaws

  class Desk {
    const jars: Jars
    var purchaseKeys: map<string, Id>
    var receipts: map<Slot, Receipt>

    function Tables(): Shelf
      reads this, jars, jars.ledger
    {
      Shelf(jars.Tables(), purchaseKeys, receipts)
    }

    ghost predicate Valid()
      reads this, jars, jars.ledger
    {
      jars.Valid() && Orderly(Tables())
    }

    constructor (jars: Jars)
      requires jars.Valid() && RowsLinked(jars.Tables()) && jars.keys == map[]
      ensures this.jars == jars && Valid() && Tables() == Shelf(jars.Tables(), map[], map[])
    {
      this.jars, purchaseKeys, receipts := jars, map[], map[];
    }

    /** What the database does when a request returns an error. */
    method Rollback(saved: Shelf)
      modifies this, jars, jars.ledger
      ensures Tables() == saved
    {
      jars.Rollback(saved.pots);
      purchaseKeys, receipts := saved.purchaseKeys, saved.receipts;
    }

    /** Claim the receipt of a request, or answer from the one there is. */
    method BeginIdempotentCreate(slot: Slot, draft: Draft) returns (answered: Option<Reply>)
      modifies this`receipts
      ensures answered.None? <==> slot !in old(receipts)
      ensures answered.None? ==> receipts == old(receipts)[slot := Receipt(draft, None)]
      ensures answered.Some? ==> receipts == old(receipts) && answered.value == Replay(old(Tables()), slot, draft)
    {
      if slot !in receipts {
        receipts := receipts[slot := Receipt(draft, None)];
        return None;
      }
      var existing := receipts[slot];
      if existing.draft != draft {
        return Some(Refused(IdempotencyConflict));
      }
      if existing.resourceId.None? {
        return Some(Refused(BadRequest));
      }
      var id := existing.resourceId.value;
      if Alive(jars.ledger.Tables(), slot.resource, id) {
        return Some(Replayed(id));
      }
      answered := Some(Reply.ReplayDeleted(id));
    }

    /** Set the resource id of a claim, if there is one. */
    method CompleteIdempotentCreate(slot: Slot, id: Id) returns (r: Result<()>)
      modifies this`receipts
      ensures r.Ok? <==> slot in old(receipts) && old(receipts)[slot].resourceId.None?
      ensures receipts == if r.Ok? then old(receipts)[slot := old(receipts)[slot].(resourceId := Some(id))] else old(receipts)
    {
      if slot !in receipts || receipts[slot].resourceId.Some? {
        return Err(BadRequest);
      }
      receipts := receipts[slot := receipts[slot].(resourceId := Some(id))];
      r := Ok(());
    }

    /** Insert the row, or find the stored row that has its key. */
    method InsertRow(key: Option<string>, draft: Draft) returns (r: Result<Id>)
      requires jars.Valid()
      modifies this`purchaseKeys, jars, jars.ledger
      ensures jars.Valid()
      ensures var inserted := InsertKeyed(old(Tables()), key, draft);
              && r == Answer(inserted, if inserted.Ok? then inserted.value.1 else 0)
              && Tables() == (if inserted.Ok? then inserted.value.0 else old(Tables()))
    {
      match draft {
        case TransactionDraft(t) => r := jars.CreateTransaction(key, t);
        case PurchaseDraft(p) => r := InsertPurchaseRow(key, p);
      }
    }

    method InsertPurchaseRow(key: Option<string>, p: PurchaseInput) returns (r: Result<Id>)
      requires jars.Valid()
      modifies this`purchaseKeys, jars.ledger
      ensures jars.Valid()
      ensures var inserted := InsertPurchase(old(Tables()), key, p);
              && r == Answer(inserted, if inserted.Ok? then inserted.value.1 else 0)
              && Tables() == (if inserted.Ok? then inserted.value.0 else old(Tables()))
    {
      hide PotsSound, Consistent, Ledger.CreatePurchase;
      ghost var before := jars.Tables();
      SoundBooks(before);
      if key.Some? && key.value in purchaseKeys && purchaseKeys[key.value] in jars.ledger.purchases {
        var id := purchaseKeys[key.value];
        if SamePurchase(jars.ledger.purchases[id], p) {
          return Ok(id);
        }
        return Err(IdempotencyConflict);
      }
      r := jars.ledger.CreatePurchase(p);
      if r.Ok? {
        PurchaseKeeps(before, p);
        if key.Some? {
          purchaseKeys := purchaseKeys[key.value := r.value];
        }
      }
    }

    /** The create of a request whose slot is claimed; the caller rolls back after an error. */
    method CreateClaimed(key: Option<string>, draft: Draft) returns (r: Result<Id>)
      requires jars.Valid()
      requires key.Some? ==> SlotOf(key.value, draft) in receipts && receipts[SlotOf(key.value, draft)] == Receipt(draft, None)
      modifies this, jars, jars.ledger
      ensures jars.Valid()
      ensures var admitted, inserted := Admit(old(jars.ledger.Tables()), draft), InsertKeyed(old(Tables()), key, draft);
              if admitted.Err? then r == Err(admitted.error)
              else if inserted.Err? then r == Err(inserted.error)
              else
                && r == Ok(inserted.value.1)
                && var all := if key.None? then old(receipts)
                              else old(receipts)[SlotOf(key.value, draft) := Receipt(draft, Some(inserted.value.1))];
                   Tables() == inserted.value.0.(receipts := all)
    {
      hide Consistent, PotsSound, InsertKeyed, Admit;
      ClaimIsAside(Tables(), receipts, key, draft);
      var admitted := Admit(jars.ledger.Tables(), draft);
      if admitted.Err? {
        return Err(admitted.error);
      }
      r := InsertRow(key, draft);
      if r.Ok? && key.Some? {
        var completed := CompleteIdempotentCreate(SlotOf(key.value, draft), r.value);
        // The slot is claimed in the same transaction.
        assert completed.Ok?;
      }
    }

    method Create(key: Option<string>, draft: Draft) returns (reply: Reply)
      requires Valid()
      modifies this, jars, jars.ledger
      ensures Valid()
      ensures (Tables(), reply) == Submit(old(Tables()), key, draft)
    {
      hide Consistent, PotsSound, InsertKeyed, Admit, Orderly, ValidShape, RowsLinked;
      ghost var before := Tables();
      ServeKeeps(before, Order.Create(key, draft));
      OrderlyParts(Submit(before, key, draft).0);
      if draft.TransactionDraft? && draft.transaction.purchase.Some? {
        return Refused(InstallmentManaged);
      }
      if draft.TransactionDraft? && !ValidShape(draft.transaction) {
        return Refused(InvalidTransactionShape);
      }
      var saved := Tables();
      if key.Some? {
        var answered := BeginIdempotentCreate(SlotOf(key.value, draft), draft);
        if answered.Some? {
          return answered.value;
        }
      }
      ghost var claimed := receipts;
      ClaimIsAside(before, claimed, key, draft);
      var created := CreateClaimed(key, draft);
      if created.Err? {
        Rollback(saved);
        return Refused(created.error);
      }
      if key.Some? {
        ghost var receipt := Receipt(draft, Some(created.value));
        assert claimed[SlotOf(key.value, draft) := receipt] == before.receipts[SlotOf(key.value, draft) := receipt];
      }
      reply := Created(created.value);
    }
  }

  lemma OrderlyParts(s: Shelf)
    requires Orderly(s)
    ensures PotsSound(s.pots)
  {
  }

  /** Inserting neither reads nor writes receipts. */
  lemma ClaimIsAside(s: Shelf, receipts: map<Slot, Receipt>, key: Option<string>, draft: Draft)
    ensures var plain, claimed := InsertKeyed(s, key, draft), InsertKeyed(s.(receipts := receipts), key, draft);
            && (plain.Ok? <==> claimed.Ok?)
            && (plain.Err? ==> claimed.error == plain.error)
            && (plain.Ok? ==> plain.value.0.receipts == s.receipts && claimed.value == (plain.value.0.(receipts := receipts), plain.value.1))
  {
    hide CreateMaybeKeyed, CreatePurchase;
  }
}
