/** A transaction that backs a loan payment, a savings allocation or a yield reconciliation, together with the
    entries it wrote, survives every request except the one its manager takes it back with. */
module ManagedLaws {
  import opened Common
  import opened Ledger
  import opened LedgerLaws

  lemma SelectedOfOneMore(entries: seq<Entry>, e: Entry, s: Selection)
    ensures Selected(entries + [e], s) == Selected(entries, s) + (if s.Has(e) then [e] else [])
  {
    assert (entries + [e])[..|entries|] == entries;
  }

  lemma {:induction false} SelectedOfAppended(entries: seq<Entry>, more: seq<Entry>, s: Selection)
    requires forall e <- more :: !s.Has(e)
    ensures Selected(entries + more, s) == Selected(entries, s)
    decreases |more|
  {
    hide Selected, s.Has;
    if more == [] {
      assert entries + more == entries;
    } else {
      var init, last := more[..|more| - 1], more[|more| - 1];
      assert entries + more == (entries + init) + [last];
      SelectedOfOneMore(entries + init, last, s);
      SelectedOfAppended(entries, init, s);
    }
  }

  /** Dropping other rows' entries leaves a transaction's entries. */
  lemma {:induction false} SelectedOfOthers(entries: seq<Entry>, s: Selection, t: Id)
    requires t !in s.transactions
    ensures Selected(Others(entries, s), OneTransaction(t)) == Selected(entries, OneTransaction(t))
  {
    if entries != [] {
      var init, last := entries[..|entries| - 1], entries[|entries| - 1];
      SelectedOfOthers(init, s, t);
      assert init + [last] == entries;
      SelectedOfOneMore(init, last, OneTransaction(t));
      if s.Has(last) {
        assert !OneTransaction(t).Has(last) && Others(entries, s) == Others(init, s);
      } else {
        SelectedOfOneMore(Others(init, s), last, OneTransaction(t));
      }
    }
  }

  /** The managed transaction t is the same in both books, entries included. */
  ghost predicate Stays(b: Books, after: Books, t: Id) {
    && t in after.managers && t in b.managers && after.managers[t] == b.managers[t]
    && t in after.transactions && t in b.transactions && after.transactions[t] == b.transactions[t]
    && Selected(after.entries, OneTransaction(t)) == Selected(b.entries, OneTransaction(t))
  }

  lemma AppendedEntriesStay(b: Books, after: Books, more: seq<Entry>, t: Id)
    requires t in b.managers && t in b.transactions
    requires after == b.(accounts := after.accounts, entries := b.entries + more, nextId := after.nextId)
    requires forall e <- more :: e.source != OfTransaction(t)
    ensures Stays(b, after, t)
  {
    hide Selected;
    SelectedOfAppended(b.entries, more, OneTransaction(t));
  }

  lemma AccountRequestStays(b: Books, r: Request, t: Id)
    requires Consistent(b) && t in b.managers && Perform(b, r).Ok?
    requires r.NewAccount? || r.ChangeAccount? || r.StartTracking? || r.CountBalance? || r.AdjustBalance?
    ensures Stays(b, Perform(b, r).value, t)
  {
    hide Selected, AccountAgrees, Stays;
    var after := Perform(b, r).value;
    var more := after.entries[|b.entries|..];
    assert b.entries + more == after.entries;
    AppendedEntriesStay(b, after, more, t);
  }

  /** The entries of the effects of transaction id. */
  lemma EffectEntriesStay(b: Books, id: Id, x: Transaction, t: Id)
    requires Consistent(b) && t in b.managers && id != t && ValidShape(x) && AccountsOf(x) <= b.accounts.Keys
    ensures ApplyEffects(b, id, x).Ok? && Stays(b, ApplyEffects(b, id, x).value, t)
  {
    hide Selected, Agrees, Stays;
    EffectsKeep(b, id, x);
    var more := if x.affectsBalance then TrackedOnly(b.accounts, Deltas(id, x).value) else [];
    if x.affectsBalance {
      DeltasTouchItsAccounts(id, x);
      TrackedOnlyIsSome(b.accounts, Deltas(id, x).value);
    }
    AppendedEntriesStay(b, ApplyEffects(b, id, x).value, more, t);
  }

  lemma RecordedStays(b: Books, id: Id, x: Transaction, t: Id)
    requires Consistent(b) && t in b.managers && id != t && id < b.nextId && x.purchase.None? && Record(b, id, x).Ok?
    ensures Stays(b, Record(b, id, x).value, t)
  {
    hide Agrees, Linked, Selected, ApplyEffects;
    StoringKeeps(b, id, x);
    assert t in b.transactions by { ManagedIsStored(b, t); }
    EffectEntriesStay(b.(transactions := b.transactions[id := x]), id, x, t);
  }

  lemma ManagedIsStored(b: Books, t: Id)
    requires Linked(b) && t in b.managers
    ensures t in b.transactions && t < b.nextId && b.transactions[t].purchase.None?
  {
  }

  lemma RetractedStays(b: Books, s: Selection, t: Id)
    requires Consistent(b) && t in b.managers && t !in s.transactions
    ensures Retract(b, s).Ok? && Stays(b, Retract(b, s).value, t)
    ensures Retract(b, s).value == b.(accounts := Retract(b, s).value.accounts, entries := Others(b.entries, s))
    ensures Retract(b, s).value.accounts.Keys == b.accounts.Keys
  {
    hide Agrees, Selected, Linked;
    RetractKeeps(b, s);
    SelectedOfOthers(b.entries, s, t);
    ManagedIsStored(b, t);
  }

  lemma RemovedStays(b: Books, id: Id, t: Id)
    requires Consistent(b) && t in b.managers && id != t
    ensures Remove(b, id).Ok? && Stays(b, Remove(b, id).value, t)
  {
    hide Agrees, Selected, Linked, Retract;
    RetractedStays(b, OneTransaction(id), t);
  }

  lemma StaysTwice(b: Books, c: Books, d: Books, t: Id)
    requires Stays(b, c, t) && Stays(c, d, t)
    ensures Stays(b, d, t)
  {
  }

  lemma ChangedStays(b: Books, id: Id, p: TransactionPatch, t: Id)
    requires Consistent(b) && t in b.managers && UpdateTransaction(b, id, p).Ok?
    ensures Stays(b, UpdateTransaction(b, id, p).value, t)
  {
    hide Agrees, Linked, Selected, ApplyEffects, Retract, ValidShape, Patched;
    var updated := Patched(b.transactions[id], p);
    PatchedIsPlain(b, id, p);
    ManagedIsStored(b, t);
    if BalanceShaped(p) {
      RetractedStays(b, OneTransaction(id), t);
      RetractConsistent(b, OneTransaction(id));
      var retracted := Retract(b, OneTransaction(id)).value;
      StoringKeeps(retracted, id, updated);
      EffectEntriesStay(retracted.(transactions := retracted.transactions[id := updated]), id, updated, t);
    }
  }

  lemma PatchedIsPlain(b: Books, id: Id, p: TransactionPatch)
    requires Linked(b) && UpdateTransaction(b, id, p).Ok?
    ensures id in b.transactions && id !in b.managers && id < b.nextId
    ensures Patched(b.transactions[id], p).purchase.None?
  {
    hide ApplyEffects, Retract, ValidShape, ValidateAccounts;
  }

  lemma InsertedStays(b: Books, id: Id, p: PurchaseInput, t: Id)
    requires Linked(b) && t in b.managers && p.count > 0
    ensures Stays(b, InsertInstallments(b, id, p), t)
  {
    hide Selected, InstallmentRows, InstallmentRow;
    ManagedIsStored(b, t);
    RowsByNumber(id, p, b.nextId, p.count);
  }

  lemma PlacedStays(b: Books, id: Id, p: PurchaseInput, charge: bool, t: Id)
    requires Consistent(b) && t in b.managers && p.count > 0 && p.account in b.accounts && id < b.nextId
    ensures PlacePurchase(b, id, p, charge).Ok? && Stays(b, PlacePurchase(b, id, p, charge).value, t)
  {
    hide Agrees, Selected, InstallmentRows, InsertInstallments, Post;
    var listed := b.(purchases := b.purchases[id := PurchaseRow(p)]);
    ManagedIsStored(b, t);
    var charged := listed;
    if charge {
      ChargeKeeps(listed, id, p);
      charged := Post(listed, Entry(p.account, OfPurchase(id), -p.total)).value;
      ChargedStays(b, id, p, t);
    } else {
      ListedStays(b, id, p, t);
    }
    InsertedStays(charged, id, p, t);
    StaysTwice(b, charged, InsertInstallments(charged, id, p), t);
  }

  lemma ListedStays(b: Books, id: Id, p: PurchaseInput, t: Id)
    requires Linked(b) && t in b.managers && p.count > 0
    ensures Stays(b, b.(purchases := b.purchases[id := PurchaseRow(p)]), t)
  {
    hide Selected;
    ManagedIsStored(b, t);
  }

  lemma ChargedStays(b: Books, id: Id, p: PurchaseInput, t: Id)
    requires Consistent(b) && t in b.managers && p.count > 0 && p.account in b.accounts
    ensures var charged := Post(b.(purchases := b.purchases[id := PurchaseRow(p)]), Entry(p.account, OfPurchase(id), -p.total));
            charged.Ok? && Stays(b, charged.value, t)
  {
    hide Agrees, Selected;
    ManagedIsStored(b, t);
    var e := Entry(p.account, OfPurchase(id), -p.total);
    PostKeeps(b.(purchases := b.purchases[id := PurchaseRow(p)]), e);
    SelectedOfOneMore(b.entries, e, OneTransaction(t));
  }

  lemma ClearedStays(b: Books, id: Id, t: Id)
    requires Consistent(b) && t in b.managers
    ensures ClearPurchase(b, id).Ok? && Stays(b, ClearPurchase(b, id).value, t)
  {
    hide Agrees, Selected, Linked, Retract;
    ManagedIsStored(b, t);
    RetractedStays(b, PurchaseEntries(b, id), t);
  }

  lemma PurchaseIsListed(b: Books, id: Id)
    requires Linked(b) && id in b.purchases
    ensures id < b.nextId
  {
  }

  lemma PurchaseRequestStays(b: Books, r: Request, t: Id)
    requires Consistent(b) && t in b.managers && Perform(b, r).Ok?
    requires r.NewPurchase? || r.ChangePurchase? || r.DropPurchase?
    ensures Stays(b, Perform(b, r).value, t)
  {
    hide Agrees, Selected, Linked, PlacePurchase, ClearPurchase;
    match r
    case NewPurchase(p) =>
      BumpedIsConsistent(b);
      ManagedIsStored(b, t);
      PlacedStays(b.(nextId := b.nextId + 1), b.nextId, p, true, t);
    case ChangePurchase(id, p) =>
      ClearedStays(b, id, t);
      ClearPurchaseKeeps(b, id);
      assert id < b.nextId by { PurchaseIsListed(b, id); }
      var cleared := ClearPurchase(b, id).value;
      PlacedStays(cleared, id, p, HadPurchaseEntry(b, id), t);
      StaysTwice(b, cleared, Perform(b, r).value, t);
    case DropPurchase(id) =>
      ClearedStays(b, id, t);
  }

  lemma BumpedIsConsistent(b: Books)
    requires Consistent(b)
    ensures Consistent(b.(nextId := b.nextId + 1))
  {
    hide AccountAgrees;
  }

  lemma TransactionRequestStays(b: Books, r: Request, t: Id)
    requires Consistent(b) && t in b.managers && Perform(b, r).Ok? && r != DropManaged(t)
    requires r.NewTransaction? || r.ChangeTransaction? || r.DropTransaction? || r.NewManaged? || r.DropManaged?
    ensures Stays(b, Perform(b, r).value, t)
  {
    hide Agrees, Linked, Selected, Record, Remove, UpdateTransaction;
    ManagedIsStored(b, t);
    BumpedIsConsistent(b);
    match r
    case NewTransaction(x) =>
      RecordedStays(b.(nextId := b.nextId + 1), b.nextId, x, t);
    case NewManaged(x, m) =>
      RecordedStays(b.(nextId := b.nextId + 1), b.nextId, x, t);
    case ChangeTransaction(id, p) =>
      ChangedStays(b, id, p, t);
    case DropTransaction(id) =>
      RemovedStays(b, id, t);
    case DropManaged(id) =>
      RemovedStays(b, id, t);
  }

  /** Whatever else happens on the books, a managed transaction keeps its row and its entries until its manager
      takes it back. */
  lemma ManagedStays(b: Books, r: Request, t: Id)
    requires Consistent(b) && t in b.managers && Perform(b, r).Ok? && r != DropManaged(t)
    ensures Stays(b, Perform(b, r).value, t)
  {
    hide Consistent, Perform, Stays;
    match r {
      case NewAccount(_) | ChangeAccount(_, _) | StartTracking(_, _) | CountBalance(_, _) | AdjustBalance(_, _) =>
        AccountRequestStays(b, r, t);
      case NewPurchase(_) | ChangePurchase(_, _) | DropPurchase(_) =>
        PurchaseRequestStays(b, r, t);
      case _ =>
        TransactionRequestStays(b, r, t);
    }
  }

  // ---------------------------------------------------------------- accounts persist

  /** No request removes an account, changes its kind or stops tracking it. */
  predicate Persists(before: map<Id, Account>, after: map<Id, Account>) {
    forall id <- before :: id in after && after[id].kind == before[id].kind && (before[id].tracking ==> after[id].tracking)
  }

  lemma SameAccountsPersist(before: map<Id, Account>, after: map<Id, Account>)
    requires after.Keys == before.Keys && forall id <- before :: SameAccount(after[id], before[id])
    ensures Persists(before, after)
  {
  }

  lemma RetractPersists(b: Books, s: Selection)
    requires Consistent(b)
    ensures Retract(b, s).Ok? && Persists(b.accounts, Retract(b, s).value.accounts)
    ensures Retract(b, s).value == b.(accounts := Retract(b, s).value.accounts, entries := Others(b.entries, s))
  {
    hide AccountAgrees, Selected, Others, Sum, Linked;
    RetractKeeps(b, s);
  }

  lemma EffectsPersist(b: Books, id: Id, x: Transaction)
    requires Consistent(b) && ValidShape(x) && AccountsOf(x) <= b.accounts.Keys
    ensures ApplyEffects(b, id, x).Ok? && Persists(b.accounts, ApplyEffects(b, id, x).value.accounts)
  {
    hide Agrees, Linked;
    EffectsKeep(b, id, x);
    SameAccountsPersist(b.accounts, ApplyEffects(b, id, x).value.accounts);
  }

  lemma PersistsTwice(a: map<Id, Account>, b: map<Id, Account>, c: map<Id, Account>)
    requires Persists(a, b) && Persists(b, c)
    ensures Persists(a, c)
  {
  }

  lemma RecordPersists(b: Books, id: Id, x: Transaction)
    requires Consistent(b) && id < b.nextId && x.purchase.None? && Record(b, id, x).Ok?
    ensures Persists(b.accounts, Record(b, id, x).value.accounts)
  {
    hide Agrees, Linked, ApplyEffects, Persists;
    StoringKeeps(b, id, x);
    EffectsPersist(b.(transactions := b.transactions[id := x]), id, x);
  }

  lemma UpdatePersists(b: Books, id: Id, p: TransactionPatch)
    requires Consistent(b) && UpdateTransaction(b, id, p).Ok?
    ensures Persists(b.accounts, UpdateTransaction(b, id, p).value.accounts)
  {
    hide Agrees, Linked, ApplyEffects, Retract, ValidShape, Patched;
    PatchedIsPlain(b, id, p);
    if BalanceShaped(p) {
      var updated := Patched(b.transactions[id], p);
      RetractPersists(b, OneTransaction(id));
      RetractConsistent(b, OneTransaction(id));
      var retracted := Retract(b, OneTransaction(id)).value;
      StoringKeeps(retracted, id, updated);
      EffectsPersist(retracted.(transactions := retracted.transactions[id := updated]), id, updated);
      PersistsTwice(b.accounts, retracted.accounts, UpdateTransaction(b, id, p).value.accounts);
    }
  }

  lemma PlacePersists(b: Books, id: Id, p: PurchaseInput, charge: bool)
    requires Consistent(b) && p.count > 0 && p.account in b.accounts
    ensures PlacePurchase(b, id, p, charge).Ok? && Persists(b.accounts, PlacePurchase(b, id, p, charge).value.accounts)
  {
    hide Agrees, Linked, InstallmentRows;
    if charge {
      var listed := b.(purchases := b.purchases[id := PurchaseRow(p)]);
      PostKeeps(listed, Entry(p.account, OfPurchase(id), -p.total));
      SameAccountsPersist(b.accounts, Post(listed, Entry(p.account, OfPurchase(id), -p.total)).value.accounts);
    }
  }

  lemma PurchaseRequestPersists(b: Books, r: Request)
    requires Consistent(b) && Perform(b, r).Ok? && (r.NewPurchase? || r.ChangePurchase? || r.DropPurchase?)
    ensures Persists(b.accounts, Perform(b, r).value.accounts)
  {
    hide Agrees, Linked, PlacePurchase, Retract, Persists;
    match r
    case NewPurchase(p) =>
      BumpedIsConsistent(b);
      PlacePersists(b.(nextId := b.nextId + 1), b.nextId, p, true);
    case ChangePurchase(id, p) =>
      RetractPersists(b, PurchaseEntries(b, id));
      ClearPurchaseKeeps(b, id);
      var cleared := ClearPurchase(b, id).value;
      PlacePersists(cleared, id, p, HadPurchaseEntry(b, id));
      PersistsTwice(b.accounts, cleared.accounts, Perform(b, r).value.accounts);
    case DropPurchase(id) =>
      RetractPersists(b, PurchaseEntries(b, id));
  }

  lemma TransactionRequestPersists(b: Books, r: Request)
    requires Consistent(b) && Perform(b, r).Ok?
    requires r.NewTransaction? || r.ChangeTransaction? || r.DropTransaction? || r.NewManaged? || r.DropManaged?
    ensures Persists(b.accounts, Perform(b, r).value.accounts)
  {
    hide Agrees, Linked, Record, Retract, UpdateTransaction, Persists;
    BumpedIsConsistent(b);
    match r
    case NewTransaction(x) => RecordPersists(b.(nextId := b.nextId + 1), b.nextId, x);
    case NewManaged(x, m) => RecordPersists(b.(nextId := b.nextId + 1), b.nextId, x);
    case ChangeTransaction(id, p) => UpdatePersists(b, id, p);
    case DropTransaction(id) => RetractPersists(b, OneTransaction(id));
    case DropManaged(id) => RetractPersists(b, OneTransaction(id));
  }

  lemma AccountRequestPersists(b: Books, r: Request)
    requires Consistent(b) && Perform(b, r).Ok?
    requires r.NewAccount? || r.ChangeAccount? || r.StartTracking? || r.CountBalance? || r.AdjustBalance?
    ensures Persists(b.accounts, Perform(b, r).value.accounts)
  {
    hide AccountAgrees;
  }

  /** In every run accounts persist: none disappears, changes kind or stops being tracked. */
  lemma AccountsPersist(b: Books, r: Request)
    requires Consistent(b) && Perform(b, r).Ok?
    ensures Persists(b.accounts, Perform(b, r).value.accounts)
  {
    hide Consistent, Perform, Persists;
    match r {
      case NewAccount(_) | ChangeAccount(_, _) | StartTracking(_, _) | CountBalance(_, _) | AdjustBalance(_, _) =>
        AccountRequestPersists(b, r);
      case NewPurchase(_) | ChangePurchase(_, _) | DropPurchase(_) =>
        PurchaseRequestPersists(b, r);
      case _ =>
        TransactionRequestPersists(b, r);
    }
  }

  // ---------------------------------------------------------------- taking back a single entry

  lemma LoweredByOne(a: Account, e: Entry, id: Id)
    ensures Lowered(a, Sum([e], id)) == (if id == e.account && a.Funds().Some? then a.WithFunds(a.Funds().value - e.delta) else a)
  {
    SumOfAppended([], e, id);
    assert [] + [e] == [e];
  }

  /** Removing a transaction that wrote one entry gives the account of that entry back what it took, and changes no
      other balance and no other row. */
  lemma RemoveSingle(b: Books, t: Id, e: Entry)
    requires Consistent(b) && Selected(b.entries, OneTransaction(t)) == [e]
    ensures e.account in b.accounts && b.accounts[e.account].Funds().Some?
    ensures var a := b.accounts[e.account];
            Remove(b, t) == Ok(b.(accounts := b.accounts[e.account := a.WithFunds(a.Funds().value - e.delta)],
                                  entries := Others(b.entries, OneTransaction(t)),
                                  transactions := b.transactions - {t}, managers := b.managers - {t}))
  {
    hide Linked, Selected, Others, Retract, Lowered, Sum, Agrees;
    EntryAccount(b, t, e);
    RetractKeeps(b, OneTransaction(t));
    var r := Retract(b, OneTransaction(t)).value;
    forall id | id in b.accounts
      ensures r.accounts[id] == (if id == e.account then b.accounts[e.account].WithFunds(b.accounts[e.account].Funds().value - e.delta) else b.accounts[id])
    {
      LoweredByOne(b.accounts[id], e, id);
    }
    assert r.accounts == b.accounts[e.account := b.accounts[e.account].WithFunds(b.accounts[e.account].Funds().value - e.delta)];
  }

  lemma EntryAccount(b: Books, t: Id, e: Entry)
    requires Consistent(b) && Selected(b.entries, OneTransaction(t)) == [e]
    ensures e.account in b.accounts && b.accounts[e.account].Funds().Some? && b.accounts[e.account].tracking
  {
    hide Selected, Linked, Sum;
    SelectionIsPart(b.entries, OneTransaction(t));
    assert e in Selected(b.entries, OneTransaction(t));
    assert e in b.entries;
    assert AccountAgrees(b.accounts[e.account], b.entries, e.account);
  }
}
