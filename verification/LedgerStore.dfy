/** The repositories of accounts, transactions and deferred purchases over one user's tables, step by step. Each
    method ends in the state its specification in Ledger gives, or in the state it started from. */
module LedgerStore {
  import opened Common
  import opened Ledger
  import opened LedgerLaws

  class Store {
    var accounts: map<Id, Account>
    var transactions: map<Id, Transaction>
    var entries: seq<Entry>
    var purchases: map<Id, Purchase>
    var statements: map<Id, Id>
    var managers: map<Id, Manager>
    var nextId: Id

    /** All the tables, as one value. */
    function Tables(): Books
      reads this
    {
      Books(accounts, transactions, entries, purchases, statements, managers, nextId)
    }

    ghost predicate Valid()
      reads this
    {
      Consistent(Tables())
    }

    constructor ()
      ensures Valid() && Tables() == EMPTY_BOOKS
    {
      accounts, transactions, entries, purchases := map[], map[], [], map[];
      statements, managers, nextId := map[], map[], 0;
    }

    /** What the database does when a request returns an error. */
    method Rollback(saved: Books)
      modifies this
      ensures Tables() == saved
    {
      accounts, transactions, entries, purchases := saved.accounts, saved.transactions, saved.entries, saved.purchases;
      statements, managers, nextId := saved.statements, saved.managers, saved.nextId;
    }

    // -------------------------------------------------------------- steps inside a request

    method UpdateMaterializedBalance(id: Id, delta: int) returns (r: Result<()>)
      modifies this`accounts
      ensures r == Answer(MoveFunds(old(accounts), id, delta), ())
      ensures r.Ok? ==> accounts == MoveFunds(old(accounts), id, delta).value
    {
      if id !in accounts {
        return Err(NotFound);
      }
      var account := accounts[id];
      match account.kind {
        case Debit =>
          if account.balance.None? {
            return Err(InvalidAccountShape);
          }
          accounts := accounts[id := account.(balance := Some(account.balance.value + delta))];
        case Credit =>
          if account.availableCredit.None? {
            return Err(InvalidAccountShape);
          }
          accounts := accounts[id := account.(availableCredit := Some(account.availableCredit.value + delta))];
      }
      r := Ok(());
    }

    /** Move every tracked account the transaction touches and write its entries. */
    method ApplyTransactionEffects(id: Id, t: Transaction) returns (r: Result<()>)
      modifies this`accounts, this`entries
      ensures r == Answer(ApplyEffects(old(Tables()), id, t), ())
      ensures r.Ok? ==> Tables() == ApplyEffects(old(Tables()), id, t).value
    {
      if !t.affectsBalance {
        return Ok(());
      }
      var deltas :- Deltas(id, t);
      assert deltas[0..] == deltas;
      for i := 0 to |deltas|
        invariant PostAll(old(Tables()), deltas) == PostAll(Tables(), deltas[i..])
        invariant Tables() == old(Tables()).(accounts := accounts, entries := entries)
      {
        var delta := deltas[i];
        assert deltas[i..][1..] == deltas[i + 1..];
        if delta.account !in accounts {
          return Err(NotFound);
        }
        if accounts[delta.account].tracking {
          var moved := UpdateMaterializedBalance(delta.account, delta.delta);
          if moved.Err? {
            return Err(moved.error);
          }
          entries := entries + [delta];
        }
      }
      r := Ok(());
    }

    /** Take back what entries moved. */
    method ReverseBalanceEntries(es: seq<Entry>) returns (r: Result<()>)
      modifies this`accounts
      ensures r == Answer(Reverse(old(accounts), es), ())
      ensures r.Ok? ==> accounts == Reverse(old(accounts), es).value
    {
      assert es[0..] == es;
      for i := 0 to |es|
        invariant Reverse(old(accounts), es) == Reverse(accounts, es[i..])
      {
        assert es[i..][1..] == es[i + 1..];
        if es[i].account !in accounts {
          return Err(InvalidAccountShape);
        }
        var moved := UpdateMaterializedBalance(es[i].account, -es[i].delta);
        if moved.Err? {
          return Err(moved.error);
        }
      }
      r := Ok(());
    }

    // -------------------------------------------------------------- transactions

    method CreateTransaction(t: Transaction) returns (r: Result<Id>)
      requires Valid()
      modifies this
      ensures Valid()
      ensures Tables() == Committed(old(Tables()), Ledger.CreateTransaction(old(Tables()), t))
      ensures r == Answer(Ledger.CreateTransaction(old(Tables()), t), old(nextId))
    {
      hide Consistent, ApplyEffects;
      ghost var before := Tables();
      if Ledger.CreateTransaction(before, t).Ok? {
        PerformKeeps(before, NewTransaction(t));
      }
      if t.purchase.Some? {
        return Err(InstallmentManaged);
      }
      if !ValidShape(t) {
        return Err(InvalidTransactionShape);
      }
      var saved := Tables();
      var validated := ValidateAccounts(saved, t);
      if validated.Err? {
        return Err(validated.error);
      }
      var id := nextId;
      transactions, nextId := transactions[id := t], nextId + 1;
      assert ValidateAccounts(before.(nextId := before.nextId + 1), t) == validated;
      var applied := ApplyTransactionEffects(id, t);
      if applied.Err? {
        Rollback(saved);
        return Err(applied.error);
      }
      r := Ok(id);
    }

    method UpdateTransaction(id: Id, patch: TransactionPatch) returns (r: Result<()>)
      requires Valid()
      modifies this
      ensures Valid()
      ensures Tables() == Committed(old(Tables()), Ledger.UpdateTransaction(old(Tables()), id, patch))
      ensures r == Answer(Ledger.UpdateTransaction(old(Tables()), id, patch), ())
    {
      hide Consistent, ApplyEffects, Reverse, Patched, ValidShape, ValidateAccounts;
      ghost var before := Tables();
      if Ledger.UpdateTransaction(before, id, patch).Ok? {
        PerformKeeps(before, ChangeTransaction(id, patch));
      }
      if patch.purchase.Some? {
        return Err(InstallmentManaged);
      }
      var existing :- Unmanaged(Tables(), id);
      var updated := Patched(existing, patch);
      if !ValidShape(updated) {
        return Err(InvalidTransactionShape);
      }
      var saved := Tables();
      if BalanceShaped(patch) {
        if !(AccountsOf(existing) <= accounts.Keys) {
          return Err(NotFound);
        }
      }
      if BalanceShaped(patch) || updated.statement.Some? {
        var validated := ValidateAccounts(saved, updated);
        if validated.Err? {
          return Err(validated.error);
        }
      }
      if BalanceShaped(patch) {
        var reversed := ReverseBalanceEntries(Selected(entries, OneTransaction(id)));
        if reversed.Err? {
          Rollback(saved);
          return Err(reversed.error);
        }
        entries := Others(entries, OneTransaction(id));
      }
      transactions := transactions[id := updated];
      if !BalanceShaped(patch) {
        return Ok(());
      }
      var applied := ApplyTransactionEffects(id, updated);
      if applied.Err? {
        Rollback(saved);
        return Err(applied.error);
      }
      r := Ok(());
    }

    /** Reverse a transaction's entries, then delete them and its row. */
    method RemoveTransaction(id: Id) returns (r: Result<()>)
      modifies this
      ensures r == Answer(Remove(old(Tables()), id), ())
      ensures r.Ok? ==> Tables() == Remove(old(Tables()), id).value
    {
      hide Reverse;
      var reversed := ReverseBalanceEntries(Selected(entries, OneTransaction(id)));
      if reversed.Err? {
        return Err(reversed.error);
      }
      entries, transactions := Others(entries, OneTransaction(id)), transactions - {id};
      managers := managers - {id};
      r := Ok(());
    }

    method DeleteTransaction(id: Id) returns (r: Result<()>)
      requires Valid()
      modifies this
      ensures Valid()
      ensures Tables() == Committed(old(Tables()), Ledger.DeleteTransaction(old(Tables()), id))
      ensures r == Answer(Ledger.DeleteTransaction(old(Tables()), id), ())
    {
      hide Consistent, Remove;
      ghost var before := Tables();
      if Ledger.DeleteTransaction(before, id).Ok? {
        PerformKeeps(before, DropTransaction(id));
      }
      var existing :- Unmanaged(Tables(), id);
      if !(AccountsOf(existing) <= accounts.Keys) {
        return Err(NotFound);
      }
      var saved := Tables();
      var removed := RemoveTransaction(id);
      if removed.Err? {
        Rollback(saved);
        return Err(removed.error);
      }
      r := Ok(());
    }

    // -------------------------------------------------------------- accounts

    method CreateAccount(a: Account) returns (r: Result<Id>)
      requires Valid()
      modifies this
      ensures Valid()
      ensures Tables() == Committed(old(Tables()), Ledger.CreateAccount(old(Tables()), a))
      ensures r == Answer(Ledger.CreateAccount(old(Tables()), a), old(nextId))
    {
      hide Consistent;
      ghost var before := Tables();
      var stored := a.(active := true, trackedFrom := if a.creditLimit.Some? then a.creditLimit.value else 0);
      if !stored.WellShaped() {
        return Err(InvalidAccountShape);
      }
      var id := nextId;
      accounts, nextId := accounts[id := stored], nextId + 1;
      if a.tracking {
        entries := entries + [Entry(id, Opening, stored.Funds().value)];
      }
      PerformKeeps(before, NewAccount(a));
      r := Ok(id);
    }

    method UpdateAccount(id: Id, patch: AccountPatch) returns (r: Result<()>)
      requires Valid()
      modifies this
      ensures Valid()
      ensures Tables() == Committed(old(Tables()), Ledger.UpdateAccount(old(Tables()), id, patch))
      ensures r == Answer(Ledger.UpdateAccount(old(Tables()), id, patch), ())
    {
      hide Consistent;
      ghost var before := Tables();
      if Ledger.UpdateAccount(before, id, patch).Ok? {
        PerformKeeps(before, Request.ChangeAccount(id, patch));
      }
      if id !in accounts {
        return Err(NotFound);
      }
      var a := accounts[id];
      var available, availableSet := None, patch.availableCredit.Some?;
      if availableSet {
        available := patch.availableCredit.value;
      }
      if a.tracking {
        if a.kind.Debit? && patch.balance.Some? {
          return Err(DirectBalancePatchForbidden);
        }
        if a.kind.Credit? && patch.availableCredit.Some? {
          return Err(DirectBalancePatchForbidden);
        }
        if a.kind.Credit? && patch.creditLimit.Some? {
          if patch.creditLimit.value.None? || a.creditLimit.None? || a.availableCredit.None? {
            return Err(InvalidAccountShape);
          }
          if a.creditLimit.value < 0 || patch.creditLimit.value.value < 0 {
            return Err(InvalidAccountShape);
          }
          available, availableSet := Some(a.availableCredit.value + (patch.creditLimit.value.value - a.creditLimit.value)), true;
        }
      }
      if patch.balance.Some? {
        a := a.(balance := patch.balance.value);
      }
      if patch.creditLimit.Some? {
        a := a.(creditLimit := patch.creditLimit.value);
      }
      if availableSet {
        a := a.(availableCredit := available);
      }
      if patch.active.Some? {
        a := a.(active := patch.active.value);
      }
      if !a.WellShaped() {
        return Err(InvalidAccountShape);
      }
      accounts := accounts[id := a];
      r := Ok(());
    }

    method EnableBalanceTracking(id: Id, amount: int) returns (r: Result<()>)
      requires Valid()
      modifies this
      ensures Valid()
      ensures Tables() == Committed(old(Tables()), EnableTracking(old(Tables()), id, amount))
      ensures r == Answer(EnableTracking(old(Tables()), id, amount), ())
    {
      hide Consistent;
      ghost var before := Tables();
      if EnableTracking(before, id, amount).Ok? {
        PerformKeeps(before, StartTracking(id, amount));
      }
      if id !in accounts {
        return Err(NotFound);
      }
      var a := accounts[id];
      if a.tracking {
        return Err(TrackingAlreadyEnabled);
      }
      match a.kind {
        case Debit =>
          a := a.(balance := Some(amount), tracking := true, trackedFrom := 0);
        case Credit =>
          if a.creditLimit.None? {
            return Err(InvalidAccountShape);
          }
          a := a.(availableCredit := Some(amount), tracking := true, trackedFrom := a.creditLimit.value);
      }
      accounts, entries := accounts[id := a], entries + [Entry(id, Opening, amount)];
      r := Ok(());
    }

    method ReconcileBalance(id: Id, amount: int) returns (r: Result<()>)
      requires Valid()
      modifies this
      ensures Valid()
      ensures Tables() == Committed(old(Tables()), Ledger.ReconcileBalance(old(Tables()), id, amount))
      ensures r == Answer(Ledger.ReconcileBalance(old(Tables()), id, amount), ())
    {
      hide Consistent;
      ghost var before := Tables();
      if Ledger.ReconcileBalance(before, id, amount).Ok? {
        PerformKeeps(before, CountBalance(id, amount));
      }
      if id !in accounts {
        return Err(NotFound);
      }
      var a := accounts[id];
      if !a.tracking {
        return Err(TrackingNotEnabled);
      }
      if a.kind.Debit? && a.balance.None? {
        return Err(InvalidAccountShape);
      }
      if a.kind.Credit? && (a.creditLimit.None? || a.availableCredit.None?) {
        return Err(InvalidAccountShape);
      }
      var delta := amount - a.Funds().value;
      if delta == 0 {
        return Ok(());
      }
      accounts, entries := accounts[id := a.WithFunds(amount)], entries + [Entry(id, Reconciliation, delta)];
      r := Ok(());
    }

    // -------------------------------------------------------------- deferred purchases

    /** `applyMSIPurchaseBalance` and the rows around it. */
    method WritePurchase(id: Id, p: PurchaseInput, charge: bool) returns (r: Result<()>)
      requires p.count > 0
      modifies this
      ensures r == Answer(PlacePurchase(old(Tables()), id, p, charge), ())
      ensures r.Ok? ==> Tables() == PlacePurchase(old(Tables()), id, p, charge).value
    {
      hide InstallmentRows;
      purchases := purchases[id := PurchaseRow(p)];
      if charge {
        if p.account !in accounts {
          return Err(NotFound);
        }
        if accounts[p.account].tracking {
          var moved := UpdateMaterializedBalance(p.account, -p.total);
          if moved.Err? {
            return Err(moved.error);
          }
          entries := entries + [Entry(p.account, OfPurchase(id), -p.total)];
        }
      }
      transactions := transactions + InstallmentRows(id, p, nextId, p.count);
      nextId := nextId + p.count;
      r := Ok(());
    }

    method CreatePurchase(p: PurchaseInput) returns (r: Result<Id>)
      requires Valid()
      modifies this
      ensures Valid()
      ensures Tables() == Committed(old(Tables()), Ledger.CreatePurchase(old(Tables()), p))
      ensures r == Answer(Ledger.CreatePurchase(old(Tables()), p), old(nextId))
    {
      hide Consistent, PlacePurchase;
      ghost var before := Tables();
      if Ledger.CreatePurchase(before, p).Ok? {
        PerformKeeps(before, NewPurchase(p));
      }
      if !ValidPurchase(p) {
        return Err(BadRequest);
      }
      if p.account !in accounts {
        return Err(NotFound);
      }
      if !accounts[p.account].kind.Credit? {
        return Err(RequiresCreditAccount);
      }
      if !accounts[p.account].tracking {
        return Err(TrackingNotEnabled);
      }
      var saved, id := Tables(), nextId;
      nextId := nextId + 1;
      var written := WritePurchase(id, p, true);
      if written.Err? {
        Rollback(saved);
        return Err(written.error);
      }
      r := Ok(id);
    }

    /** Reverse every entry of a purchase, then delete its entries and installments. */
    method ClearPurchase(id: Id) returns (r: Result<()>)
      modifies this
      ensures r == Answer(Ledger.ClearPurchase(old(Tables()), id), ())
      ensures r.Ok? ==> Tables() == Ledger.ClearPurchase(old(Tables()), id).value
    {
      var installments := InstallmentIds(Tables(), id);
      var related := PurchaseEntries(Tables(), id);
      var reversed := ReverseBalanceEntries(Selected(entries, related));
      if reversed.Err? {
        return Err(reversed.error);
      }
      entries, transactions := Others(entries, related), transactions - installments;
      r := Ok(());
    }

    method UpdatePurchase(id: Id, p: PurchaseInput) returns (r: Result<()>)
      requires Valid()
      modifies this
      ensures Valid()
      ensures Tables() == Committed(old(Tables()), Ledger.UpdatePurchase(old(Tables()), id, p))
      ensures r == Answer(Ledger.UpdatePurchase(old(Tables()), id, p), ())
    {
      hide Consistent, PlacePurchase, Ledger.ClearPurchase, HadPurchaseEntry;
      ghost var before := Tables();
      if Ledger.UpdatePurchase(before, id, p).Ok? {
        PerformKeeps(before, ChangePurchase(id, p));
      }
      if !ValidPurchase(p) {
        return Err(BadRequest);
      }
      if id !in purchases {
        return Err(NotFound);
      }
      var existing, charged := purchases[id], HadPurchaseEntry(Tables(), id);
      if existing.paid > 0 {
        return Err(PurchaseHasPaidInstallments);
      }
      if existing.account !in accounts || p.account !in accounts {
        return Err(NotFound);
      }
      if !accounts[p.account].kind.Credit? {
        return Err(RequiresCreditAccount);
      }
      if charged && !accounts[p.account].tracking {
        return Err(TrackingNotEnabled);
      }
      if !charged && (existing.account != p.account || existing.total != p.total || existing.count != p.count || existing.start != p.start) {
        return Err(LegacyBalanceChange);
      }
      var saved := Tables();
      var cleared := ClearPurchase(id);
      if cleared.Err? {
        Rollback(saved);
        return Err(cleared.error);
      }
      var written := WritePurchase(id, p, charged);
      if written.Err? {
        Rollback(saved);
        return Err(written.error);
      }
      r := Ok(());
    }

    method DeletePurchase(id: Id) returns (r: Result<()>)
      requires Valid()
      modifies this
      ensures Valid()
      ensures Tables() == Committed(old(Tables()), Ledger.DeletePurchase(old(Tables()), id))
      ensures r == Answer(Ledger.DeletePurchase(old(Tables()), id), ())
    {
      hide Consistent, Ledger.ClearPurchase;
      ghost var before := Tables();
      if Ledger.DeletePurchase(before, id).Ok? {
        PerformKeeps(before, DropPurchase(id));
      }
      if id !in purchases {
        return Err(NotFound);
      }
      if purchases[id].account !in accounts {
        return Err(NotFound);
      }
      var saved := Tables();
      var cleared := ClearPurchase(id);
      if cleared.Err? {
        Rollback(saved);
        return Err(cleared.error);
      }
      purchases := purchases - {id};
      r := Ok(());
    }
  }
}
