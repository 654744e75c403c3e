/** What editing a transaction checks, stores and moves, column by column and account by account. */
module LedgerEdits {
  import opened Calendar
  import opened Common
  import opened Ledger
  import opened LedgerLaws
  import opened LedgerMeaning
  import opened ManagedLaws

  // ---------------------------------------------------------------- what a row took from an account

  /** What the recorded entries of a transaction added to an account. */
  function Recorded(entries: seq<Entry>, id: Id, account: Id): int {
    if entries == [] then 0
    else
      var last := entries[|entries| - 1];
      Recorded(entries[..|entries| - 1], id, account)
      + (if last.source == OfTransaction(id) && last.account == account then last.delta else 0)
  }

  /** How many entries a transaction has in an account. */
  function EntryCount(entries: seq<Entry>, id: Id, account: Id): nat {
    if entries == [] then 0
    else
      var last := entries[|entries| - 1];
      EntryCount(entries[..|entries| - 1], id, account) + (if last.source == OfTransaction(id) && last.account == account then 1 else 0)
  }

  predicate HasEntry(entries: seq<Entry>, id: Id, account: Id) {
    exists e <- entries :: e.source == OfTransaction(id) && e.account == account
  }

  lemma RecordedOneMore(entries: seq<Entry>, e: Entry, id: Id, account: Id)
    ensures Recorded(entries + [e], id, account)
            == Recorded(entries, id, account) + (if e.source == OfTransaction(id) && e.account == account then e.delta else 0)
    ensures HasEntry(entries + [e], id, account) <==> HasEntry(entries, id, account) || (e.source == OfTransaction(id) && e.account == account)
    ensures EntryCount(entries + [e], id, account)
            == EntryCount(entries, id, account) + (if e.source == OfTransaction(id) && e.account == account then 1 else 0)
  {
    assert (entries + [e])[..|entries|] == entries;
    assert e in entries + [e];
  }

  lemma {:induction false} RecordedIsSelected(entries: seq<Entry>, id: Id, account: Id)
    ensures Recorded(entries, id, account) == Sum(Selected(entries, OneTransaction(id)), account)
  {
    if entries != [] {
      var init, last := entries[..|entries| - 1], entries[|entries| - 1];
      RecordedIsSelected(init, id, account);
      var s := OneTransaction(id);
      assert s.Has(last) <==> last.source == OfTransaction(id);
      SumOfAppended(Selected(init, s), last, account);
      assert Selected(init, s) + [] == Selected(init, s);
    }
  }

  lemma {:induction false} NothingRecorded(entries: seq<Entry>, id: Id, account: Id)
    requires !HasEntry(entries, id, account)
    ensures Recorded(entries, id, account) == 0 && EntryCount(entries, id, account) == 0
  {
    if entries != [] {
      var init, last := entries[..|entries| - 1], entries[|entries| - 1];
      assert entries == init + [last];
      RecordedOneMore(init, last, id, account);
      NothingRecorded(init, id, account);
    }
  }

  /** A row has at most one entry in an account, of what the row means for it. */
  ghost predicate Explains(entries: seq<Entry>, id: Id, row: Transaction) {
    forall a: Id :: ExplainsIn(entries, id, row, a)
  }

  predicate ExplainsIn(entries: seq<Entry>, id: Id, row: Transaction, a: Id) {
    EntryCount(entries, id, a) <= 1 && (HasEntry(entries, id, a) ==> Recorded(entries, id, a) == Moved(row, a))
  }

  /** Every stored row is explained. A row recorded while an account was not tracked has no entry in it. */
  ghost predicate Explained(b: Books) {
    forall id <- b.transactions :: Explains(b.entries, id, b.transactions[id])
  }

  // ---------------------------------------------------------------- entries come and go by whole rows

  lemma {:induction false} AppendedExplains(entries: seq<Entry>, more: seq<Entry>, id: Id, row: Transaction)
    requires Explains(entries, id, row) && forall e <- more :: e.source != OfTransaction(id)
    ensures Explains(entries + more, id, row)
    decreases |more|
  {
    hide Recorded, HasEntry, EntryCount;
    if more == [] {
      assert entries + more == entries;
    } else {
      var init, last := more[..|more| - 1], more[|more| - 1];
      assert last in more && entries + more == (entries + init) + [last];
      AppendedExplains(entries, init, id, row);
      forall a: Id ensures ExplainsIn(entries + more, id, row, a) {
        assert ExplainsIn(entries + init, id, row, a);
        RecordedOneMore(entries + init, last, id, a);
      }
    }
  }

  lemma {:induction false} OthersRecord(entries: seq<Entry>, s: Selection, id: Id, account: Id)
    requires id !in s.transactions
    ensures Recorded(Others(entries, s), id, account) == Recorded(entries, id, account)
    ensures HasEntry(Others(entries, s), id, account) <==> HasEntry(entries, id, account)
    ensures EntryCount(Others(entries, s), id, account) == EntryCount(entries, id, account)
  {
    hide Recorded, HasEntry, EntryCount;
    if entries != [] {
      var init, last := entries[..|entries| - 1], entries[|entries| - 1];
      OthersRecord(init, s, id, account);
      assert entries == init + [last];
      RecordedOneMore(init, last, id, account);
      RecordedOneMore(Others(init, s), last, id, account);
      assert s.Has(last) ==> Others(entries, s) == Others(init, s);
    }
  }

  lemma OthersExplain(entries: seq<Entry>, s: Selection, id: Id, row: Transaction)
    requires Explains(entries, id, row) && id !in s.transactions
    ensures Explains(Others(entries, s), id, row)
  {
    hide Recorded, HasEntry, Others, EntryCount;
    forall a: Id ensures ExplainsIn(Others(entries, s), id, row, a) {
      assert ExplainsIn(entries, id, row, a);
      OthersRecord(entries, s, id, a);
    }
  }

  lemma NoEntryOf(entries: seq<Entry>, id: Id, account: Id)
    requires forall e <- entries :: e.source != OfTransaction(id)
    ensures !HasEntry(entries, id, account) && Recorded(entries, id, account) == 0 && EntryCount(entries, id, account) == 0
  {
    NothingRecorded(entries, id, account);
  }

  /** The tracked ones of the entries a row means: none, its own account's, the other account's or both. */
  lemma TrackedDeltas(accounts: map<Id, Account>, id: Id, row: Transaction)
    requires ValidShape(row) && AccountsOf(row) <= accounts.Keys
    ensures var own := Entry(row.account, OfTransaction(id), if row.kind == Income then row.amount else -row.amount);
            && row.account in accounts && Deltas(id, row).Ok?
            && var first := if accounts[row.account].tracking then [own] else [];
            && TrackedOnly(accounts, Deltas(id, row).value)
               == (if row.kind != Transfer then first
                   else if row.transferTo.value in accounts && accounts[row.transferTo.value].tracking
                     then first + [Entry(row.transferTo.value, OfTransaction(id), row.amount)]
                   else first)
  {
    hide IsBlank;
    assert row.account in AccountsOf(row);
    var deltas := Deltas(id, row).value;
    if row.kind == Transfer {
      assert row.transferTo.value in AccountsOf(row);
      assert deltas[1..] == [deltas[1]] && deltas[1..][1..] == [];
      assert TrackedOnly(accounts, deltas[1..]) == if accounts[row.transferTo.value].tracking then [deltas[1]] else [];
    } else {
      assert deltas[1..] == [];
    }
  }

  /** The entries a row writes explain it, if it had none. */
  lemma EffectsExplain(accounts: map<Id, Account>, entries: seq<Entry>, id: Id, row: Transaction)
    requires ValidShape(row) && AccountsOf(row) <= accounts.Keys && forall e <- entries :: e.source != OfTransaction(id)
    ensures Deltas(id, row).Ok?
    ensures Explains(entries + (if row.affectsBalance then TrackedOnly(accounts, Deltas(id, row).value) else []), id, row)
  {
    hide IsBlank, Recorded, HasEntry, EntryCount, TrackedOnly, Deltas;
    TrackedDeltas(accounts, id, row);
    if Deltas(id, row).Ok? {
      DeltasTouchItsAccounts(id, row);
    }
    var own := Entry(row.account, OfTransaction(id), if row.kind == Income then row.amount else -row.amount);
    var after := entries + (if row.affectsBalance then TrackedOnly(accounts, Deltas(id, row).value) else []);
    forall a: Id ensures ExplainsIn(after, id, row, a) {
      NoEntryOf(entries, id, a);
      RecordedOneMore(entries, own, id, a);
      assert entries + [] == entries;
      if row.kind == Transfer {
        var other := Entry(row.transferTo.value, OfTransaction(id), row.amount);
        RecordedOneMore(entries, other, id, a);
        RecordedOneMore(entries + [own], other, id, a);
        assert entries + ([own] + [other]) == (entries + [own]) + [other];
        assert [] + [other] == [other];
      }
    }
  }

  // ---------------------------------------------------------------- every request explains what it writes

  lemma StoredIsOlder(b: Books, id: Id)
    requires Linked(b) && b.nextId <= id
    ensures id !in b.transactions && forall e <- b.entries :: e.source != OfTransaction(id)
  {
  }

  /** Entries that belong to no row, and rows that have no entries. */
  lemma RowsAppended(b: Books, after: Books, more: seq<Entry>)
    requires Linked(b) && Explained(b)
    requires after.entries == b.entries + more && forall e <- more :: !e.source.OfTransaction?
    requires forall id <- after.transactions :: id in b.transactions ==> after.transactions[id] == b.transactions[id]
    ensures Explained(after)
  {
    hide Explains, Recorded, HasEntry, EntryCount;
    forall id | id in after.transactions ensures Explains(after.entries, id, after.transactions[id]) {
      if id !in b.transactions {
        UnknownIsExplained(b, id, after.transactions[id]);
      }
      AppendedExplains(b.entries, more, id, after.transactions[id]);
    }
  }

  lemma UnknownIsExplained(b: Books, id: Id, row: Transaction)
    requires Linked(b) && id !in b.transactions
    ensures Explains(b.entries, id, row)
  {
    hide Recorded, HasEntry, EntryCount;
    forall a: Id ensures ExplainsIn(b.entries, id, row, a) {
      NoEntryOf(b.entries, id, a);
    }
  }

  lemma RowsDropped(b: Books, after: Books, s: Selection)
    requires Explained(b) && after.entries == Others(b.entries, s)
    requires forall id <- after.transactions :: id !in s.transactions && id in b.transactions && after.transactions[id] == b.transactions[id]
    ensures Explained(after)
  {
    hide Explains;
    forall id | id in after.transactions ensures Explains(after.entries, id, after.transactions[id]) {
      OthersExplain(b.entries, s, id, after.transactions[id]);
    }
  }

  /** A row written over one without entries, or under a fresh id. */
  lemma RowWritten(b: Books, id: Id, row: Transaction)
    requires Agrees(b.accounts, b.entries) && ValidShape(row) && AccountsOf(row) <= b.accounts.Keys
    requires forall e <- b.entries :: e.source != OfTransaction(id)
    requires forall t <- b.transactions :: t != id ==> Explains(b.entries, t, b.transactions[t])
    requires id in b.transactions && b.transactions[id] == row
    ensures ApplyEffects(b, id, row).Ok? && Explained(ApplyEffects(b, id, row).value)
  {
    hide IsBlank, Explains, Agrees, TrackedOnly;
    EffectsKeep(b, id, row);
    EffectsExplain(b.accounts, b.entries, id, row);
    var more := if row.affectsBalance then TrackedOnly(b.accounts, Deltas(id, row).value) else [];
    if row.affectsBalance {
      DeltasTouchItsAccounts(id, row);
      TrackedOnlyIsSome(b.accounts, Deltas(id, row).value);
    }
    var after := ApplyEffects(b, id, row).value;
    forall t | t in after.transactions ensures Explains(after.entries, t, after.transactions[t]) {
      if t != id {
        AppendedExplains(b.entries, more, t, b.transactions[t]);
      }
    }
  }

  lemma CreationExplains(b: Books, x: Transaction)
    requires Consistent(b) && Explained(b) && CreateTransaction(b, x).Ok?
    ensures Explained(CreateTransaction(b, x).value)
  {
    hide Agrees, Explains, IsBlank, ApplyEffects;
    StoredIsOlder(b, b.nextId);
    RowWritten(b.(nextId := b.nextId + 1, transactions := b.transactions[b.nextId := x]), b.nextId, x);
  }

  /** A patch that is not balance shaped leaves what the row means. */
  lemma SameMeaning(t: Transaction, p: TransactionPatch, account: Id)
    requires !BalanceShaped(p)
    ensures Moved(Patched(t, p), account) == Moved(t, account)
  {
  }

  lemma EditExplains(b: Books, id: Id, p: TransactionPatch)
    requires Consistent(b) && Explained(b) && UpdateTransaction(b, id, p).Ok?
    ensures Explained(UpdateTransaction(b, id, p).value)
  {
    hide Agrees, Linked, IsBlank, ApplyEffects, Retract, Patched, Explains;
    var row := Patched(b.transactions[id], p);
    if BalanceShaped(p) {
      RetractKeeps(b, OneTransaction(id));
      SelectionIsPart(b.entries, OneTransaction(id));
      var retracted := Retract(b, OneTransaction(id)).value;
      forall t | t in b.transactions && t != id ensures Explains(retracted.entries, t, b.transactions[t]) {
        OthersExplain(b.entries, OneTransaction(id), t, b.transactions[t]);
      }
      RowWritten(retracted.(transactions := retracted.transactions[id := row]), id, row);
    } else {
      assert Explains(b.entries, id, row) by {
        RelabelledIsExplained(b.entries, id, b.transactions[id], p);
      }
    }
  }

  lemma RelabelledIsExplained(entries: seq<Entry>, id: Id, t: Transaction, p: TransactionPatch)
    requires Explains(entries, id, t) && !BalanceShaped(p)
    ensures Explains(entries, id, Patched(t, p))
  {
    hide Recorded, HasEntry, EntryCount, Patched, BalanceShaped, Moved;
    forall a: Id ensures ExplainsIn(entries, id, Patched(t, p), a) {
      assert ExplainsIn(entries, id, t, a);
      SameMeaning(t, p, a);
    }
  }

  lemma RemovalExplains(b: Books, id: Id)
    requires Consistent(b) && Explained(b)
    ensures Remove(b, id).Ok? && Explained(Remove(b, id).value)
  {
    hide Agrees, Linked, Explained, Others, Selected, Reverse;
    RetractKeeps(b, OneTransaction(id));
    RowsDropped(b, Remove(b, id).value, OneTransaction(id));
  }

  lemma ClearingExplains(b: Books, id: Id)
    requires Consistent(b) && Explained(b)
    ensures ClearPurchase(b, id).Ok? && Explained(ClearPurchase(b, id).value)
  {
    hide Agrees, Linked, Explained, Others, Selected, Reverse, InstallmentIds;
    RetractKeeps(b, PurchaseEntries(b, id));
    RowsDropped(b, ClearPurchase(b, id).value, PurchaseEntries(b, id));
  }

  lemma PlacingExplains(b: Books, id: Id, p: PurchaseInput, charge: bool)
    requires Consistent(b) && Explained(b) && p.count > 0 && p.account in b.accounts
    ensures PlacePurchase(b, id, p, charge).Ok? && Explained(PlacePurchase(b, id, p, charge).value)
  {
    hide Agrees, Explained, Post, InstallmentRows, PurchaseRow;
    var listed := b.(purchases := b.purchases[id := PurchaseRow(p)]);
    var e := Entry(p.account, OfPurchase(id), -p.total);
    PostKeeps(listed, e);
    RowsByNumber(id, p, b.nextId, p.count);
    var after := PlacePurchase(b, id, p, charge).value;
    var more := after.entries[|b.entries|..];
    assert after.entries == b.entries + more;
    RowsAppended(b, after, more);
  }

  lemma PurchaseExplains(b: Books, r: Request)
    requires Consistent(b) && Explained(b) && Perform(b, r).Ok?
    requires r.NewPurchase? || r.ChangePurchase? || r.DropPurchase?
    ensures Explained(Perform(b, r).value)
  {
    hide Agrees, Linked, PlacePurchase, ClearPurchase, Explains;
    match r
    case NewPurchase(p) =>
      BumpedIsConsistent(b);
      PlacingExplains(b.(nextId := b.nextId + 1), b.nextId, p, true);
    case ChangePurchase(id, p) =>
      ClearPurchaseKeeps(b, id);
      ClearingExplains(b, id);
      PlacingExplains(ClearPurchase(b, id).value, id, p, HadPurchaseEntry(b, id));
    case DropPurchase(id) =>
      ClearingExplains(b, id);
  }

  lemma AccountRequestExplains(b: Books, r: Request)
    requires Consistent(b) && Explained(b) && Perform(b, r).Ok?
    requires r.NewAccount? || r.ChangeAccount? || r.StartTracking? || r.CountBalance? || r.AdjustBalance?
    ensures Explained(Perform(b, r).value)
  {
    hide Agrees, Explained, Linked;
    var after := Perform(b, r).value;
    var more := after.entries[|b.entries|..];
    assert b.entries + more == after.entries;
    RowsAppended(b, after, more);
  }

  lemma RequestExplains(b: Books, r: Request)
    requires Consistent(b) && Explained(b) && Perform(b, r).Ok?
    ensures Explained(Perform(b, r).value)
  {
    hide Consistent, Explains, CreateAccount, UpdateAccount, EnableTracking, ReconcileBalance, Adjust, CreateTransaction, UpdateTransaction, Remove,
         CreatePurchase, UpdatePurchase, DeletePurchase;
    match r {
      case NewAccount(_) | ChangeAccount(_, _) | StartTracking(_, _) | CountBalance(_, _) | AdjustBalance(_, _) =>
        AccountRequestExplains(b, r);
      case NewPurchase(_) | ChangePurchase(_, _) | DropPurchase(_) =>
        PurchaseExplains(b, r);
      case NewTransaction(x) => CreationExplains(b, x);
      case NewManaged(x, m) => CreationExplains(b, x);
      case ChangeTransaction(id, p) => EditExplains(b, id, p);
      case DropTransaction(id) => RemovalExplains(b, id);
      case DropManaged(id) => RemovalExplains(b, id);
    }
  }

  lemma NothingToExplain(statements: map<Id, Id>)
    ensures Explained(EMPTY_BOOKS.(statements := statements))
  {
  }

  /** After any run of requests a row has in each account one entry, of what the row means for that account, or none. */
  lemma {:induction false} AlwaysExplained(b: Books, requests: seq<Request>)
    requires Consistent(b) && Explained(b)
    ensures Explained(Run(b, requests)) && Consistent(Run(b, requests))
    decreases |requests|
  {
    hide Consistent, Explained, Perform;
    if requests != [] {
      if Perform(b, requests[0]).Ok? {
        PerformKeeps(b, requests[0]);
        RequestExplains(b, requests[0]);
      }
      AlwaysExplained(Committed(b, Perform(b, requests[0])), requests[1..]);
    }
  }

  // ---------------------------------------------------------------- what an edit stores and moves

  /** An accepted edit gives each of the ten columns the patch's value where it has one and keeps it otherwise; no other
      row, purchase or link changes and no account comes or goes. */
  lemma EditStores(b: Books, id: Id, p: TransactionPatch)
    requires Consistent(b) && UpdateTransaction(b, id, p).Ok?
    ensures var r := UpdateTransaction(b, id, p).value;
            && id in b.transactions
            && var t := b.transactions[id];
            && r.transactions == b.transactions[id := Transaction(
                 if p.account.Some? then p.account.value else t.account,
                 if p.kind.Some? then p.kind.value else t.kind,
                 if p.amount.Some? then p.amount.value else t.amount,
                 if p.category.Some? then p.category.value else t.category,
                 if p.date.Some? then p.date.value else t.date,
                 if p.description.Some? then p.description.value else t.description,
                 if p.transferTo.Some? then p.transferTo.value else t.transferTo,
                 if p.statement.Some? then p.statement.value else t.statement,
                 if p.affectsBalance.Some? then p.affectsBalance.value else t.affectsBalance,
                 if p.purchase.Some? then p.purchase.value else t.purchase)]
            && r.purchases == b.purchases && r.statements == b.statements && r.managers == b.managers && r.nextId == b.nextId
            && r.accounts.Keys == b.accounts.Keys
  {
    hide Agrees, Linked, IsBlank, ApplyEffects, Retract;
    if BalanceShaped(p) {
      var row := Patched(b.transactions[id], p);
      RetractKeeps(b, OneTransaction(id));
      var retracted := Retract(b, OneTransaction(id)).value;
      EffectsKeep(retracted.(transactions := retracted.transactions[id := row]), id, row);
    }
  }

  /** A balance-shaped edit, account by account. */
  lemma ShapedEdit(b: Books, id: Id, p: TransactionPatch, a: Id)
    requires Consistent(b) && UpdateTransaction(b, id, p).Ok? && BalanceShaped(p) && a in b.accounts
    ensures var r := UpdateTransaction(b, id, p).value;
            && a in r.accounts && id in r.transactions
            && r.accounts[a] == After(Lowered(b.accounts[a], Recorded(b.entries, id, a)), Moved(r.transactions[id], a))
  {
    hide Linked, IsBlank, ApplyEffects, Retract, AccountAgrees, Selected, Others, Moved, Recorded, Sum, Lowered, After, BalanceShaped, Patched,
         ValidateAccounts;
    var row := Patched(b.transactions[id], p);
    RetractKeeps(b, OneTransaction(id));
    var retracted := Retract(b, OneTransaction(id)).value;
    AgreeingIsMovable(retracted);
    RecordedIsSelected(b.entries, id, a);
    ExistingAccounts(b, row);
    EffectsMove(retracted.(transactions := retracted.transactions[id := row]), id, row);
  }

  lemma ExistingAccounts(b: Books, t: Transaction)
    requires ValidateAccounts(b, t).Ok?
    ensures AccountsOf(t) <= b.accounts.Keys
  {
  }

  lemma PlainEdit(b: Books, id: Id, p: TransactionPatch)
    requires UpdateTransaction(b, id, p).Ok? && !BalanceShaped(p)
    ensures var r := UpdateTransaction(b, id, p).value;
            && r.accounts == b.accounts && r.entries == b.entries && id in r.transactions
  {
    hide ValidShape, ValidateAccounts;
  }

  /** What an accepted edit moves. A patch of the category, the date, the description or the end of a statement link
      moves nothing. Any other takes back what the row had recorded in each account and gives what the new row means
      for it; an account that is not tracked stays as it was. */
  lemma EditMoves(b: Books, id: Id, p: TransactionPatch, a: Id)
    requires Consistent(b) && UpdateTransaction(b, id, p).Ok? && a in b.accounts
    ensures var r := UpdateTransaction(b, id, p).value;
            var shaped := p.account.Some? || p.kind.Some? || p.amount.Some? || p.transferTo.Some? || p.affectsBalance.Some?
                          || (p.statement.Some? && p.statement.value.Some?);
            && a in r.accounts && id in r.transactions
            && var before, after, row := b.accounts[a], r.accounts[a], r.transactions[id];
            && (!shaped ==> r.accounts == b.accounts && r.entries == b.entries)
            && (!before.tracking ==> after == before)
            && (shaped && before.tracking && before.kind == Debit ==>
                  before.balance.Some?
                  && after == before.(balance := Some(before.balance.value - Recorded(b.entries, id, a) + Moved(row, a))))
            && (shaped && before.tracking && before.kind == Credit ==>
                  before.availableCredit.Some?
                  && after == before.(availableCredit := Some(before.availableCredit.value - Recorded(b.entries, id, a) + Moved(row, a))))
  {
    hide Consistent, UpdateTransaction, AccountAgrees, Recorded, Moved, Lowered, After;
    AccountOf(b, a);
    if BalanceShaped(p) {
      ShapedEdit(b, id, p, a);
      MovedTwice(b.accounts[a], b.entries, a, Recorded(b.entries, id, a), Moved(UpdateTransaction(b, id, p).value.transactions[id], a));
      if !b.accounts[a].tracking {
        UntrackedHasNone(b, id, a);
      }
    } else {
      PlainEdit(b, id, p);
    }
  }

  lemma AgreeingIsMovable(b: Books)
    requires Agrees(b.accounts, b.entries)
    ensures Movable(b.accounts)
  {
    forall a | a in b.accounts ensures b.accounts[a].tracking ==> b.accounts[a].Funds().Some? {
      assert AccountAgrees(b.accounts[a], b.entries, a);
    }
  }

  lemma UntrackedHasNone(b: Books, id: Id, a: Id)
    requires a in b.accounts && AccountAgrees(b.accounts[a], b.entries, a) && !b.accounts[a].tracking
    ensures Recorded(b.entries, id, a) == 0
  {
    NothingRecorded(b.entries, id, a);
  }

  /** An account taken back from and given to. */
  lemma MovedTwice(account: Account, entries: seq<Entry>, id: Id, taken: int, given: int)
    requires AccountAgrees(account, entries, id)
    ensures var r := After(Lowered(account, taken), given);
            && (!account.tracking && taken == 0 ==> r == account)
            && (account.tracking && account.kind == Debit ==>
                  account.balance.Some? && r == account.(balance := Some(account.balance.value - taken + given)))
            && (account.tracking && account.kind == Credit ==>
                  account.availableCredit.Some? && r == account.(availableCredit := Some(account.availableCredit.value - taken + given)))
  {
  }

  /** So in every state reached by requests an edit moves a tracked account by what the new row means for it less what the
      old one meant, exactly if the patch moves nothing, or the row has its entry in the account, or means nothing for
      it. It had no entry if it was recorded before the account was tracked. */
  lemma EditMovesTheDifference(b: Books, id: Id, p: TransactionPatch, a: Id)
    requires Consistent(b) && Explained(b) && UpdateTransaction(b, id, p).Ok? && a in b.accounts && b.accounts[a].tracking
    ensures var r := UpdateTransaction(b, id, p).value;
            && id in b.transactions && id in r.transactions && a in r.accounts
            && var before, after := b.accounts[a], r.accounts[a];
            var difference := Moved(r.transactions[id], a) - Moved(b.transactions[id], a);
            var shaped := p.account.Some? || p.kind.Some? || p.amount.Some? || p.transferTo.Some? || p.affectsBalance.Some?
                          || (p.statement.Some? && p.statement.value.Some?);
            && (before.kind == Debit ==> before.balance.Some? && after.balance.Some?)
            && (before.kind == Credit ==> before.availableCredit.Some? && after.availableCredit.Some?)
            && ((if before.kind == Debit then after.balance.value == before.balance.value + difference
                 else after.availableCredit.value == before.availableCredit.value + difference)
                <==> !shaped || HasEntry(b.entries, id, a) || Moved(b.transactions[id], a) == 0)
  {
    hide Consistent, UpdateTransaction, Recorded, HasEntry, Moved;
    EditStores(b, id, p);
    EditMoves(b, id, p, a);
    if HasEntry(b.entries, id, a) {
      assert Explains(b.entries, id, b.transactions[id]);
      assert ExplainsIn(b.entries, id, b.transactions[id], a);
    } else {
      NothingRecorded(b.entries, id, a);
    }
    if !BalanceShaped(p) {
      SameMeaningStored(b, id, p, a);
    }
    AccountIsFunded(b, a);
  }

  lemma AccountIsFunded(b: Books, a: Id)
    requires Consistent(b) && a in b.accounts && b.accounts[a].tracking
    ensures b.accounts[a].kind == Debit ==> b.accounts[a].balance.Some?
    ensures b.accounts[a].kind == Credit ==> b.accounts[a].availableCredit.Some?
  {
    AccountOf(b, a);
    hide Consistent;
  }

  lemma SameMeaningStored(b: Books, id: Id, p: TransactionPatch, a: Id)
    requires id in b.transactions && UpdateTransaction(b, id, p).Ok? && !BalanceShaped(p)
    ensures id in UpdateTransaction(b, id, p).value.transactions
    ensures Moved(UpdateTransaction(b, id, p).value.transactions[id], a) == Moved(b.transactions[id], a)
  {
    SameMeaning(b.transactions[id], p, a);
  }

  /** A row recorded before its account was tracked has no entry to take back, so an edit charges its whole new amount:
      with 100 spent before the account was counted at 900, raising the amount to 250 leaves 650 and not 750. */
  lemma OlderRowIsChargedInFull()
    ensures var spent := Transaction(0, Expense, 100, None, ZERO_TIME, "x", None, None, true, None);
            var account := Account(Debit, "MXN", false, None, None, None, true, 0);
            var b := Run(EMPTY_BOOKS, [NewAccount(account), NewTransaction(spent), StartTracking(0, 900)]);
            var raised := UpdateTransaction(b, 1, TransactionPatch(None, None, Some(250), None, None, None, None, None, None, None));
            && 0 in b.accounts && b.accounts[0].balance == Some(900) && raised.Ok? && 0 in raised.value.accounts
            && 1 in b.transactions && 1 in raised.value.transactions
            && Moved(raised.value.transactions[1], 0) - Moved(b.transactions[1], 0) == -150
            && raised.value.accounts[0].balance == Some(650)
  {
    var spent := Transaction(0, Expense, 100, None, ZERO_TIME, "x", None, None, true, None);
    var account := Account(Debit, "MXN", false, None, None, None, true, 0);
    var requests := [NewAccount(account), NewTransaction(spent), StartTracking(0, 900)];
    var patch := TransactionPatch(None, None, Some(250), None, None, None, None, None, None, None);
    var first := EMPTY_BOOKS.(accounts := map[0 := account], nextId := 1);
    var listed := first.(transactions := map[1 := spent], nextId := 2);
    var counted := account.(balance := Some(900), tracking := true);
    var b := listed.(accounts := map[0 := counted], entries := [Entry(0, Opening, 900)]);
    SpentUntracked(first, spent);
    assert Perform(EMPTY_BOOKS, requests[0]) == Ok(first);
    assert Perform(listed, requests[2]) == Ok(b) by {
      assert account.WithFunds(900).(tracking := true, trackedFrom := 0) == counted;
      assert listed.accounts[0 := counted] == b.accounts;
      assert listed.entries + [Entry(0, Opening, 900)] == b.entries;
    }
    RunThree(EMPTY_BOOKS, first, listed, b, requests);
    RaisedTracked(b, spent, patch);
  }

  lemma RunThree(start: Books, first: Books, second: Books, third: Books, requests: seq<Request>)
    requires |requests| == 3
    requires Perform(start, requests[0]) == Ok(first) && Perform(first, requests[1]) == Ok(second) && Perform(second, requests[2]) == Ok(third)
    ensures Run(start, requests) == third
  {
    hide Perform;
    assert requests[1..][0] == requests[1] && requests[1..][1..][0] == requests[2];
    assert Run(third, requests[1..][1..][1..]) == third;
    assert Run(second, requests[1..][1..]) == third;
    assert Run(first, requests[1..]) == third;
  }

  lemma ShortText()
    ensures !IsBlank("x")
  {
    assert "x"[0] in "x";
  }

  lemma SpentUntracked(b: Books, spent: Transaction)
    requires spent == Transaction(0, Expense, 100, None, ZERO_TIME, "x", None, None, true, None)
    requires b.nextId == 1 && b.accounts.Keys == {0} && !b.accounts[0].tracking && b.transactions == map[]
    ensures CreateTransaction(b, spent) == Ok(b.(transactions := map[1 := spent], nextId := 2))
  {
    ShortText();
    hide IsBlank;
    var listed := b.(transactions := b.transactions[1 := spent], nextId := 2);
    assert listed.transactions == map[1 := spent];
    OnePosted(listed, Entry(0, OfTransaction(1), -100));
  }

  lemma RaisedTracked(b: Books, spent: Transaction, patch: TransactionPatch)
    requires spent == Transaction(0, Expense, 100, None, ZERO_TIME, "x", None, None, true, None)
    requires patch == TransactionPatch(None, None, Some(250), None, None, None, None, None, None, None)
    requires b.accounts == map[0 := Account(Debit, "MXN", true, Some(900), None, None, true, 0)] && b.entries == [Entry(0, Opening, 900)]
    requires b.transactions == map[1 := spent] && b.managers == map[]
    ensures UpdateTransaction(b, 1, patch).Ok?
    ensures var r := UpdateTransaction(b, 1, patch).value;
            r.accounts == map[0 := Account(Debit, "MXN", true, Some(650), None, None, true, 0)]
            && r.transactions == map[1 := spent.(amount := 250)]
  {
    ShortText();
    hide IsBlank;
    NothingSelected(b.entries, OneTransaction(1));
    var row := spent.(amount := 250);
    assert Patched(spent, patch) == row;
    assert Retract(b, OneTransaction(1)) == Ok(b);
    OnePosted(b.(transactions := b.transactions[1 := row]), Entry(0, OfTransaction(1), -250));
  }

  // ---------------------------------------------------------------- what is accepted

  /** The rows the table takes: a positive amount and a description; a transfer goes to another account and has no category;
      only a transfer that moves money pays a card statement. */
  lemma ShapeChecks(t: Transaction)
    ensures ValidShape(t)
            <==> && t.amount >= 1 && (exists c <- t.description :: !IsSpace(c)) && t.kind in {Expense, Income, Transfer}
                 && (t.transferTo.Some? <==> t.kind == Transfer) && t.transferTo != Some(t.account)
                 && (t.kind == Transfer ==> t.category.None?)
                 && (t.statement.Some? ==> t.kind == Transfer && t.affectsBalance)
  {
    if t.kind == Transfer && t.transferTo.Some? {
      assert t.transferTo != Some(t.account) <==> t.transferTo.value != t.account;
    }
  }

  /** The accounts a shaped row needs: those it names exist; a transfer stays in one currency; the statement it pays is
      one of the card it goes to, with both accounts tracked. */
  lemma AccountChecks(b: Books, t: Transaction)
    requires ValidShape(t)
    ensures ValidateAccounts(b, t).Ok?
            <==> && t.account in b.accounts && (t.transferTo.Some? ==> t.transferTo.value in b.accounts)
                 && (t.transferTo.Some? ==> b.accounts[t.transferTo.value].currency == b.accounts[t.account].currency)
                 && (t.statement.Some? ==>
                       && t.statement.value in b.statements && t.transferTo == Some(b.statements[t.statement.value])
                       && b.accounts[t.account].tracking && b.accounts[t.transferTo.value].tracking)
  {
    hide IsBlank;
    assert t.account in AccountsOf(t) && (t.transferTo.Some? ==> t.transferTo.value in AccountsOf(t));
  }

  /** An edit is accepted exactly for a row that belongs to no purchase and no manager, if the row it asks for is shaped and,
      where money moves or a statement is paid, has the accounts it needs. */
  lemma EditChecks(b: Books, id: Id, p: TransactionPatch, row: Transaction)
    requires Consistent(b) && id in b.transactions
    requires var t := b.transactions[id];
             row == Transaction(
               if p.account.Some? then p.account.value else t.account,
               if p.kind.Some? then p.kind.value else t.kind,
               if p.amount.Some? then p.amount.value else t.amount,
               if p.category.Some? then p.category.value else t.category,
               if p.date.Some? then p.date.value else t.date,
               if p.description.Some? then p.description.value else t.description,
               if p.transferTo.Some? then p.transferTo.value else t.transferTo,
               if p.statement.Some? then p.statement.value else t.statement,
               if p.affectsBalance.Some? then p.affectsBalance.value else t.affectsBalance,
               t.purchase)
    ensures var t := b.transactions[id];
            var shaped := p.account.Some? || p.kind.Some? || p.amount.Some? || p.transferTo.Some? || p.affectsBalance.Some?
                          || (p.statement.Some? && p.statement.value.Some?);
            UpdateTransaction(b, id, p).Ok?
            <==> && p.purchase.None? && t.purchase.None? && id !in b.managers && ValidShape(row)
                 && (shaped ==> t.account in b.accounts && (t.transferTo.Some? ==> t.transferTo.value in b.accounts))
                 && (shaped || row.statement.Some? ==> ValidateAccounts(b, row).Ok?)
  {
    hide Consistent, IsBlank, ValidShape, UpdateTransaction, ValidateAccounts;
    var t := b.transactions[id];
    assert t.account in AccountsOf(t) && (t.transferTo.Some? ==> t.transferTo.value in AccountsOf(t));
    if p.purchase.None? {
      assert row == Patched(t, p);
      EditIsAccepted(b, id, p);
    } else {
      NoPurchasePatch(b, id, p);
    }
  }

  lemma NoPurchasePatch(b: Books, id: Id, p: TransactionPatch)
    requires p.purchase.Some?
    ensures UpdateTransaction(b, id, p).Err?
  {
  }

  lemma EditIsAccepted(b: Books, id: Id, p: TransactionPatch)
    requires Consistent(b) && id in b.transactions && p.purchase.None?
    ensures var t, row := b.transactions[id], Patched(b.transactions[id], p);
            UpdateTransaction(b, id, p).Ok?
            <==> && t.purchase.None? && id !in b.managers && ValidShape(row)
                 && (BalanceShaped(p) ==> AccountsOf(t) <= b.accounts.Keys)
                 && (BalanceShaped(p) || row.statement.Some? ==> ValidateAccounts(b, row).Ok?)
  {
    hide Linked, IsBlank, ApplyEffects, Retract, AccountAgrees, ValidateAccounts, Patched, BalanceShaped;
    var row := Patched(b.transactions[id], p);
    RetractKeeps(b, OneTransaction(id));
    var retracted := Retract(b, OneTransaction(id)).value;
    if ValidShape(row) && ValidateAccounts(b, row).Ok? {
      ExistingAccounts(b, row);
      EffectsKeep(retracted.(transactions := retracted.transactions[id := row]), id, row);
    }
  }
}
