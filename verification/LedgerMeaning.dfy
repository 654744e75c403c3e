/** What the requests of the ledger mean for the money of each account, in terms of the request alone. */
module LedgerMeaning {
  import opened Common
  import opened Ledger
  import opened LedgerLaws

  /** What a transaction adds to the money usable in an account: an expense takes, an income gives, a transfer
      takes from its account and gives to the other one, and a historical row does nothing. */
  function Moved(t: Transaction, account: Id): int {
    if !t.affectsBalance then 0
    else
      (if t.account != account then 0 else if t.kind == Income then t.amount else -t.amount)
      + (if t.kind == Transfer && t.transferTo == Some(account) then t.amount else 0)
  }

  function After(a: Account, delta: int): Account {
    if a.tracking && a.Funds().Some? then a.WithFunds(a.Funds().value + delta) else a
  }

  lemma PostMoves(b: Books, e: Entry)
    requires e.account in b.accounts && (b.accounts[e.account].tracking ==> b.accounts[e.account].Funds().Some?)
    ensures Post(b, e).Ok?
    ensures Post(b, e).value == b.(accounts := b.accounts[e.account := After(b.accounts[e.account], e.delta)],
                                   entries := if b.accounts[e.account].tracking then b.entries + [e] else b.entries)
  {
    if !b.accounts[e.account].tracking {
      assert b.accounts[e.account := b.accounts[e.account]] == b.accounts;
    }
  }

  /** The accounts after a transaction, one by one. */
  ghost predicate MovedBy(before: map<Id, Account>, after: map<Id, Account>, t: Transaction) {
    && after.Keys == before.Keys
    && (forall id <- before :: after[id] == After(before[id], Moved(t, id)))
  }

  lemma Unmoved(a: Account)
    ensures After(a, 0) == a
  {
  }

  /** Creating a transaction is accepted exactly when its shape and its accounts are, whatever the balances. It adds
      one row and moves every tracked account by what the transaction means for it, and no other account. */
  lemma CreationMoves(b: Books, t: Transaction)
    requires Consistent(b)
    ensures CreateTransaction(b, t).Ok? <==> t.purchase.None? && ValidShape(t) && ValidateAccounts(b, t).Ok?
    ensures CreateTransaction(b, t).Ok? ==>
              var r := CreateTransaction(b, t).value;
              && MovedBy(b.accounts, r.accounts, t)
              && r.transactions == b.transactions[b.nextId := t] && r.nextId == b.nextId + 1
              && Total(r.entries) == Total(b.entries) + TrackedMoves(b, t)
  {
    hide Consistent, IsBlank, Total;
    if t.purchase.None? && ValidShape(t) && ValidateAccounts(b, t).Ok? {
      var next := b.(nextId := b.nextId + 1, transactions := b.transactions[b.nextId := t]);
      assert t.account in AccountsOf(t);
      assert Movable(b.accounts) by {
        forall a <- b.accounts ensures b.accounts[a].tracking ==> b.accounts[a].Funds().Some? {
          AccountOf(b, a);
        }
      }
      EffectsMove(next, b.nextId, t);
    }
  }

  /** What a transaction adds to all tracked accounts together. */
  function TrackedMoves(b: Books, t: Transaction): int
    requires AccountsOf(t) <= b.accounts.Keys
  {
    (if b.accounts[t.account].tracking then Moved(t, t.account) else 0)
    + (if t.transferTo.Some? && t.transferTo.value != t.account && b.accounts[t.transferTo.value].tracking
       then Moved(t, t.transferTo.value) else 0)
  }

  ghost predicate Movable(accounts: map<Id, Account>) {
    forall a <- accounts :: accounts[a].tracking ==> accounts[a].Funds().Some?
  }

  lemma EffectsMove(b: Books, id: Id, t: Transaction)
    requires ValidShape(t) && AccountsOf(t) <= b.accounts.Keys
    requires Movable(b.accounts)
    ensures ApplyEffects(b, id, t).Ok?
    ensures var r := ApplyEffects(b, id, t).value;
            && r == b.(accounts := r.accounts, entries := r.entries)
            && MovedBy(b.accounts, r.accounts, t)
            && Total(r.entries) == Total(b.entries) + TrackedMoves(b, t)
  {
    hide IsBlank, Total, PostAll, After, Post;
    if !t.affectsBalance {
      forall a <- b.accounts ensures After(b.accounts[a], 0) == b.accounts[a] {
        Unmoved(b.accounts[a]);
      }
    } else if t.kind == Transfer {
      TwoMoved(b, Entry(t.account, OfTransaction(id), -t.amount), Entry(t.transferTo.value, OfTransaction(id), t.amount), t);
    } else {
      OneMoved(b, Entry(t.account, OfTransaction(id), Moved(t, t.account)), t);
    }
  }

  lemma OneMoved(b: Books, e: Entry, t: Transaction)
    requires Movable(b.accounts) && t.account in b.accounts && t.kind != Transfer && t.affectsBalance
    requires e.account == t.account && e.delta == Moved(t, t.account)
    ensures PostAll(b, [e]).Ok?
    ensures var r := PostAll(b, [e]).value;
            && r == b.(accounts := r.accounts, entries := r.entries)
            && MovedBy(b.accounts, r.accounts, t)
            && Total(r.entries) == Total(b.entries) + (if b.accounts[t.account].tracking then e.delta else 0)
  {
    hide Post, PostAll, Total, After;
    OnePosted(b, e);
    PostMoves(b, e);
    TotalMore(b.entries, e);
    OneChange(b.accounts, e.account, e.delta, t);
  }

  lemma OneChange(before: map<Id, Account>, account: Id, delta: int, t: Transaction)
    requires account in before && forall a <- before :: Moved(t, a) == if a == account then delta else 0
    ensures MovedBy(before, before[account := After(before[account], delta)], t)
  {
    hide After, Moved;
    forall a <- before ensures After(before[a], 0) == before[a] {
      Unmoved(before[a]);
    }
  }

  lemma TwoChanges(before: map<Id, Account>, from: Id, to: Id, amount: int, t: Transaction)
    requires from in before && to in before && from != to
    requires forall a <- before :: Moved(t, a) == if a == from then -amount else if a == to then amount else 0
    ensures MovedBy(before, before[from := After(before[from], -amount)][to := After(before[to], amount)], t)
  {
    hide After, Moved;
    forall a <- before ensures After(before[a], 0) == before[a] {
      Unmoved(before[a]);
    }
  }

  lemma TwoMoved(b: Books, taken: Entry, given: Entry, t: Transaction)
    requires Movable(b.accounts) && t.account in b.accounts && t.kind == Transfer && t.affectsBalance
    requires t.transferTo.Some? && t.transferTo.value in b.accounts && t.transferTo.value != t.account
    requires taken.account == t.account && taken.delta == -t.amount
    requires given.account == t.transferTo.value && given.delta == t.amount
    ensures PostAll(b, [taken, given]).Ok?
    ensures var r := PostAll(b, [taken, given]).value;
            && r == b.(accounts := r.accounts, entries := r.entries)
            && MovedBy(b.accounts, r.accounts, t)
            && Total(r.entries) == Total(b.entries) + (if b.accounts[t.account].tracking then -t.amount else 0)
                                   + (if b.accounts[t.transferTo.value].tracking then t.amount else 0)
  {
    hide PostAll, Total, After;
    BothPosted(b, taken, given);
    TwoChanges(b.accounts, t.account, t.transferTo.value, t.amount, t);
  }

  lemma BothPosted(b: Books, taken: Entry, given: Entry)
    requires Movable(b.accounts) && taken.account in b.accounts && given.account in b.accounts && taken.account != given.account
    ensures PostAll(b, [taken, given]).Ok?
    ensures var r := PostAll(b, [taken, given]).value;
            && r == b.(accounts := b.accounts[taken.account := After(b.accounts[taken.account], taken.delta)]
                                             [given.account := After(b.accounts[given.account], given.delta)], entries := r.entries)
            && Total(r.entries) == Total(b.entries) + (if b.accounts[taken.account].tracking then taken.delta else 0)
                                   + (if b.accounts[given.account].tracking then given.delta else 0)
  {
    hide Post, PostAll, Total, After;
    PostMoves(b, taken);
    var first := Post(b, taken).value;
    TwoPosted(b, taken, given);
    TotalMore(b.entries, taken);
    PostMoves(first, given);
    TotalMore(first.entries, given);
  }

  // ---------------------------------------------------------------- conservation

  /** The money of all tracked accounts together, as their entries tell it. */
  function Total(entries: seq<Entry>): int {
    if entries == [] then 0 else Total(entries[..|entries| - 1]) + entries[|entries| - 1].delta
  }

  lemma TotalMore(entries: seq<Entry>, e: Entry)
    ensures Total(entries + [e]) == Total(entries) + e.delta
  {
    assert (entries + [e])[..|entries|] == entries;
  }

  /** A transfer neither makes nor loses tracked money exactly when both of its accounts are tracked or neither is. */
  lemma TransferConserves(b: Books, t: Transaction)
    requires Consistent(b) && CreateTransaction(b, t).Ok? && t.kind == Transfer && t.affectsBalance
    ensures t.account in b.accounts && t.transferTo.Some? && t.transferTo.value in b.accounts
    ensures Total(CreateTransaction(b, t).value.entries) == Total(b.entries)
            <==> b.accounts[t.account].tracking == b.accounts[t.transferTo.value].tracking
  {
    hide Consistent, IsBlank, Total;
    CreationMoves(b, t);
    assert t.account in AccountsOf(t) && t.transferTo.value in AccountsOf(t);
  }

  // ---------------------------------------------------------------- accounts

  function Owed(a: Account): Option<int> {
    if a.creditLimit.Some? && a.availableCredit.Some? then Some(a.creditLimit.value - a.availableCredit.value) else None
  }

  /** A new limit changes what a tracked card can spend, never what it owes; nothing else moves. */
  lemma LimitKeepsDebt(b: Books, id: Id, p: AccountPatch)
    requires Consistent(b) && UpdateAccount(b, id, p).Ok?
    ensures var r := UpdateAccount(b, id, p).value;
            && id in b.accounts && r == b.(accounts := b.accounts[id := r.accounts[id]])
            && r.accounts[id].tracking == b.accounts[id].tracking
            && (b.accounts[id].tracking && b.accounts[id].kind.Credit? ==> Owed(r.accounts[id]) == Owed(b.accounts[id]))
            && (b.accounts[id].tracking && b.accounts[id].kind.Debit? ==> r.accounts[id].balance == b.accounts[id].balance)
  {
    AccountOf(b, id);
    hide Consistent;
  }

  /** Reconciling is accepted for every tracked account; it ends with the figure given, whatever the ledger said before,
      and only adds the entry that explains the difference. */
  lemma ReconciledFigure(b: Books, id: Id, amount: int)
    requires Consistent(b) && id in b.accounts
    ensures ReconcileBalance(b, id, amount).Ok? <==> b.accounts[id].tracking
    ensures ReconcileBalance(b, id, amount).Ok? ==>
              var a, r := b.accounts[id], ReconcileBalance(b, id, amount).value;
              && r.accounts == b.accounts[id := a.WithFunds(amount)] && r.accounts[id].Funds() == Some(amount)
              && Sum(r.entries, id) == Sum(b.entries, id) + amount - a.Funds().value
              && Total(r.entries) == Total(b.entries) + amount - a.Funds().value
  {
    hide Consistent, Sum, Total;
    AccountOf(b, id);
    var a := b.accounts[id];
    if a.tracking {
      SameFunds(b.accounts, id);
      var e := Entry(id, Reconciliation, amount - a.Funds().value);
      SumOfAppended(b.entries, e, id);
      TotalMore(b.entries, e);
    }
  }

  lemma SameFunds(accounts: map<Id, Account>, id: Id)
    requires id in accounts && accounts[id].Funds().Some?
    ensures accounts[id := accounts[id].WithFunds(accounts[id].Funds().value)] == accounts
  {
    assert accounts[id].WithFunds(accounts[id].Funds().value) == accounts[id];
  }

  /** Tracking begins with the figure given, as the only entry of the account; a card owes the rest of its limit. */
  lemma TrackingBegins(b: Books, id: Id, amount: int)
    requires Consistent(b) && EnableTracking(b, id, amount).Ok?
    ensures var r := EnableTracking(b, id, amount).value;
            && id in b.accounts && !b.accounts[id].tracking && r.accounts[id].tracking
            && r == b.(accounts := b.accounts[id := r.accounts[id]], entries := b.entries + [Entry(id, Opening, amount)])
            && r.accounts[id].Funds() == Some(amount) && Sum(r.entries, id) == amount
            && (b.accounts[id].kind.Credit? ==>
                  b.accounts[id].creditLimit.Some? && Owed(r.accounts[id]) == Some(b.accounts[id].creditLimit.value - amount))
  {
    assert AccountAgrees(b.accounts[id], b.entries, id);
    NoEntriesSumToZero(b.entries, id);
    SumOfAppended(b.entries, Entry(id, Opening, amount), id);
    hide Consistent, Sum;
  }
}
