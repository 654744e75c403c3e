/** What saving, assigning and reallocating check, record and move, in the figures of the request and the columns of the
    tables, under a fresh key and under a used one. */
module SavingsMeaning {
  import opened Calendar
  import opened Common
  import opened Ledger
  import opened LedgerLaws
  import opened Savings
  import opened SavingsLaws

  // ---------------------------------------------------------------- finding rows

  lemma {:induction false} KeyIsFound(rows: seq<Allocation>, key: string)
    ensures FindKey(rows, key).None? <==> (forall r <- rows :: r.key != Some(key))
    ensures forall i :: 0 <= i < |rows| && rows[i].key == Some(key) && (forall j :: i < j < |rows| ==> rows[j].key != Some(key)) ==>
              FindKey(rows, key) == Some(rows[i])
  {
    if rows != [] {
      var init, last := rows[..|rows| - 1], rows[|rows| - 1];
      KeyIsFound(init, key);
      assert rows == init + [last];
      assert forall i :: 0 <= i < |init| ==> init[i] == rows[i];
    }
  }

  lemma {:induction false} TransactionIsFound(rows: seq<Allocation>, t: Id)
    ensures FindTransaction(rows, t).None? <==> (forall r <- rows :: r.transaction != Some(t))
    ensures forall i :: 0 <= i < |rows| && rows[i].transaction == Some(t) && (forall j :: i < j < |rows| ==> rows[j].transaction != Some(t)) ==>
              FindTransaction(rows, t) == Some(rows[i])
  {
    if rows != [] {
      var init, last := rows[..|rows| - 1], rows[|rows| - 1];
      TransactionIsFound(init, t);
      assert rows == init + [last];
      assert forall i :: 0 <= i < |init| ==> init[i] == rows[i];
    }
  }

  lemma {:induction false} PairIsFound(rows: seq<Allocation>, operation: nat)
    ensures FindPair(rows, operation).None? <==> (forall r <- rows :: !(r.operation == operation && r.key.None?))
    ensures forall i :: 0 <= i < |rows| && rows[i].operation == operation && rows[i].key.None?
                        && (forall j :: i < j < |rows| ==> !(rows[j].operation == operation && rows[j].key.None?)) ==>
              FindPair(rows, operation) == Some(rows[i])
  {
    if rows != [] {
      var init, last := rows[..|rows| - 1], rows[|rows| - 1];
      PairIsFound(init, operation);
      assert rows == init + [last];
      assert forall i :: 0 <= i < |init| ==> init[i] == rows[i];
    }
  }

  /** All money set aside in accounts that exist is in one currency. */
  ghost predicate OneCurrency(p: Pots, currency: string) {
    forall r <- p.rows :: r.account.Some? && r.account.value in p.books.accounts ==> p.books.accounts[r.account.value].currency == currency
  }

  lemma CurrencyChecks(p: Pots, currency: string)
    ensures CheckCurrency(p, currency).Ok? <==> OneCurrency(p, currency)
  {
    if OneCurrency(p, currency) {
      assert forall i :: 0 <= i < |p.rows| ==> p.rows[i] in p.rows;
    } else {
      var r :| r in p.rows && !(r.account.Some? && r.account.value in p.books.accounts ==> p.books.accounts[r.account.value].currency == currency);
      var i :| 0 <= i < |p.rows| && p.rows[i] == r;
      assert Foreign(p.books.accounts, p.rows[i], currency);
    }
  }

  // ---------------------------------------------------------------- assigning money an account holds

  /** Who may assign: a goal that exists and a tracked debit account in the one currency set aside, some amount and a key. */
  ghost predicate MayAssign(p: Pots, goal: Id, input: AssignInput) {
    && input.amount != 0 && input.key != "" && goal in p.goals
    && input.account in p.books.accounts && p.books.accounts[input.account].kind == Debit && p.books.accounts[input.account].tracking
    && OneCurrency(p, p.books.accounts[input.account].currency)
  }

  lemma AssignMay(p: Pots, goal: Id, input: AssignInput)
    requires PotsSound(p)
    ensures CheckAssign(p, goal, input).Ok? <==> MayAssign(p, goal, input)
    ensures MayAssign(p, goal, input) ==> p.books.accounts[input.account].balance.Some?
  {
    hide GoalsAgree, RecordsBacked, Stamped, DatesAgree, RecordsTracked, SharesLinked, OneCurrency, CheckCurrency;
    if input.account in p.books.accounts {
      AccountOf(p.books, input.account);
      CurrencyChecks(p, p.books.accounts[input.account].currency);
    }
  }

  /** Under a key no row has, money is assigned exactly while the account's balance covers all that is assigned in it, and
      released exactly up to what the goal holds there. One row is written and the goal moves by the amount; no other
      goal and no balance does. */
  lemma AssigningMeans(p: Pots, goal: Id, input: AssignInput)
    requires PotsSound(p) && forall r <- p.rows :: r.key != Some(input.key)
    ensures Allocate(p, goal, input).Ok?
            <==> && MayAssign(p, goal, input)
                 && (input.amount > 0 ==>
                       p.books.accounts[input.account].balance.Some?
                       && AssignedIn(p.rows, input.account) + input.amount <= p.books.accounts[input.account].balance.value)
                 && (input.amount < 0 ==> -input.amount <= Held(p.rows, goal, Some(input.account)))
    ensures Allocate(p, goal, input).Ok? ==>
              var g := p.goals[goal];
              var moved := Goal(g.target, g.current + input.amount, if g.account.None? then Some(input.account) else g.account,
                                g.current + input.amount >= g.target);
              Allocate(p, goal, input).value
              == Pots(p.books, p.goals[goal := moved],
                      p.rows + [Allocation(goal, Some(input.account), input.amount, if input.amount > 0 then Assigned else Released, input.on,
                                           Some(input.key), None, p.tick)],
                      p.reconciliations, p.reconciledOn, p.keys, p.incomeCategories, p.tick + 1)
  {
    hide PotsSound, CheckAssign, OneCurrency, FindKey, Held, AssignedIn;
    AssignMay(p, goal, input);
    KeyIsFound(p.rows, input.key);
    if MayAssign(p, goal, input) {
      AssignIsAccepted(p, goal, input);
    }
  }

  /** Under a used key nothing is written: the request is accepted exactly if the last row of the key is the one it would
      have written, and in conflict otherwise. */
  lemma AssigningAgain(p: Pots, goal: Id, input: AssignInput, i: nat)
    requires PotsSound(p) && i < |p.rows| && p.rows[i].key == Some(input.key)
    requires forall j :: i < j < |p.rows| ==> p.rows[j].key != Some(input.key)
    ensures Allocate(p, goal, input).Ok?
            <==> MayAssign(p, goal, input)
                 && p.rows[i].goal == goal && p.rows[i].account == Some(input.account) && p.rows[i].amount == input.amount
                 && p.rows[i].on == input.on && p.rows[i].kind == (if input.amount > 0 then Assigned else Released)
    ensures Allocate(p, goal, input).Ok? ==> Allocate(p, goal, input).value == p
    ensures MayAssign(p, goal, input) && Allocate(p, goal, input).Err? ==> Allocate(p, goal, input).error == IdempotencyConflict
  {
    hide PotsSound, CheckAssign, MayAssign, FindKey;
    AssignMay(p, goal, input);
    KeyIsFound(p.rows, input.key);
  }

  // ---------------------------------------------------------------- moving money between goals

  /** Who may reallocate: two different goals and a tracked debit account in the one currency set aside. */
  ghost predicate MayMove(p: Pots, from: Id, input: MoveInput) {
    && from != input.to && input.amount >= 1 && input.key != "" && from in p.goals && input.to in p.goals
    && input.account in p.books.accounts && p.books.accounts[input.account].kind == Debit && p.books.accounts[input.account].tracking
    && OneCurrency(p, p.books.accounts[input.account].currency)
  }

  lemma MoveMay(p: Pots, from: Id, input: MoveInput)
    ensures CheckMove(p, from, input).Ok? <==> MayMove(p, from, input)
  {
    hide OneCurrency, CheckCurrency;
    if input.account in p.books.accounts {
      CurrencyChecks(p, p.books.accounts[input.account].currency);
    }
  }

  /** Under a key no row has, money moves exactly while the first goal holds it in the account. The two rows of one operation
      are written, the first with the key; one goal falls and the other rises by the amount, and nothing else moves. */
  lemma MovingMeans(p: Pots, from: Id, input: MoveInput)
    requires PotsSound(p) && forall r <- p.rows :: r.key != Some(input.key)
    ensures Reallocate(p, from, input).Ok? <==> MayMove(p, from, input) && input.amount <= Held(p.rows, from, Some(input.account))
    ensures Reallocate(p, from, input).Ok? ==>
              var f, g := p.goals[from], p.goals[input.to];
              var lowered := Goal(f.target, f.current - input.amount, f.account, f.current - input.amount >= f.target);
              var raised := Goal(g.target, g.current + input.amount, if g.account.None? then Some(input.account) else g.account,
                                 g.current + input.amount >= g.target);
              Reallocate(p, from, input).value
              == Pots(p.books, p.goals[from := lowered][input.to := raised],
                      p.rows + [Allocation(from, Some(input.account), -input.amount, Moved, input.on, Some(input.key), None, p.tick),
                                Allocation(input.to, Some(input.account), input.amount, Moved, input.on, None, None, p.tick)],
                      p.reconciliations, p.reconciledOn, p.keys, p.incomeCategories, p.tick + 1)
  {
    hide PotsSound, CheckMove, FindKey, Held;
    MoveMay(p, from, input);
    KeyIsFound(p.rows, input.key);
    if MayMove(p, from, input) {
      MoveIsAccepted(p, from, input);
      if MoveAnew(p, from, input).Ok? {
        var f := p.goals[from];
        assert f.(current := f.current - input.amount, completed := f.current - input.amount >= f.target,
                  account := if f.account.None? then None else f.account).account == f.account;
      }
    }
  }

  /** Under a used key nothing is written: the request is accepted exactly if the last row of the key and the last row without
      a key of its operation are the two it would have written, and in conflict otherwise. */
  lemma MovingAgain(p: Pots, from: Id, input: MoveInput, i: nat)
    requires i < |p.rows| && p.rows[i].key == Some(input.key) && forall j :: i < j < |p.rows| ==> p.rows[j].key != Some(input.key)
    ensures Reallocate(p, from, input).Ok?
            <==> && MayMove(p, from, input)
                 && p.rows[i].goal == from && p.rows[i].account == Some(input.account) && p.rows[i].amount == -input.amount
                 && p.rows[i].on == input.on
                 && exists k :: 0 <= k < |p.rows| && p.rows[k].operation == p.rows[i].operation && p.rows[k].key.None?
                                && (forall j :: k < j < |p.rows| ==> !(p.rows[j].operation == p.rows[i].operation && p.rows[j].key.None?))
                                && p.rows[k].goal == input.to && p.rows[k].amount == input.amount
    ensures Reallocate(p, from, input).Ok? ==> Reallocate(p, from, input).value == p
    ensures MayMove(p, from, input) && Reallocate(p, from, input).Err? ==> Reallocate(p, from, input).error == IdempotencyConflict
  {
    hide CheckMove, MayMove, FindKey, FindPair;
    MoveMay(p, from, input);
    KeyIsFound(p.rows, input.key);
    PairIsFound(p.rows, p.rows[i].operation);
    LastPair(p.rows, p.rows[i].operation);
  }

  lemma {:induction false} LastPair(rows: seq<Allocation>, operation: nat)
    ensures FindPair(rows, operation).Some? ==>
              exists k :: 0 <= k < |rows| && rows[k].operation == operation && rows[k].key.None?
                          && (forall j :: k < j < |rows| ==> !(rows[j].operation == operation && rows[j].key.None?))
                          && FindPair(rows, operation) == Some(rows[k])
  {
    if rows != [] {
      var init, last := rows[..|rows| - 1], rows[|rows| - 1];
      LastPair(init, operation);
      if last.operation == operation && last.key.None? {
        assert rows[|rows| - 1] == last;
      } else if FindPair(init, operation).Some? {
        var k :| 0 <= k < |init| && init[k].operation == operation && init[k].key.None?
                 && (forall j :: k < j < |init| ==> !(init[j].operation == operation && init[j].key.None?))
                 && FindPair(init, operation) == Some(init[k]);
        assert rows[k] == init[k];
      }
    }
  }

  // ---------------------------------------------------------------- saving into a goal

  /** Who may save: a goal that exists and two different tracked debit accounts, both in the one currency set aside. */
  ghost predicate MaySave(p: Pots, goal: Id, input: SaveInput) {
    && input.source != input.destination && input.amount >= 1 && (exists c <- input.description :: !IsSpace(c)) && input.key != ""
    && goal in p.goals && input.source in p.books.accounts && input.destination in p.books.accounts
    && var source, destination := p.books.accounts[input.source], p.books.accounts[input.destination];
    && source.kind == Debit && destination.kind == Debit && source.tracking && destination.tracking
    && source.currency == destination.currency && OneCurrency(p, destination.currency)
  }

  lemma SaveMay(p: Pots, goal: Id, input: SaveInput)
    ensures CheckSave(p, goal, input).Ok? && ValidateAccounts(p.books, SaveTransfer(input)).Ok? <==> MaySave(p, goal, input)
  {
    hide OneCurrency, CheckCurrency, Trim;
    if input.destination in p.books.accounts {
      CurrencyChecks(p, p.books.accounts[input.destination].currency);
    }
  }

  /** Under a key no stored transaction has, saving moves the amount from one account to the other, and to the goal: one
      transfer with its two entries, one row that names it, one goal raised. */
  lemma SavingMeans(p: Pots, goal: Id, input: SaveInput)
    requires PotsSound(p) && !(input.key in p.keys && p.keys[input.key] in p.books.transactions)
    ensures Save(p, goal, input).Ok? <==> MaySave(p, goal, input)
    ensures Save(p, goal, input).Ok? ==>
              var b, g := p.books, p.goals[goal];
              var source, destination := b.accounts[input.source], b.accounts[input.destination];
              var transfer := Transaction(input.source, Transfer, input.amount, None, input.on, Trim(input.description),
                                          Some(input.destination), None, true, None);
              && source.balance.Some? && destination.balance.Some?
              && Save(p, goal, input).value
                 == Pots(Books(b.accounts[input.source := source.(balance := Some(source.balance.value - input.amount))]
                                         [input.destination := destination.(balance := Some(destination.balance.value + input.amount))],
                               b.transactions[b.nextId := transfer],
                               b.entries + [Entry(input.source, OfTransaction(b.nextId), -input.amount),
                                            Entry(input.destination, OfTransaction(b.nextId), input.amount)],
                               b.purchases, b.statements, b.managers[b.nextId := SavingsAllocation], b.nextId + 1),
                         p.goals[goal := Goal(g.target, g.current + input.amount,
                                              if g.account.None? then Some(input.destination) else g.account,
                                              g.current + input.amount >= g.target)],
                         p.rows + [Allocation(goal, Some(input.destination), input.amount, Saved, input.on, None, Some(b.nextId), p.tick)],
                         p.reconciliations, p.reconciledOn, p.keys[input.key := b.nextId], p.incomeCategories, p.tick + 1)
  {
    hide Consistent, GoalsAgree, RecordsBacked, Stamped, DatesAgree, RecordsTracked, SharesLinked, CheckSave, MaySave, Trim, IsBlank, CreateManaged,
         ValidateAccounts;
    SaveMay(p, goal, input);
    if CheckSave(p, goal, input).Ok? {
      SaveIsAccepted(p, goal, input);
      CheckedSave(p, goal, input);
      TransferCreation(p.books, SaveTransfer(input), SavingsAllocation);
      if MaySave(p, goal, input) {
        SaveNeedsCurrency(p, goal, input);
      }
    }
  }

  lemma SaveNeedsCurrency(p: Pots, goal: Id, input: SaveInput)
    requires MaySave(p, goal, input)
    ensures p.books.accounts[input.source].currency == p.books.accounts[input.destination].currency
  {
  }

  /** Under the key of a stored transaction nothing is written: the request is accepted exactly if that transaction is the
      transfer it would have made and the last row behind it the row it would have written, and in conflict otherwise. */
  lemma SavingAgain(p: Pots, goal: Id, input: SaveInput)
    requires input.key in p.keys && p.keys[input.key] in p.books.transactions
    ensures var t := p.keys[input.key];
            Save(p, goal, input).Ok?
            <==> && MaySave(p, goal, input)
                 && p.books.transactions[t] == Transaction(input.source, Transfer, input.amount, None, input.on, Trim(input.description),
                                                           Some(input.destination), None, true, None)
                 && exists i :: 0 <= i < |p.rows| && p.rows[i].transaction == Some(t)
                                && (forall j :: i < j < |p.rows| ==> p.rows[j].transaction != Some(t))
                                && p.rows[i].goal == goal && p.rows[i].account == Some(input.destination) && p.rows[i].amount == input.amount
    ensures Save(p, goal, input).Ok? ==> Save(p, goal, input).value == p
    ensures MaySave(p, goal, input) && Save(p, goal, input).Err? ==> Save(p, goal, input).error == IdempotencyConflict
  {
    hide CheckSave, MaySave, Trim, IsBlank, ValidateAccounts, FindTransaction;
    SaveMay(p, goal, input);
    TransactionIsFound(p.rows, p.keys[input.key]);
    LastBehind(p.rows, p.keys[input.key]);
  }

  lemma {:induction false} LastBehind(rows: seq<Allocation>, t: Id)
    ensures FindTransaction(rows, t).Some? ==>
              exists i :: 0 <= i < |rows| && rows[i].transaction == Some(t)
                          && (forall j :: i < j < |rows| ==> rows[j].transaction != Some(t)) && FindTransaction(rows, t) == Some(rows[i])
  {
    if rows != [] {
      var init, last := rows[..|rows| - 1], rows[|rows| - 1];
      LastBehind(init, t);
      if last.transaction == Some(t) {
        assert rows[|rows| - 1] == last;
      } else if FindTransaction(init, t).Some? {
        var i :| 0 <= i < |init| && init[i].transaction == Some(t) && (forall j :: i < j < |init| ==> init[j].transaction != Some(t))
                 && FindTransaction(init, t) == Some(init[i]);
        assert rows[i] == init[i];
      }
    }
  }

  // ---------------------------------------------------------------- goals

  /** A goal starts empty, with a positive target; an edit changes what it was given and only a new target decides anew
      whether the goal is completed. */
  lemma GoalsMean(p: Pots, id: Id, target: int, current: int, newTarget: Option<int>, account: Option<Id>, newAccount: Option<Option<Id>>)
    ensures CreateGoal(p, target, current, account).Ok? <==> target >= 1 && current == 0
    ensures CreateGoal(p, target, current, account).Ok? ==>
              CreateGoal(p, target, current, account).value == p.(goals := p.goals[p.tick := Goal(target, 0, account, false)], tick := p.tick + 1)
    ensures UpdateGoal(p, id, newTarget, newAccount).Ok? <==> id in p.goals && (newTarget.Some? ==> newTarget.value >= 1)
    ensures UpdateGoal(p, id, newTarget, newAccount).Ok? ==>
              var g := p.goals[id];
              var target := if newTarget.Some? then newTarget.value else g.target;
              UpdateGoal(p, id, newTarget, newAccount).value
              == p.(goals := p.goals[id := Goal(target, g.current, if newAccount.Some? then newAccount.value else g.account,
                                                if newTarget.Some? then g.current >= target else g.completed)])
  {
  }
}
