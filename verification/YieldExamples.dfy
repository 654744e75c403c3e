/** A run of requests after which a yield reconciliation cannot be undone. */
module YieldExamples {
  import opened Calendar
  import opened Common
  import opened Ledger
  import opened LedgerLaws
  import opened Savings
  import opened SavingsLaws
  import opened YieldLaws

  const A_DAY: Date := CivilDate(2026, 1, 15)

  function Tracked(balance: int): Account {
    Account(Debit, "MXN", true, Some(balance), None, None, true, 0)
  }

  function Groceries(): Transaction {
    Transaction(0, Expense, 50, None, A_DAY, "groceries", None, None, true, None)
  }

  /** A hundred in an account, all of it assigned to a goal, then half of it spent. */
  function Overspending(): seq<Step> {
    [Elsewhere(NewAccount(Tracked(100))), NewGoal(1000, 0, None), AssignTo(0, AssignInput(0, 100, A_DAY, "assign")),
     Elsewhere(NewTransaction(Groceries()))]
  }

  /** Four requests a user can make lead to an account whose next reconciliation is accepted and then cannot be undone:
      the bank reports sixty, and undoing would leave fifty under a hundred assigned. */
  lemma OverspentIsNotUndone()
    ensures var p := TakeAll(EMPTY_POTS, Overspending());
            var input := YieldInput(A_DAY, 60, 0, None);
            ReconcileYield(p, 0, input, A_DAY).Ok? && UndoYield(ReconcileYield(p, 0, input, A_DAY).value, 0, p.tick).Err?
  {
    hide PotsSound, ReconcileYield, UndoYield, TakeAll, CheckYield, Overspending;
    var p, input := TakeAll(EMPTY_POTS, Overspending()), YieldInput(A_DAY, 60, 0, None);
    EmptyIsSound({});
    TakeAllKeeps(EMPTY_POTS, Overspending());
    Overspent();
    SoundBooks(p);
    ReconcileIsAccepted(p, 0, input, A_DAY);
    UndoRestores(p, 0, input, A_DAY);
  }

  lemma FourSteps(p: Pots, a: Step, b: Step, c: Step, d: Step)
    requires Take(p, a).Ok? && Take(Take(p, a).value, b).Ok? && Take(Take(Take(p, a).value, b).value, c).Ok?
    requires Take(Take(Take(Take(p, a).value, b).value, c).value, d).Ok?
    ensures TakeAll(p, [a, b, c, d]) == Take(Take(Take(Take(p, a).value, b).value, c).value, d).value
  {
    hide Take;
    var p1 := Take(p, a).value;
    var p2 := Take(p1, b).value;
    var p3 := Take(p2, c).value;
    assert [a, b, c, d][1..] == [b, c, d] && [b, c, d][1..] == [c, d] && [c, d][1..] == [d] && [d][1..] == [];
    assert TakeAll(p, [a, b, c, d]) == TakeAll(p1, [b, c, d]);
    assert TakeAll(p1, [b, c, d]) == TakeAll(p2, [c, d]);
    assert TakeAll(p2, [c, d]) == TakeAll(p3, [d]);
    assert TakeAll(p3, [d]) == TakeAll(Take(p3, d).value, []);
  }

  lemma Overspent()
    ensures var p := TakeAll(EMPTY_POTS, Overspending());
            && CheckYield(p, 0, YieldInput(A_DAY, 60, 0, None), A_DAY).Ok?
            && 0 in p.books.accounts && p.books.accounts[0].balance == Some(50) && AssignedIn(p.rows, 0) == 100
  {
    var account := Tracked(100);
    var p1 := EMPTY_POTS.(books := EMPTY_BOOKS.(accounts := map[0 := account], entries := [Entry(0, Opening, 100)], nextId := 1));
    FirstStep(p1);
    var p2 := p1.(goals := map[0 := Goal(1000, 0, None, false)], tick := 1);
    SecondStep(p1, p2);
    var row := Allocation(0, Some(0), 100, Assigned, A_DAY, Some("assign"), None, 1);
    var p3 := p2.(goals := map[0 := Goal(1000, 100, Some(0), false)], rows := [row], tick := 2);
    ThirdStep(p2, p3);
    var p4 := p3.(books := AfterGroceries());
    FourthStep(p3, p4);
    FourSteps(EMPTY_POTS, Overspending()[0], Overspending()[1], Overspending()[2], Overspending()[3]);
    assert [Overspending()[0], Overspending()[1], Overspending()[2], Overspending()[3]] == Overspending();
    hide Take, TakeAll, LiveKeys;
    assert TakeAll(EMPTY_POTS, Overspending()) == p4;
    assert AssignedIn([row], 0) == AssignedIn([], 0) + 100;
    assert !MovedLater(p4.books, 0, A_DAY);
    NextDayIsLater();
  }

  lemma NextDayIsLater()
    ensures !Before(NextDay(A_DAY), A_DAY)
  {
  }

  lemma FirstStep(p1: Pots)
    requires p1 == EMPTY_POTS.(books := EMPTY_BOOKS.(accounts := map[0 := Tracked(100)],
                                                     entries := [Entry(0, Opening, 100)], nextId := 1))
    ensures Take(EMPTY_POTS, Overspending()[0]) == Ok(p1)
  {
    assert Tracked(100).(active := true, trackedFrom := 0) == Tracked(100);
    assert EMPTY_BOOKS.accounts[0 := Tracked(100)] == map[0 := Tracked(100)];
    assert EMPTY_BOOKS.entries + [Entry(0, Opening, 100)] == [Entry(0, Opening, 100)];
    assert CreateAccount(EMPTY_BOOKS, Tracked(100)) == Ok(p1.books);
    assert LiveKeys(p1) == p1;
  }

  lemma SecondStep(p1: Pots, p2: Pots)
    requires p1.goals == map[] && p1.tick == 0 && p2 == p1.(goals := map[0 := Goal(1000, 0, None, false)], tick := 1)
    ensures Take(p1, Overspending()[1]) == Ok(p2)
  {
    assert p1.goals[0 := Goal(1000, 0, None, false)] == p2.goals;
  }

  lemma ThirdStep(p2: Pots, p3: Pots)
    requires p2.rows == [] && p2.goals == map[0 := Goal(1000, 0, None, false)] && p2.tick == 1
    requires p2.books.accounts == map[0 := Tracked(100)]
    requires p3 == p2.(goals := map[0 := Goal(1000, 100, Some(0), false)],
                       rows := [Allocation(0, Some(0), 100, Assigned, A_DAY, Some("assign"), None, 1)], tick := 2)
    ensures Take(p2, Overspending()[2]) == Ok(p3)
  {
    assert CheckAssign(p2, 0, AssignInput(0, 100, A_DAY, "assign")).Ok?;
    assert FindKey([], "assign").None? && AssignedIn([], 0) == 0;
    assert p2.goals[0 := Goal(1000, 100, Some(0), false)] == p3.goals;
    assert ApplyDelta(p2.goals, 0, 100, Some(0)) == Ok(p3.goals);
    var row := Allocation(0, Some(0), 100, Assigned, A_DAY, Some("assign"), None, 1);
    assert [] + [row] == [row];
  }

  lemma FourthStep(p3: Pots, p4: Pots)
    requires p3.keys == map[] && p3.books == BeforeGroceries() && p4 == p3.(books := AfterGroceries())
    ensures Take(p3, Overspending()[3]) == Ok(p4)
  {
    GroceriesAreBought();
    hide CreateTransaction, BeforeGroceries, AfterGroceries;
    assert LiveKeys(p4) == p4;
  }

  function BeforeGroceries(): Books {
    EMPTY_BOOKS.(accounts := map[0 := Tracked(100)], entries := [Entry(0, Opening, 100)], nextId := 1)
  }

  function AfterGroceries(): Books {
    EMPTY_BOOKS.(accounts := map[0 := Tracked(50)], transactions := map[1 := Groceries()],
                 entries := [Entry(0, Opening, 100), Entry(0, OfTransaction(1), -50)], nextId := 2)
  }

  lemma GroceriesAreBought()
    ensures CreateTransaction(BeforeGroceries(), Groceries()) == Ok(AfterGroceries())
  {
    var x, e := Groceries(), Entry(0, OfTransaction(1), -50);
    var b := BeforeGroceries().(nextId := 2, transactions := map[1 := x]);
    assert x.description[0] == 'g' && x.description[0] in x.description;
    assert ValidShape(x) && ValidateAccounts(BeforeGroceries().(nextId := 2), x).Ok?;
    assert BeforeGroceries().transactions[1 := x] == map[1 := x];
    OnePosted(b, e);
    assert [Entry(0, Opening, 100)] + [e] == [Entry(0, Opening, 100), e];
    assert b.accounts[0 := Tracked(50)] == AfterGroceries().accounts;
    assert MoveFunds(b.accounts, 0, -50) == Ok(AfterGroceries().accounts);
    assert Post(b, e) == Ok(AfterGroceries());
  }
}
