/** Catching up with all recurring expenses of a user in one transaction: when it goes through, what each template
    records and what the accounts pay. */
module RecurringBatch {
  import opened Calendar
  import opened Common
  import opened Ledger
  import opened LedgerLaws
  import opened LedgerMeaning
  import opened ManagedLaws
  import opened Recurring

  datatype Household = Household(books: Books, templates: map<Id, Template>)

  predicate HouseholdSound(h: Household) {
    forall id <- h.templates :: OnSchedule(h.templates[id])
  }

  predicate IsDue(t: Template, today: Date) {
    t.active && !Before(today, t.next)
  }

  /** The due rows, in the order of the query: by next date, then by id. */
  ghost predicate DueRows(templates: map<Id, Template>, rows: seq<Id>, today: Date) {
    && (forall id :: id in rows <==> id in templates && IsDue(templates[id], today))
    && (forall i, j :: 0 <= i < j < |rows| ==>
          var a, b := templates[rows[i]].next, templates[rows[j]].next;
          Before(a, b) || (a == b && rows[i] < rows[j]))
  }

  predicate Listed(templates: map<Id, Template>, rows: seq<Id>) {
    && (forall id <- rows :: id in templates)
    && (forall i, j :: 0 <= i < j < |rows| ==> rows[i] != rows[j])
  }

  lemma DueRowsAreListed(templates: map<Id, Template>, rows: seq<Id>, today: Date)
    requires DueRows(templates, rows, today)
    ensures Listed(templates, rows)
  {
  }

  /** Catch up with some templates, one after another; the first refusal refuses all. */
  function CatchUpAll(h: Household, rows: seq<Id>, today: Date): Result<(Household, seq<seq<Posting>>)>
    requires HouseholdSound(h) && Listed(h.templates, rows)
    decreases |rows|
  {
    if rows == [] then Ok((h, []))
    else
      var done :- Materialize(h.books, h.templates[rows[0]], today);
      FirstIsDone(h, rows, today);
      var rest :- CatchUpAll(Household(done.0, h.templates[rows[0] := done.1]), rows[1..], today);
      Ok((rest.0, [done.2] + rest.1))
  }

  lemma FirstIsDone(h: Household, rows: seq<Id>, today: Date)
    requires HouseholdSound(h) && Listed(h.templates, rows) && rows != []
    requires Materialize(h.books, h.templates[rows[0]], today).Ok?
    ensures var done := Materialize(h.books, h.templates[rows[0]], today).value;
            var next := Household(done.0, h.templates[rows[0] := done.1]);
            HouseholdSound(next) && Listed(next.templates, rows[1..])
  {
    hide Materialize, Occurrence;
    MaterializesWhatIsDue(h.books, h.templates[rows[0]], today);
    RestIsListed(h.templates, rows, Materialize(h.books, h.templates[rows[0]], today).value.1);
  }

  lemma RestIsListed(templates: map<Id, Template>, rows: seq<Id>, t: Template)
    requires rows != [] && Listed(templates, rows)
    ensures Listed(templates[rows[0] := t], rows[1..]) && rows[0] !in rows[1..]
  {
    forall i, j | 0 <= i < j < |rows[1..]| ensures rows[1..][i] != rows[1..][j] {
      assert rows[1..][i] == rows[i + 1] && rows[1..][j] == rows[j + 1];
    }
  }

  // ---------------------------------------------------------------- what is recorded

  /** A template caught up with: its postings are exactly what was due, and it moves on to what is not. */
  ghost predicate CaughtUpFrom(before: Template, after: Template, postings: seq<Posting>, today: Date) {
    && after == before.(generated := after.generated, next := after.next) && OnSchedule(after)
    && Numbers(postings, before, before.generated, after.generated)
    && forall n: nat :: n >= before.generated ==> (n < after.generated <==> !Before(today, Occurrence(before.start, before.frequency, n)))
  }

  lemma CatchUpIsExact(b: Books, t: Template, today: Date)
    requires OnSchedule(t) && Materialize(b, t, today).Ok?
    ensures var (_, after, postings) := Materialize(b, t, today).value; CaughtUpFrom(t, after, postings, today)
  {
    hide Materialize, Occurrence;
    MaterializesWhatIsDue(b, t, today);
  }

  /** Each listed template records exactly what it had due, and the others stay. */
  lemma {:induction false} EachIsCaughtUp(h: Household, rows: seq<Id>, today: Date)
    requires HouseholdSound(h) && Listed(h.templates, rows) && CatchUpAll(h, rows, today).Ok?
    ensures var (after, postings) := CatchUpAll(h, rows, today).value;
            && after.templates.Keys == h.templates.Keys && HouseholdSound(after) && |postings| == |rows|
            && (forall id <- h.templates :: id !in rows ==> after.templates[id] == h.templates[id])
            && (forall i :: 0 <= i < |rows| ==> CaughtUpFrom(h.templates[rows[i]], after.templates[rows[i]], postings[i], today))
    decreases |rows|
  {
    hide Materialize, Occurrence, CaughtUpFrom;
    if rows != [] {
      var done := Materialize(h.books, h.templates[rows[0]], today).value;
      FirstIsDone(h, rows, today);
      CatchUpIsExact(h.books, h.templates[rows[0]], today);
      RestIsListed(h.templates, rows, done.1);
      var next := Household(done.0, h.templates[rows[0] := done.1]);
      EachIsCaughtUp(next, rows[1..], today);
      var (after, postings) := CatchUpAll(h, rows, today).value;
      forall i | 0 <= i < |rows| ensures CaughtUpFrom(h.templates[rows[i]], after.templates[rows[i]], postings[i], today) {
        if i > 0 {
          assert rows[1..][i - 1] == rows[i];
        }
      }
    }
  }

  lemma CaughtUpOneWay(before: Template, a: Template, b: Template, p: seq<Posting>, q: seq<Posting>, today: Date)
    requires CaughtUpFrom(before, a, p, today) && CaughtUpFrom(before, b, q, today)
    ensures a == b && |p| == |q|
  {
    hide Occurrence;
    var n := if a.generated < b.generated then a.generated else b.generated;
    assert n < a.generated <==> !Before(today, Occurrence(before.start, before.frequency, n));
    assert n < b.generated <==> !Before(today, Occurrence(before.start, before.frequency, n));
  }

  /** In whatever order the same rows come, the templates end the same. */
  lemma AnyOrderIsTheSame(h: Household, rows: seq<Id>, others: seq<Id>, today: Date)
    requires HouseholdSound(h) && Listed(h.templates, rows) && Listed(h.templates, others) && (forall id :: id in rows <==> id in others)
    requires CatchUpAll(h, rows, today).Ok? && CatchUpAll(h, others, today).Ok?
    ensures CatchUpAll(h, rows, today).value.0.templates == CatchUpAll(h, others, today).value.0.templates
  {
    hide CatchUpAll, CaughtUpFrom;
    EachIsCaughtUp(h, rows, today);
    EachIsCaughtUp(h, others, today);
    var (a, p) := CatchUpAll(h, rows, today).value;
    var (b, q) := CatchUpAll(h, others, today).value;
    forall id <- h.templates ensures a.templates[id] == b.templates[id] {
      if id in rows {
        var i :| 0 <= i < |rows| && rows[i] == id;
        var j :| 0 <= j < |others| && others[j] == id;
        CaughtUpOneWay(h.templates[id], a.templates[id], b.templates[id], p[i], q[j], today);
      }
    }
    assert a.templates == b.templates;
  }

  // ---------------------------------------------------------------- when it goes through, and what it costs

  /** An expense of the template is accepted. */
  predicate Payable(accounts: map<Id, Account>, t: Template) {
    t.account in accounts && t.amount > 0 && !IsBlank(t.description)
  }

  /** What an account pays for some expenses of a template. */
  function Cost(t: Template, expenses: nat, account: Id): int {
    if t.account == account then t.amount * expenses else 0
  }

  /** What an account pays for all of them. */
  function CostAll(templates: map<Id, Template>, rows: seq<Id>, postings: seq<seq<Posting>>, account: Id): int
    requires (forall id <- rows :: id in templates) && |rows| == |postings|
  {
    if rows == [] then 0
    else Cost(templates[rows[0]], |postings[0]|, account) + CostAll(templates, rows[1..], postings[1..], account)
  }

  lemma {:induction false} SameCost(templates: map<Id, Template>, others: map<Id, Template>, rows: seq<Id>, postings: seq<seq<Posting>>, account: Id)
    requires (forall id <- rows :: id in templates && id in others && templates[id] == others[id]) && |rows| == |postings|
    ensures CostAll(templates, rows, postings, account) == CostAll(others, rows, postings, account)
  {
    hide Cost;
    if rows != [] {
      SameCost(templates, others, rows[1..], postings[1..], account);
    }
  }

  lemma AfterTwice(a: Account, x: int, y: int)
    ensures After(After(a, x), y) == After(a, x + y) && After(a, 0) == a
  {
  }

  lemma OneExpense(b: Books, t: Template, due: Date)
    requires Consistent(b)
    ensures CreateTransaction(b, Expensed(t, due)).Ok? <==> Payable(b.accounts, t)
    ensures CreateTransaction(b, Expensed(t, due)).Ok? ==>
              var after := CreateTransaction(b, Expensed(t, due)).value;
              && Consistent(after) && after.accounts.Keys == b.accounts.Keys
              && forall id <- b.accounts :: after.accounts[id] == After(b.accounts[id], -Cost(t, 1, id))
  {
    hide CreateTransaction, Consistent, After;
    var x := Expensed(t, due);
    CreationMoves(b, x);
    if CreateTransaction(b, x).Ok? {
      PerformKeeps(b, NewTransaction(x));
      var after := CreateTransaction(b, x).value;
      forall id <- b.accounts ensures after.accounts[id] == After(b.accounts[id], -Cost(t, 1, id)) {
        assert Moved(x, id) == -Cost(t, 1, id);
      }
    }
  }

  /** A template is caught up with exactly when nothing is due or its expense is accepted, and its account pays for
      every occurrence recorded. */
  lemma {:induction false} CatchUpPays(b: Books, t: Template, today: Date)
    requires Consistent(b) && OnSchedule(t)
    ensures Materialize(b, t, today).Ok? <==> Before(today, t.next) || Payable(b.accounts, t)
    ensures Materialize(b, t, today).Ok? ==>
              var (after, _, postings) := Materialize(b, t, today).value;
              && Consistent(after) && after.accounts.Keys == b.accounts.Keys
              && forall id <- b.accounts :: after.accounts[id] == After(b.accounts[id], -Cost(t, |postings|, id))
    decreases MonthsDue(t, today)
  {
    hide CreateTransaction, Consistent, After, Occurrence, MonthsDue, IsBlank;
    if Before(today, t.next) {
      forall id <- b.accounts ensures b.accounts[id] == After(b.accounts[id], -Cost(t, 0, id)) {
        AfterTwice(b.accounts[id], 0, 0);
      }
    } else {
      AdvancingEnds(t, today);
      OneExpense(b, t, t.next);
      var made := CreateTransaction(b, Expensed(t, t.next));
      if made.Ok? {
        CatchUpPays(made.value, Advanced(t), today);
        var (after, _, postings) := Materialize(b, t, today).value;
        forall id <- b.accounts ensures after.accounts[id] == After(b.accounts[id], -Cost(t, |postings|, id)) {
          AfterTwice(b.accounts[id], -Cost(t, 1, id), -Cost(t, |postings| - 1, id));
          CostAdds(t, |postings| - 1, id);
        }
      }
    }
  }

  lemma CostAdds(t: Template, n: nat, account: Id)
    ensures Cost(t, n + 1, account) == Cost(t, 1, account) + Cost(t, n, account)
  {
  }

  predicate CanCatchUp(accounts: map<Id, Account>, t: Template, today: Date) {
    Before(today, t.next) || Payable(accounts, t)
  }

  /** One template first, then the rest, which it does not touch. */
  lemma FirstOfAll(h: Household, rows: seq<Id>, today: Date)
    requires Consistent(h.books) && HouseholdSound(h) && Listed(h.templates, rows) && rows != []
    ensures CanCatchUp(h.books.accounts, h.templates[rows[0]], today) <==> Materialize(h.books, h.templates[rows[0]], today).Ok?
    ensures Materialize(h.books, h.templates[rows[0]], today).Ok? ==>
              var done := Materialize(h.books, h.templates[rows[0]], today).value;
              var next := Household(done.0, h.templates[rows[0] := done.1]);
              && Consistent(next.books) && HouseholdSound(next) && Listed(next.templates, rows[1..])
              && next.books.accounts.Keys == h.books.accounts.Keys
              && (forall id <- rows[1..] :: next.templates[id] == h.templates[id])
              && (forall id <- h.books.accounts ::
                    next.books.accounts[id] == After(h.books.accounts[id], -Cost(h.templates[rows[0]], |done.2|, id)))
              && CatchUpAll(h, rows, today).Ok? == CatchUpAll(next, rows[1..], today).Ok?
              && (CatchUpAll(h, rows, today).Ok? ==>
                    var (after, postings) := CatchUpAll(next, rows[1..], today).value;
                    CatchUpAll(h, rows, today).value == (after, [done.2] + postings))
    ensures Materialize(h.books, h.templates[rows[0]], today).Err? ==> CatchUpAll(h, rows, today).Err?
  {
    hide Materialize, Consistent, After, Cost, Occurrence, Payable;
    CatchUpPays(h.books, h.templates[rows[0]], today);
    if Materialize(h.books, h.templates[rows[0]], today).Ok? {
      MaterializesWhatIsDue(h.books, h.templates[rows[0]], today);
      RestIsListed(h.templates, rows, Materialize(h.books, h.templates[rows[0]], today).value.1);
    }
  }

  lemma {:induction false} AllCanCatchUp(h: Household, rows: seq<Id>, today: Date)
    requires Consistent(h.books) && HouseholdSound(h) && Listed(h.templates, rows)
    ensures CatchUpAll(h, rows, today).Ok? <==> forall id <- rows :: CanCatchUp(h.books.accounts, h.templates[id], today)
    decreases |rows|
  {
    hide Materialize, Consistent, After, Occurrence, Cost, IsBlank, Before;
    if rows != [] {
      FirstOfAll(h, rows, today);
      if Materialize(h.books, h.templates[rows[0]], today).Ok? {
        var done := Materialize(h.books, h.templates[rows[0]], today).value;
        var next := Household(done.0, h.templates[rows[0] := done.1]);
        AllCanCatchUp(next, rows[1..], today);
        forall id <- rows[1..] ensures CanCatchUp(h.books.accounts, h.templates[id], today) == CanCatchUp(next.books.accounts, next.templates[id], today) {
        }
        assert forall id <- rows :: id == rows[0] || id in rows[1..];
      } else {
        assert rows[0] in rows;
      }
    }
  }

  lemma NothingToCatchUp(h: Household, today: Date)
    requires HouseholdSound(h)
    ensures Listed(h.templates, []) && CatchUpAll(h, [], today) == Ok((h, []))
  {
  }

  /** Every account pays for the expenses its templates recorded, and for nothing else. */
  lemma {:induction false} AllArePaid(h: Household, rows: seq<Id>, today: Date)
    requires Consistent(h.books) && HouseholdSound(h) && Listed(h.templates, rows) && CatchUpAll(h, rows, today).Ok?
    ensures var (after, postings) := CatchUpAll(h, rows, today).value;
            && |postings| == |rows| && Consistent(after.books) && after.books.accounts.Keys == h.books.accounts.Keys
            && forall id <- h.books.accounts ::
                 after.books.accounts[id] == After(h.books.accounts[id], -CostAll(h.templates, rows, postings, id))
    decreases |rows|
  {
    hide Materialize, Consistent, After, Occurrence, Cost, Payable, Before, CatchUpAll, CanCatchUp;
    if rows == [] {
      NothingToCatchUp(h, today);
      forall id <- h.books.accounts ensures h.books.accounts[id] == After(h.books.accounts[id], -CostAll(h.templates, [], [], id)) {
        AfterTwice(h.books.accounts[id], 0, 0);
      }
    } else {
      FirstOfAll(h, rows, today);
      var done := Materialize(h.books, h.templates[rows[0]], today).value;
      var next := Household(done.0, h.templates[rows[0] := done.1]);
      AllArePaid(next, rows[1..], today);
      var (after, postings) := CatchUpAll(h, rows, today).value;
      forall id <- h.books.accounts ensures after.books.accounts[id] == After(h.books.accounts[id], -CostAll(h.templates, rows, postings, id)) {
        AfterTwice(h.books.accounts[id], -Cost(h.templates[rows[0]], |done.2|, id), -CostAll(next.templates, rows[1..], postings[1..], id));
        SameCost(next.templates, h.templates, rows[1..], postings[1..], id);
      }
    }
  }

  /** The catch-up of everything due goes through exactly when every due template can be paid: the first refusal refuses
      all. Then no active template has anything due, and paused ones stay as they are. */
  lemma HouseholdCatchesUp(h: Household, rows: seq<Id>, today: Date)
    requires Consistent(h.books) && HouseholdSound(h) && DueRows(h.templates, rows, today)
    ensures Listed(h.templates, rows)
    ensures CatchUpAll(h, rows, today).Ok? <==> forall id <- rows :: Payable(h.books.accounts, h.templates[id])
    ensures CatchUpAll(h, rows, today).Ok? ==>
              var (after, postings) := CatchUpAll(h, rows, today).value;
              && after.templates.Keys == h.templates.Keys
              && (forall id <- h.templates :: h.templates[id].active ==> CaughtUp(after.templates[id], today))
              && (forall id <- h.templates :: !h.templates[id].active ==> after.templates[id] == h.templates[id])
  {
    hide Consistent, Occurrence, CatchUpAll, Payable, Listed, CaughtUpFrom, CaughtUp;
    DueRowsAreListed(h.templates, rows, today);
    AllCanCatchUp(h, rows, today);
    if CatchUpAll(h, rows, today).Ok? {
      EachIsCaughtUp(h, rows, today);
      var (after, postings) := CatchUpAll(h, rows, today).value;
      forall id <- h.templates | h.templates[id].active ensures CaughtUp(after.templates[id], today) {
        if id in rows {
          var i :| 0 <= i < |rows| && rows[i] == id;
          FromIsCaughtUp(h.templates[id], after.templates[id], postings[i], today);
        } else {
          NotDueIsCaughtUp(h.templates[id], today);
        }
      }
    }
  }

  /** What could be paid when a template was accepted can always be paid: its account stays. */
  lemma {:induction false} PayableStays(b: Books, requests: seq<Request>, t: Template)
    requires Consistent(b) && Payable(b.accounts, t)
    ensures Consistent(Run(b, requests)) && Payable(Run(b, requests).accounts, t)
    decreases |requests|
  {
    hide Consistent, Perform, IsBlank;
    if requests != [] {
      var performed := Perform(b, requests[0]);
      if performed.Ok? {
        PerformKeeps(b, requests[0]);
        AccountsPersist(b, requests[0]);
      }
      PayableStays(Committed(b, performed), requests[1..], t);
    }
  }

  /** Whatever happens to the ledger after the templates were accepted, their catch-up goes through. */
  lemma AcceptedTemplatesCatchUp(h: Household, requests: seq<Request>, rows: seq<Id>, today: Date)
    requires Consistent(h.books) && HouseholdSound(h) && DueRows(h.templates, rows, today)
    requires forall id <- h.templates :: Payable(h.books.accounts, h.templates[id])
    ensures Listed(h.templates, rows)
    ensures CatchUpAll(Household(Run(h.books, requests), h.templates), rows, today).Ok?
  {
    hide Consistent, Occurrence, CatchUpAll, Payable, Listed, OnSchedule;
    RunKeeps(h.books, requests);
    forall id <- rows ensures Payable(Run(h.books, requests).accounts, h.templates[id]) {
      PayableStays(h.books, requests, h.templates[id]);
    }
    HouseholdCatchesUp(Household(Run(h.books, requests), h.templates), rows, today);
  }

  lemma FromIsCaughtUp(before: Template, after: Template, postings: seq<Posting>, today: Date)
    requires CaughtUpFrom(before, after, postings, today)
    ensures CaughtUp(after, today)
  {
    hide Occurrence;
  }

  lemma NotDueIsCaughtUp(t: Template, today: Date)
    requires OnSchedule(t) && Before(today, t.next)
    ensures CaughtUp(t, today)
  {
    hide Occurrence;
    forall n: nat | n >= t.generated ensures Before(today, Occurrence(t.start, t.frequency, n)) {
      LaterOccurrence(t, today, n);
    }
  }

  // ---------------------------------------------------------------- the agenda of each template

  /** What a batch recorded for one template. */
  function PostingsOf(rows: seq<Id>, postings: seq<seq<Posting>>, id: Id): seq<Posting>
    requires |rows| == |postings|
  {
    if rows == [] then [] else if rows[0] == id then postings[0] else PostingsOf(rows[1..], postings[1..], id)
  }

  lemma {:induction false} PostingsOfRow(rows: seq<Id>, postings: seq<seq<Posting>>, i: nat)
    requires |rows| == |postings| && i < |rows| && forall k :: 0 <= k < i ==> rows[k] != rows[i]
    ensures PostingsOf(rows, postings, rows[i]) == postings[i]
  {
    if i > 0 {
      PostingsOfRow(rows[1..], postings[1..], i - 1);
    }
  }

  lemma {:induction false} PostingsOfOther(rows: seq<Id>, postings: seq<seq<Posting>>, id: Id)
    requires |rows| == |postings| && id !in rows
    ensures PostingsOf(rows, postings, id) == []
  {
    if rows != [] {
      PostingsOfOther(rows[1..], postings[1..], id);
    }
  }

  /** A batch leaves each agenda sound, as its own catch-up would. */
  lemma BatchKeeps(a: Agenda, h: Household, id: Id, rows: seq<Id>, today: Date)
    requires AgendaSound(a) && !Before(today, a.clock) && HouseholdSound(h) && id in h.templates && h.templates[id] == a.template
    requires Listed(h.templates, rows) && CatchUpAll(h, rows, today).Ok?
    ensures var (after, postings) := CatchUpAll(h, rows, today).value;
            && |postings| == |rows| && after.templates.Keys == h.templates.Keys
            && AgendaSound(Agenda(after.books, after.templates[id], a.posted + PostingsOf(rows, postings, id), today))
  {
    hide CatchUpAll, Occurrence, NoneTwice, CaughtUpFrom, PostingsOf;
    EachIsCaughtUp(h, rows, today);
    var (after, postings) := CatchUpAll(h, rows, today).value;
    if id in rows {
      var i :| 0 <= i < |rows| && rows[i] == id;
      PostingsOfRow(rows, postings, i);
      CaughtUpKeeps(a, after.books, after.templates[id], postings[i], today);
    } else {
      PostingsOfOther(rows, postings, id);
      Later(a, after.books, today);
      assert a.posted + [] == a.posted;
    }
  }

  lemma CaughtUpKeeps(a: Agenda, books: Books, after: Template, postings: seq<Posting>, today: Date)
    requires AgendaSound(a) && !Before(today, a.clock) && CaughtUpFrom(a.template, after, postings, today)
    ensures AgendaSound(Agenda(books, after, a.posted + postings, today))
  {
    hide Occurrence, NoneTwice;
    MorePostings(a, postings, after.generated, today);
  }

  /** Time passes, and the books change. */
  lemma Later(a: Agenda, books: Books, today: Date)
    requires AgendaSound(a) && !Before(today, a.clock)
    ensures AgendaSound(Agenda(books, a.template, a.posted, today))
  {
    hide Occurrence, NoneTwice;
    MorePostings(a, [], a.template.generated, today);
    assert a.posted + [] == a.posted;
  }

  // ---------------------------------------------------------------- a batch is a run

  /** The expenses another template recorded, as requests of the ledger. */
  function ExpensesOf(t: Template, postings: seq<Posting>): seq<Visit> {
    if postings == [] then []
    else [Meanwhile(NewTransaction(Expensed(t, Occurrence(t.start, t.frequency, postings[0].number))))] + ExpensesOf(t, postings[1..])
  }

  lemma {:induction false} AttendJoins(a: Agenda, first: seq<Visit>, second: seq<Visit>)
    requires AgendaSound(a)
    ensures AgendaSound(AttendAll(a, first))
    ensures AttendAll(a, first + second) == AttendAll(AttendAll(a, first), second)
    decreases |first|
  {
    hide Attend, NoneTwice, Occurrence;
    AttendAllKeeps(a, first);
    if first == [] {
      assert first + second == second;
    } else {
      assert (first + second)[1..] == first[1..] + second;
      if Attend(a, first[0]).Ok? {
        AttendKeeps(a, first[0]);
        AttendJoins(Attend(a, first[0]).value, first[1..], second);
      } else {
        AttendJoins(a, first[1..], second);
      }
    }
  }

  lemma OneVisit(a: Agenda, v: Visit)
    requires AgendaSound(a) && Attend(a, v).Ok?
    ensures AgendaSound(Attend(a, v).value) && AttendAll(a, [v]) == Attend(a, v).value
  {
    hide Attend, AgendaSound;
    AttendKeeps(a, v);
    assert [v][1..] == [];
  }

  /** For one template the catch-up of another is a run of expenses. */
  lemma {:induction false} OthersAreRequests(a: Agenda, t: Template, today: Date)
    requires AgendaSound(a) && OnSchedule(t) && Materialize(a.books, t, today).Ok?
    ensures var (after, _, postings) := Materialize(a.books, t, today).value;
            AttendAll(a, ExpensesOf(t, postings)) == a.(books := after)
    decreases MonthsDue(t, today)
  {
    hide CreateTransaction, MonthsDue, AgendaSound, AttendAll, Occurrence;
    if Before(today, t.next) {
      NoVisits(a);
    } else {
      AdvancingEnds(t, today);
      var x := Expensed(t, t.next);
      var made := CreateTransaction(a.books, x).value;
      var (after, _, postings) := Materialize(a.books, t, today).value;
      var first := Meanwhile(NewTransaction(x));
      OneVisit(a, first);
      OthersAreRequests(a.(books := made), Advanced(t), today);
      SameExpenses(t, postings[1..]);
      AttendJoins(a, [first], ExpensesOf(Advanced(t), postings[1..]));
    }
  }

  lemma NoVisits(a: Agenda)
    requires AgendaSound(a)
    ensures AttendAll(a, []) == a
  {
  }

  lemma {:induction false} SameExpenses(t: Template, postings: seq<Posting>)
    ensures ExpensesOf(t, postings) == ExpensesOf(Advanced(t), postings)
  {
    hide Occurrence;
    if postings != [] {
      SameExpenses(t, postings[1..]);
    }
  }

  /** The catch-up of a whole household as the visits of one of its templates: its own catch-up among the expenses of
      the others. */
  function VisitsOf(h: Household, rows: seq<Id>, id: Id, postings: seq<seq<Posting>>, today: Date): seq<Visit>
    requires (forall row <- rows :: row in h.templates) && |postings| == |rows|
  {
    if rows == [] then []
    else
      (if rows[0] == id then [CatchUp(today)] else ExpensesOf(h.templates[rows[0]], postings[0]))
      + VisitsOf(h, rows[1..], id, postings[1..], today)
  }

  lemma {:induction false} SameVisits(h: Household, k: Household, rows: seq<Id>, id: Id, postings: seq<seq<Posting>>, today: Date)
    requires |postings| == |rows| && forall row <- rows :: row in h.templates && row in k.templates && h.templates[row] == k.templates[row]
    ensures VisitsOf(h, rows, id, postings, today) == VisitsOf(k, rows, id, postings, today)
  {
    hide ExpensesOf;
    if rows != [] {
      SameVisits(h, k, rows[1..], id, postings[1..], today);
    }
  }

  lemma OwnCatchUp(a: Agenda, today: Date)
    requires AgendaSound(a) && !Before(today, a.clock) && a.template.active && Materialize(a.books, a.template, today).Ok?
    ensures var done := Materialize(a.books, a.template, today).value;
            && AttendAll(a, [CatchUp(today)]) == Agenda(done.0, done.1, a.posted + done.2, today)
            && AgendaSound(Agenda(done.0, done.1, a.posted + done.2, today)) && done.1.active
  {
    hide Occurrence, NoneTwice, CreateTransaction, Materialize;
    assert a.posted + [] == a.posted;
    MaterializesWhatIsDue(a.books, a.template, today);
    NothingRecorded(a.books, a.template, today);
    OneVisit(a, CatchUp(today));
  }

  lemma NothingRecorded(b: Books, t: Template, today: Date)
    requires OnSchedule(t)
    ensures Before(today, t.next) ==> Materialize(b, t, today) == Ok((b, t, []))
  {
  }

  /** The first row of a batch, and the rest. */
  lemma BatchUnfolds(h: Household, rows: seq<Id>, id: Id, today: Date)
    requires HouseholdSound(h) && Listed(h.templates, rows) && CatchUpAll(h, rows, today).Ok? && rows != []
    ensures rows[0] in h.templates && rows[0] !in rows[1..] && OnSchedule(h.templates[rows[0]])
    ensures Materialize(h.books, h.templates[rows[0]], today).Ok?
    ensures var done := Materialize(h.books, h.templates[rows[0]], today).value;
            var next := Household(done.0, h.templates[rows[0] := done.1]);
            && HouseholdSound(next) && Listed(next.templates, rows[1..]) && CatchUpAll(next, rows[1..], today).Ok?
            && var (after, postings) := CatchUpAll(next, rows[1..], today).value;
               && CatchUpAll(h, rows, today).value == (after, [done.2] + postings) && |postings| == |rows[1..]|
               && (forall row <- rows :: row in h.templates) && (forall row <- rows[1..] :: row in next.templates)
               && VisitsOf(h, rows, id, [done.2] + postings, today) ==
                  (if rows[0] == id then [CatchUp(today)] else ExpensesOf(h.templates[rows[0]], done.2))
                  + VisitsOf(next, rows[1..], id, postings, today)
               && PostingsOf(rows, [done.2] + postings, id) == (if rows[0] == id then done.2 else PostingsOf(rows[1..], postings, id))
  {
    hide Materialize, Occurrence, ExpensesOf, CaughtUpFrom;
    FirstIsDone(h, rows, today);
    var done := Materialize(h.books, h.templates[rows[0]], today).value;
    var next := Household(done.0, h.templates[rows[0] := done.1]);
    RestIsListed(h.templates, rows, done.1);
    EachIsCaughtUp(next, rows[1..], today);
    var postings := CatchUpAll(next, rows[1..], today).value.1;
    assert ([done.2] + postings)[1..] == postings;
    SameVisits(h, next, rows[1..], id, postings, today);
  }

  /** Every batch that goes through is, for each of its active templates, a run of visits: what holds of all runs of an
      agenda holds of batches. */
  lemma {:induction false} BatchIsARun(a: Agenda, h: Household, id: Id, rows: seq<Id>, today: Date)
    requires AgendaSound(a) && !Before(today, a.clock) && a.template.active
    requires HouseholdSound(h) && Listed(h.templates, rows) && CatchUpAll(h, rows, today).Ok?
    requires h.books == a.books && id in h.templates && h.templates[id] == a.template
    ensures var (after, postings) := CatchUpAll(h, rows, today).value;
            && |postings| == |rows| && id in after.templates && (forall row <- rows :: row in h.templates)
            && AttendAll(a, VisitsOf(h, rows, id, postings, today)) ==
               Agenda(after.books, after.templates[id], a.posted + PostingsOf(rows, postings, id), if id in rows then today else a.clock)
    decreases |rows|
  {
    hide *;
    if rows == [] {
      NoRows(a, h, id, today);
    } else {
      BatchUnfolds(h, rows, id, today);
      var done := Materialize(h.books, h.templates[rows[0]], today).value;
      var next := Household(done.0, h.templates[rows[0] := done.1]);
      var postings := CatchUpAll(next, rows[1..], today).value.1;
      var rest := VisitsOf(next, rows[1..], id, postings, today);
      if rows[0] == id {
        OwnCatchUp(a, today);
        var own := Agenda(done.0, done.1, a.posted + done.2, today);
        SameDay(today);
        BatchIsARun(own, next, id, rows[1..], today);
        PostingsOfOther(rows[1..], postings, id);
        assert (a.posted + done.2) + [] == a.posted + done.2;
        AttendJoins(a, [CatchUp(today)], rest);
      } else {
        OthersAreRequests(a, h.templates[rows[0]], today);
        MeanwhileKeeps(a, done.0);
        BatchIsARun(a.(books := done.0), next, id, rows[1..], today);
        AttendJoins(a, ExpensesOf(h.templates[rows[0]], done.2), rest);
      }
    }
  }

  lemma SameDay(today: Date)
    ensures !Before(today, today)
  {
  }

  lemma NoRows(a: Agenda, h: Household, id: Id, today: Date)
    requires AgendaSound(a) && HouseholdSound(h) && Listed(h.templates, [])
    ensures CatchUpAll(h, [], today) == Ok((h, [])) && VisitsOf(h, [], id, [], today) == [] && PostingsOf([], [], id) == []
    ensures AttendAll(a, []) == a && a.posted + [] == a.posted
  {
    hide Occurrence, NoneTwice, OnSchedule;
  }

  lemma MeanwhileKeeps(a: Agenda, books: Books)
    requires AgendaSound(a)
    ensures AgendaSound(a.(books := books))
  {
    hide Occurrence, NoneTwice;
  }
}
