/** The recurring repository step by step: the date arithmetic of the source, and the loop that catches up. */
module RecurringStore {
  import opened Calendar
  import opened Common
  import opened Ledger
  import opened LedgerLaws
  import opened LedgerStore
  import opened Recurring
  import opened RecurringBatch

  /** `recurringOccurrenceDate`: months or years added to the start, the day clamped to the month. */
  method RecurringOccurrenceDate(start: Date, frequency: Frequency, occurrence: nat) returns (d: Date)
    ensures d == Occurrence(start, frequency, occurrence)
  {
    var year, month := start.year, start.month;
    match frequency {
      case Monthly =>
        var monthIndex := month - 1 + occurrence;
        year, month := year + monthIndex / 12, monthIndex % 12 + 1;
        SplitMonths(start, occurrence);
      case Yearly =>
        year := year + occurrence;
        InSameYear(start, occurrence);
        SplitYears(start, occurrence);
    }
    var lastDay := DaysInMonth(year, month);
    var day := start.day;
    if day > lastDay {
      day := lastDay;
    }
    d := CivilDate(year, month, day);
  }

  lemma SplitMonths(start: Date, n: nat)
    ensures (start.MonthIndex() + n) / 12 == start.year + (start.month - 1 + n) / 12
    ensures (start.MonthIndex() + n) % 12 == (start.month - 1 + n) % 12
  {
    var m := start.month - 1 + n;
    assert start.MonthIndex() + n == 12 * (start.year + m / 12) + m % 12;
  }

  lemma SplitYears(start: Date, n: nat)
    ensures (start.MonthIndex() + 12 * n) / 12 == start.year + n && (start.MonthIndex() + 12 * n) % 12 == start.month - 1
  {
    assert start.MonthIndex() + 12 * n == 12 * (start.year + n) + (start.month - 1);
  }

  /** `alignRecurringSchedule`: the first occurrence after today. */
  method AlignRecurringSchedule(start: Date, frequency: Frequency, today: Date) returns (occurrence: nat, candidate: Date)
    ensures occurrence == Aligned(start, frequency, today) && candidate == Occurrence(start, frequency, occurrence)
    ensures Before(today, candidate)
    ensures forall m :: 0 <= m < occurrence ==> !Before(today, Occurrence(start, frequency, m))
  {
    var counted := 0;
    match frequency {
      case Monthly => counted := (today.year - start.year) * 12 + (today.month - start.month);
      case Yearly => counted := today.year - start.year;
    }
    occurrence := if counted < 0 then 0 else counted;
    candidate := RecurringOccurrenceDate(start, frequency, occurrence);
    if !Before(today, candidate) {
      occurrence := occurrence + 1;
      candidate := RecurringOccurrenceDate(start, frequency, occurrence);
    }
    AlignedIsLeast(start, frequency, today);
  }

  /** `materializeRecurringTransaction`: record every occurrence of a template due up to today, and count them; the
      caller rolls back after an error. */
  method MaterializeDue(ledger: Store, existing: Template, today: Date) returns (r: Result<(Template, nat)>, ghost added: seq<Posting>)
    requires ledger.Valid() && OnSchedule(existing)
    modifies ledger
    ensures ledger.Valid()
    ensures var done := Materialize(old(ledger.Tables()), existing, today);
            && r == Answer(done, if done.Ok? then (done.value.1, |done.value.2|) else (existing, 0))
            && (r.Ok? ==> ledger.Tables() == done.value.0 && added == done.value.2)
  {
    hide Consistent, Ledger.CreateTransaction, Occurrence, MonthsDue, Materialize, Continues, Advanced;
    var template, created := existing, 0;
    added := [];
    ghost var all := Materialize(ledger.Tables(), template, today);
    NothingAdded(all);
    while !Before(today, template.next)
      invariant ledger.Valid() && OnSchedule(template) && created == |added|
      invariant Continues(all, added, Materialize(ledger.Tables(), template, today))
      decreases MonthsDue(template, today)
    {
      AdvancingEnds(template, today);
      ghost var before, t := ledger.Tables(), template;
      StepOfMaterialize(all, added, before, t, today);
      var due := template.next;
      var made := ledger.CreateTransaction(Expensed(template, due));
      if made.Err? {
        r := Err(made.error);
        return;
      }
      created := created + 1;
      added := added + [Posting(t.start, t.frequency, t.generated, made.value)];
      var next := RecurringOccurrenceDate(template.start, template.frequency, template.generated + 1);
      template := template.(generated := template.generated + 1, next := next);
      AdvancedForm(t);
    }
    NothingDue(all, added, ledger.Tables(), template, today);
    r := Ok((template, created));
  }

  /** The templates of a user beside the ledger. `posted` and `clock` are not stored. */
  class Templates {
    const ledger: Store
    var templates: map<Id, Template>
    ghost var posted: map<Id, seq<Posting>>
    ghost var clock: Date

    ghost function AgendaOf(id: Id): Agenda
      reads this, ledger
      requires id in templates && id in posted
    {
      Agenda(ledger.Tables(), templates[id], posted[id], clock)
    }

    ghost function Home(): Household
      reads this, ledger
    {
      Household(ledger.Tables(), templates)
    }

    ghost predicate Valid()
      reads this, ledger
    {
      && ledger.Valid() && posted.Keys == templates.Keys
      && forall id <- templates :: AgendaSound(AgendaOf(id))
    }

    constructor (ledger: Store, today: Date)
      requires ledger.Valid()
      ensures this.ledger == ledger && Valid() && templates == map[] && clock == today
    {
      this.ledger := ledger;
      templates, posted, clock := map[], map[], today;
    }

    /** A new template, under the id the database gives it. */
    method Create(id: Id, input: TemplateInput, today: Date)
      requires Valid() && !Before(today, clock) && id !in templates
      modifies this
      ensures Valid() && templates.Keys == old(templates).Keys + {id}
      ensures AgendaOf(id) == CreateTemplate(ledger.Tables(), input, today)
      ensures forall i <- old(templates) :: templates[i] == old(templates)[i] && posted[i] == old(posted)[i]
    {
      hide AgendaSound, Consistent;
      AllLater(ledger.Tables(), today);
      NewAgendaIsSound(ledger.Tables(), input, today);
      var t := Template(input.account, input.category, input.description, input.amount, input.frequency, input.start, input.start, 0, true);
      templates, posted, clock := templates[id := t], posted[id := []], today;
    }

    /** Catch up with all due templates, the rows of the query, in one transaction. */
    method Process(rows: seq<Id>, today: Date) returns (r: Result<nat>)
      requires Valid() && !Before(today, clock) && DueRows(templates, rows, today)
      modifies this, ledger
      ensures Valid()
      ensures HouseholdSound(old(Home())) && Listed(old(templates), rows)
      ensures var all := CatchUpAll(old(Home()), rows, today);
              if all.Err? then r == Err(all.error) && Home() == old(Home()) && posted == old(posted)
              else
                && |all.value.1| == |rows| && r == Ok(Recorded(all.value.1)) && Home() == all.value.0
                && posted.Keys == old(posted).Keys
                && forall id <- posted :: posted[id] == old(posted)[id] + PostingsOf(rows, all.value.1, id)
    {
      hide Consistent, Materialize, Occurrence, CatchUpAll, AgendaSound, ContinuesAll, Recorded, Listed, DueRows, PostingsOf, HouseholdSound, OnSchedule;
      ghost var home := Home();
      HomeIsSound();
      DueRowsAreListed(templates, rows, today);
      BatchIsSound(rows, today);
      var saved, savedTemplates, created := ledger.Tables(), templates, 0;
      ghost var all := CatchUpAll(home, rows, today);
      ghost var added: seq<seq<Posting>> := [];
      NothingCaughtUp(all);
      assert rows[0..] == rows;
      for i := 0 to |rows|
        invariant ledger.Valid() && HouseholdSound(Home()) && Listed(templates, rows[i..])
        invariant posted == old(posted) && clock == old(clock) && created == Recorded(added)
        invariant ContinuesAll(all, added, CatchUpAll(Home(), rows[i..], today))
      {
        ghost var h := Home();
        StepOfAll(all, added, h, rows, i, today);
        var made, postings := MaterializeDue(ledger, templates[rows[i]], today);
        if made.Err? {
          ledger.Rollback(saved);
          templates := savedTemplates;
          assert forall id <- templates :: AgendaOf(id) == old(AgendaOf(id));
          return Err(made.error);
        }
        templates := templates[rows[i] := made.value.0];
        created := created + made.value.1;
        RecordedMore(added, postings);
        added := added + [postings];
      }
      assert rows[|rows|..] == [];
      AllCaughtUp(all, added, Home(), today);
      posted, clock := map id <- posted :: posted[id] + PostingsOf(rows, added, id), today;
      r := Ok(created);
    }

    lemma HomeIsSound()
      requires Valid()
      ensures HouseholdSound(Home())
    {
      hide Consistent, NoneTwice, Occurrence;
      forall id <- templates ensures OnSchedule(templates[id]) {
        assert AgendaSound(AgendaOf(id));
      }
    }

    lemma AllLater(books: Books, today: Date)
      requires Valid() && !Before(today, clock)
      ensures forall id <- templates :: AgendaSound(Agenda(books, templates[id], posted[id], today))
    {
      hide Consistent, AgendaSound;
      forall id <- templates ensures AgendaSound(Agenda(books, templates[id], posted[id], today)) {
        assert AgendaSound(AgendaOf(id));
        Later(AgendaOf(id), books, today);
      }
    }

    lemma BatchIsSound(rows: seq<Id>, today: Date)
      requires Valid() && !Before(today, clock) && HouseholdSound(Home()) && Listed(templates, rows)
      ensures CatchUpAll(Home(), rows, today).Ok? ==>
                var (after, postings) := CatchUpAll(Home(), rows, today).value;
                && |postings| == |rows| && after.templates.Keys == templates.Keys
                && forall id <- templates ::
                     AgendaSound(Agenda(after.books, after.templates[id], posted[id] + PostingsOf(rows, postings, id), today))
    {
      hide Consistent, AgendaSound, CatchUpAll, PostingsOf, HouseholdSound, Listed, CaughtUpFrom;
      if CatchUpAll(Home(), rows, today).Ok? {
        EachIsCaughtUp(Home(), rows, today);
        var (after, postings) := CatchUpAll(Home(), rows, today).value;
        forall id <- templates
          ensures AgendaSound(Agenda(after.books, after.templates[id], posted[id] + PostingsOf(rows, postings, id), today))
        {
          assert AgendaSound(AgendaOf(id));
          BatchKeeps(AgendaOf(id), Home(), id, rows, today);
        }
      }
    }

    method Update(id: Id, input: TemplateInput, active: bool, materialize: bool, today: Date) returns (r: Result<()>)
      requires Valid() && !Before(today, clock)
      modifies this, ledger
      ensures Valid() && templates.Keys == old(templates).Keys
      ensures forall i <- old(templates) :: i != id ==> templates[i] == old(templates)[i] && posted[i] == old(posted)[i]
      ensures id !in old(templates) ==> r == Err(NotFound) && Home() == old(Home())
      ensures id in old(templates) ==> OnSchedule(old(templates)[id])
      ensures id in old(templates) ==>
                var updated := Recurring.Update(old(AgendaOf(id)), input, active, materialize, today);
                (r.Ok? <==> updated.Ok?) && AgendaOf(id) == Committed(old(AgendaOf(id)), updated)
    {
      hide Consistent, AgendaSound, Recurring.Update, OnSchedule;
      if id !in templates {
        return Err(NotFound);
      }
      ghost var before := AgendaOf(id);
      assert AgendaSound(before);
      UpdateIsSound(before, input, active, materialize, today);
      var saved := ledger.Tables();
      var made, added := UpdateRow(ledger, before, templates[id], input, active, materialize, today);
      if made.Err? {
        ledger.Rollback(saved);
        assert forall i <- templates :: AgendaOf(i) == old(AgendaOf(i));
        return Err(made.error);
      }
      ghost var books := ledger.Tables();
      forall i <- templates ensures AgendaSound(Agenda(books, templates[i], posted[i], today)) {
        assert AgendaSound(old(AgendaOf(i)));
        Later(old(AgendaOf(i)), books, today);
      }
      templates, posted, clock := templates[id := made.value], posted[id := posted[id] + added], today;
      r := Ok(());
    }
  }

  /** The row of a template, replaced; the caller rolls back after an error. */
  method UpdateRow(ledger: Store, ghost before: Agenda, existing: Template, input: TemplateInput, active: bool, materialize: bool, today: Date)
    returns (r: Result<Template>, ghost added: seq<Posting>)
    requires ledger.Valid() && OnSchedule(existing) && before.books == ledger.Tables() && before.template == existing
    modifies ledger
    ensures ledger.Valid()
    ensures var updated := Recurring.Update(before, input, active, materialize, today);
            if updated.Err? then r.Err?
            else r.Ok? && updated.value == Agenda(ledger.Tables(), r.value, before.posted + added, today)
  {
    hide Consistent, Materialize, Occurrence, Aligned;
    var template := existing;
    added := [];
    if materialize && existing.active && !Before(today, existing.next) {
      var made;
      made, added := MaterializeDue(ledger, existing, today);
      if made.Err? {
        r := Err(made.error);
        return;
      }
      template := made.value.0;
    }
    assert before.posted + [] == before.posted;
    var occurrences, next := template.generated, template.next;
    if existing.frequency != input.frequency || existing.start != input.start || (!existing.active && active) {
      occurrences, next := AlignRecurringSchedule(input.start, input.frequency, today);
    }
    r := Ok(Template(input.account, input.category, input.description, input.amount, input.frequency, input.start, next, occurrences, active));
  }

  lemma UpdateIsSound(a: Agenda, input: TemplateInput, active: bool, materialize: bool, today: Date)
    requires AgendaSound(a) && !Before(today, a.clock)
    ensures OnSchedule(a.template)
    ensures Recurring.Update(a, input, active, materialize, today).Ok? ==> AgendaSound(Recurring.Update(a, input, active, materialize, today).value)
  {
    hide Materialize, Occurrence, Aligned, NoneTwice;
    if Recurring.Update(a, input, active, materialize, today).Ok? {
      UpdateKeeps(a, input, active, materialize, today);
    }
  }

  /** How many occurrences a batch recorded. */
  function Recorded(postings: seq<seq<Posting>>): nat {
    if postings == [] then 0 else Recorded(postings[..|postings| - 1]) + |postings[|postings| - 1]|
  }

  lemma RecordedMore(postings: seq<seq<Posting>>, more: seq<Posting>)
    ensures Recorded(postings + [more]) == Recorded(postings) + |more|
  {
    assert (postings + [more])[..|postings|] == postings;
  }

  /** The whole batch, once some rows were caught up with and these are left. */
  ghost predicate ContinuesAll(all: Result<(Household, seq<seq<Posting>>)>, added: seq<seq<Posting>>, rest: Result<(Household, seq<seq<Posting>>)>) {
    if rest.Err? then all == rest
    else all.Ok? && all.value.0 == rest.value.0 && all.value.1 == added + rest.value.1
  }

  lemma NothingCaughtUp(all: Result<(Household, seq<seq<Posting>>)>)
    ensures ContinuesAll(all, [], all) && Recorded([]) == 0
  {
  }

  lemma AllCaughtUp(all: Result<(Household, seq<seq<Posting>>)>, added: seq<seq<Posting>>, h: Household, today: Date)
    requires HouseholdSound(h) && ContinuesAll(all, added, CatchUpAll(h, [], today))
    ensures all.Ok? && all.value.0 == h && all.value.1 == added
  {
    assert added + [] == added;
  }

  /** One turn of the batch loop. */
  lemma StepOfAll(all: Result<(Household, seq<seq<Posting>>)>, added: seq<seq<Posting>>, h: Household, rows: seq<Id>, i: nat, today: Date)
    requires HouseholdSound(h) && i < |rows| && Listed(h.templates, rows[i..])
    requires ContinuesAll(all, added, CatchUpAll(h, rows[i..], today))
    ensures rows[i] in h.templates && OnSchedule(h.templates[rows[i]])
    ensures var done := Materialize(h.books, h.templates[rows[i]], today);
            if done.Err? then all == Err(done.error)
            else
              var next := Household(done.value.0, h.templates[rows[i] := done.value.1]);
              && HouseholdSound(next) && Listed(next.templates, rows[i + 1..])
              && ContinuesAll(all, added + [done.value.2], CatchUpAll(next, rows[i + 1..], today))
  {
    hide Materialize, Occurrence;
    assert rows[i..][0] == rows[i] && rows[i..][1..] == rows[i + 1..];
    assert rows[i] in rows[i..];
    var done := Materialize(h.books, h.templates[rows[i]], today);
    if done.Ok? {
      FirstIsDone(h, rows[i..], today);
      var rest := CatchUpAll(Household(done.value.0, h.templates[rows[i] := done.value.1]), rows[i + 1..], today);
      if rest.Ok? {
        assert added + ([done.value.2] + rest.value.1) == (added + [done.value.2]) + rest.value.1;
      }
    }
  }

  /** The whole catch-up, once some postings were added and this much is left to do. */
  ghost predicate Continues(all: Result<(Books, Template, seq<Posting>)>, added: seq<Posting>, rest: Result<(Books, Template, seq<Posting>)>) {
    if rest.Err? then all == rest
    else all.Ok? && all.value.0 == rest.value.0 && all.value.1 == rest.value.1 && all.value.2 == added + rest.value.2
  }

  lemma NothingAdded(all: Result<(Books, Template, seq<Posting>)>)
    ensures Continues(all, [], all)
  {
  }

  lemma NothingDue(all: Result<(Books, Template, seq<Posting>)>, added: seq<Posting>, b: Books, t: Template, today: Date)
    requires OnSchedule(t) && Before(today, t.next) && Continues(all, added, Materialize(b, t, today))
    ensures all.Ok? && all.value.0 == b && all.value.1 == t && all.value.2 == added
  {
    hide Occurrence;
    assert added + [] == added;
  }

  lemma AdvancedForm(t: Template)
    ensures Advanced(t) == t.(generated := t.generated + 1, next := Occurrence(t.start, t.frequency, t.generated + 1))
  {
  }

  /** One turn of the catch-up loop. */
  lemma StepOfMaterialize(all: Result<(Books, Template, seq<Posting>)>, added: seq<Posting>, b: Books, t: Template, today: Date)
    requires OnSchedule(t) && OnSchedule(Advanced(t)) && !Before(today, t.next) && Continues(all, added, Materialize(b, t, today))
    ensures var made := CreateTransaction(b, Expensed(t, t.next));
            if made.Err? then all.Err? && all.error == made.error
            else Continues(all, added + [Posting(t.start, t.frequency, t.generated, b.nextId)], Materialize(made.value, Advanced(t), today))
  {
    hide Ledger.CreateTransaction, Occurrence, MonthsDue;
    var made := CreateTransaction(b, Expensed(t, t.next));
    if made.Ok? {
      var rest := Materialize(made.value, Advanced(t), today);
      if rest.Ok? {
        var posting := Posting(t.start, t.frequency, t.generated, b.nextId);
        assert added + ([posting] + rest.value.2) == (added + [posting]) + rest.value.2;
      }
    }
  }
}
