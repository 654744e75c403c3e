/** Recurring expenses: the calendar of occurrences, the alignment of a changed schedule, and the catch-up that
    records each due occurrence once. */
module Recurring {
  import opened Calendar
  import opened Common
  import opened Ledger
  import opened LedgerLaws

  datatype Frequency = Monthly | Yearly

  function MonthsBetween(f: Frequency): int {
    if f == Monthly then 1 else 12
  }

  /** Occurrence n of a schedule, always counted from its start so that short months never shift the day. */
  function Occurrence(start: Date, f: Frequency, n: int): (d: Date)
    ensures d.MonthIndex() == start.MonthIndex() + MonthsBetween(f) * n
  {
    InMonth(start.MonthIndex() + MonthsBetween(f) * n, start.day)
  }

  // ---------------------------------------------------------------- the calendar of occurrences

  lemma OccurrenceMonth(start: Date, f: Frequency, m: int, n: int)
    requires m < n
    ensures Occurrence(start, f, m).MonthIndex() + MonthsBetween(f) <= Occurrence(start, f, n).MonthIndex()
  {
    hide InMonth;
    assert MonthsBetween(f) * n == MonthsBetween(f) * m + MonthsBetween(f) * (n - m);
  }

  /** Occurrences are strictly later one after another. */
  lemma OccurrencesIncrease(start: Date, f: Frequency, m: int, n: int)
    requires m < n
    ensures Before(Occurrence(start, f, m), Occurrence(start, f, n))
  {
    hide Occurrence, Before;
    OccurrenceMonth(start, f, m, n);
    LaterMonthIsLater(Occurrence(start, f, m), Occurrence(start, f, n));
  }

  lemma FirstOccurrence(start: Date, f: Frequency)
    ensures Occurrence(start, f, 0) == start
  {
  }

  /** The closed form of `alignRecurringSchedule`, before its correction by one. */
  function MonthsOrYears(start: Date, f: Frequency, today: Date): int {
    var n := if f == Monthly then (today.year - start.year) * 12 + (today.month - start.month) else today.year - start.year;
    if n < 0 then 0 else n
  }

  function Aligned(start: Date, f: Frequency, today: Date): int {
    var n := MonthsOrYears(start, f, today);
    if Before(today, Occurrence(start, f, n)) then n else n + 1
  }

  lemma InSameYear(start: Date, n: int)
    ensures Occurrence(start, Yearly, n).year == start.year + n && Occurrence(start, Yearly, n).month == start.month
  {
  }

  /** Occurrences before the counted one are past, occurrences after it are still to come. */
  lemma Around(start: Date, f: Frequency, today: Date, m: int)
    ensures 0 <= m < MonthsOrYears(start, f, today) ==> Before(Occurrence(start, f, m), today)
    ensures m > MonthsOrYears(start, f, today) ==> Before(today, Occurrence(start, f, m))
  {
    hide Before, InMonth, Occurrence;
    var n := MonthsOrYears(start, f, today);
    if f == Monthly {
      if 0 <= m < n {
        LaterMonthIsLater(Occurrence(start, f, m), today);
      }
      if m > n {
        LaterMonthIsLater(today, Occurrence(start, f, m));
      }
    } else {
      InSameYear(start, m);
      if 0 <= m < n {
        LaterYearIsLater(Occurrence(start, f, m), today);
      }
      if m > n {
        LaterYearIsLater(today, Occurrence(start, f, m));
      }
    }
  }

  /** Alignment finds the first occurrence after today: the least number whose occurrence is still to come. */
  lemma AlignedIsLeast(start: Date, f: Frequency, today: Date)
    ensures 0 <= Aligned(start, f, today)
    ensures Before(today, Occurrence(start, f, Aligned(start, f, today)))
    ensures forall m :: 0 <= m < Aligned(start, f, today) ==> !Before(today, Occurrence(start, f, m))
  {
    hide Occurrence;
    var n := MonthsOrYears(start, f, today);
    Around(start, f, today, n + 1);
    forall m | 0 <= m < n ensures !Before(today, Occurrence(start, f, m)) {
      Around(start, f, today, m);
    }
  }

  // ---------------------------------------------------------------- templates

  datatype Template = Template(account: Id, category: Option<Id>, description: string, amount: int, frequency: Frequency,
                               start: Date, next: Date, generated: nat, active: bool)

  datatype TemplateInput = TemplateInput(account: Id, category: Option<Id>, description: string, amount: int,
                                         frequency: Frequency, start: Date)

  /** One occurrence recorded as an expense. */
  datatype Posting = Posting(start: Date, frequency: Frequency, number: nat, transaction: Id)

  /** A template on the books. `posted` remembers every occurrence ever recorded and `clock` the latest day seen;
      neither is stored. */
  datatype Agenda = Agenda(books: Books, template: Template, posted: seq<Posting>, clock: Date)

  function Expensed(t: Template, due: Date): Transaction {
    Transaction(t.account, Expense, t.amount, t.category, due, t.description, None, None, true, None)
  }

  /** Months from the due date to today, past it. */
  function MonthsDue(t: Template, today: Date): nat {
    if Before(today, t.next) then 0
    else if today.MonthIndex() < t.next.MonthIndex() then 1 else today.MonthIndex() - t.next.MonthIndex() + 1
  }

  function Advanced(t: Template): Template {
    t.(generated := t.generated + 1, next := Occurrence(t.start, t.frequency, t.generated + 1))
  }

  predicate OnSchedule(t: Template) {
    t.next == Occurrence(t.start, t.frequency, t.generated)
  }

  lemma AdvancingEnds(t: Template, today: Date)
    requires OnSchedule(t) && !Before(today, t.next)
    ensures OnSchedule(Advanced(t)) && MonthsDue(Advanced(t), today) < MonthsDue(t, today)
  {
    hide Occurrence;
    OccurrenceMonth(t.start, t.frequency, t.generated, t.generated + 1);
    if today.MonthIndex() < t.next.MonthIndex() {
      LaterMonthIsLater(today, t.next);
    }
    if today.MonthIndex() < Advanced(t).next.MonthIndex() {
      LaterMonthIsLater(today, Advanced(t).next);
    }
  }

  /** `materializeRecurringTransaction`: record every occurrence due up to today. */
  function Materialize(b: Books, t: Template, today: Date): Result<(Books, Template, seq<Posting>)>
    requires OnSchedule(t)
    decreases MonthsDue(t, today)
  {
    if Before(today, t.next) then Ok((b, t, []))
    else
      AdvancingEnds(t, today);
      var recorded :- CreateTransaction(b, Expensed(t, t.next));
      var rest :- Materialize(recorded, Advanced(t), today);
      Ok((rest.0, rest.1, [Posting(t.start, t.frequency, t.generated, b.nextId)] + rest.2))
  }

  function CreateTemplate(b: Books, input: TemplateInput, today: Date): Agenda {
    Agenda(b, Template(input.account, input.category, input.description, input.amount, input.frequency, input.start, input.start, 0, true), [], today)
  }

  /** Catch up with today. */
  function Process(a: Agenda, today: Date): Result<Agenda>
    requires OnSchedule(a.template)
  {
    if !a.template.active || Before(today, a.template.next) then Ok(a.(clock := today))
    else
      var done :- Materialize(a.books, a.template, today);
      Ok(Agenda(done.0, done.1, a.posted + done.2, today))
  }

  predicate Reschedules(t: Template, input: TemplateInput, active: bool) {
    t.frequency != input.frequency || t.start != input.start || (!t.active && active)
  }

  /** Replace the template: record what is due first, and move a changed or resumed schedule to its first occurrence
      after today. */
  function Update(a: Agenda, input: TemplateInput, active: bool, materialize: bool, today: Date): Result<Agenda>
    requires OnSchedule(a.template)
  {
    var t := a.template;
    var done :- if materialize && t.active && !Before(today, t.next) then Materialize(a.books, t, today) else Ok((a.books, t, []));
    var n := if Reschedules(t, input, active) then Aligned(input.start, input.frequency, today) else done.1.generated;
    AlignedIsLeast(input.start, input.frequency, today);
    var next := if Reschedules(t, input, active) then Occurrence(input.start, input.frequency, n) else done.1.next;
    Ok(Agenda(done.0, Template(input.account, input.category, input.description, input.amount, input.frequency, input.start, next, n, active),
              a.posted + done.2, today))
  }

  // ---------------------------------------------------------------- runs

  datatype Visit =
    | CatchUp(today: Date)
    | Edit(input: TemplateInput, active: bool, materialize: bool, today: Date)
    | Meanwhile(request: Request)

  /** Requests in the order of time. */
  function Attend(a: Agenda, v: Visit): Result<Agenda>
    requires OnSchedule(a.template)
  {
    match v
    case CatchUp(today) => if Before(today, a.clock) then Err(BadRequest) else Process(a, today)
    case Edit(input, active, materialize, today) =>
      if Before(today, a.clock) then Err(BadRequest) else Update(a, input, active, materialize, today)
    case Meanwhile(r) =>
      var books :- Perform(a.books, r);
      Ok(a.(books := books))
  }

  // ---------------------------------------------------------------- what a catch-up records

  /** The postings are numbers from..to of one schedule. */
  predicate Numbers(postings: seq<Posting>, t: Template, from: nat, to: nat) {
    && from <= to && |postings| == to - from
    && forall i :: 0 <= i < |postings| ==> postings[i].start == t.start && postings[i].frequency == t.frequency && postings[i].number == from + i
  }

  /** A catch-up records exactly the occurrences due: from the next one, without a gap, up to the last one not after
      today. */
  lemma {:induction false} MaterializesWhatIsDue(b: Books, t: Template, today: Date)
    requires OnSchedule(t) && Materialize(b, t, today).Ok?
    ensures var (after, advanced, postings) := Materialize(b, t, today).value;
            && advanced == t.(generated := advanced.generated, next := advanced.next) && OnSchedule(advanced)
            && Numbers(postings, t, t.generated, advanced.generated)
            && Before(today, advanced.next)
            && (forall n :: t.generated <= n < advanced.generated ==> !Before(today, Occurrence(t.start, t.frequency, n)))
            && (forall n :: n >= advanced.generated ==> Before(today, Occurrence(t.start, t.frequency, n)))
    decreases MonthsDue(t, today)
  {
    hide CreateTransaction, Occurrence, MonthsDue;
    if Before(today, t.next) {
      forall n | n >= t.generated ensures Before(today, Occurrence(t.start, t.frequency, n)) {
        LaterOccurrence(t, today, n);
      }
    } else {
      AdvancingEnds(t, today);
      MaterializesWhatIsDue(CreateTransaction(b, Expensed(t, t.next)).value, Advanced(t), today);
    }
  }

  lemma LaterOccurrence(t: Template, today: Date, n: nat)
    requires OnSchedule(t) && Before(today, t.next) && n >= t.generated
    ensures Before(today, Occurrence(t.start, t.frequency, n))
  {
    hide Occurrence;
    if n > t.generated {
      OccurrencesIncrease(t.start, t.frequency, t.generated, n);
    }
  }

  /** Each posting is backed by its own expense, dated with its occurrence. */
  lemma {:induction false} MaterializedExpenses(b: Books, t: Template, today: Date)
    requires Consistent(b) && OnSchedule(t) && Materialize(b, t, today).Ok?
    ensures var (after, advanced, postings) := Materialize(b, t, today).value;
            && Consistent(after) && after.nextId == b.nextId + |postings|
            && (forall id <- b.transactions :: id in after.transactions && after.transactions[id] == b.transactions[id])
            && (forall i :: 0 <= i < |postings| ==>
                  && postings[i].transaction == b.nextId + i && postings[i].transaction in after.transactions
                  && after.transactions[postings[i].transaction] == Expensed(t, Occurrence(t.start, t.frequency, postings[i].number)))
    decreases MonthsDue(t, today)
  {
    hide CreateTransaction, Occurrence, MonthsDue, Agrees, Linked;
    if !Before(today, t.next) {
      AdvancingEnds(t, today);
      var x := Expensed(t, t.next);
      RecordedEntries(b, x);
      PerformKeeps(b, NewTransaction(x));
      MaterializedExpenses(CreateTransaction(b, x).value, Advanced(t), today);
      FreshId(b);
    }
  }

  lemma FreshId(b: Books)
    requires Consistent(b)
    ensures b.nextId !in b.transactions
  {
    hide Agrees;
  }

  // ---------------------------------------------------------------- exactly once over runs

  /** No occurrence of a schedule is recorded twice. */
  predicate NoneTwice(posted: seq<Posting>) {
    forall i, j :: 0 <= i < j < |posted| && posted[i].start == posted[j].start && posted[i].frequency == posted[j].frequency ==>
      posted[i].number != posted[j].number
  }

  /** Everything recorded is past, and of the current schedule it lies before the next occurrence. */
  predicate AgendaSound(a: Agenda) {
    && OnSchedule(a.template) && NoneTwice(a.posted)
    && (forall i :: 0 <= i < |a.posted| ==> !Before(a.clock, Occurrence(a.posted[i].start, a.posted[i].frequency, a.posted[i].number)))
    && (forall i :: 0 <= i < |a.posted| && a.posted[i].start == a.template.start && a.posted[i].frequency == a.template.frequency ==>
          a.posted[i].number < a.template.generated)
  }

  lemma MorePostings(a: Agenda, more: seq<Posting>, generated: nat, today: Date)
    requires AgendaSound(a) && !Before(today, a.clock) && Numbers(more, a.template, a.template.generated, generated)
    requires forall n :: a.template.generated <= n < generated ==> !Before(today, Occurrence(a.template.start, a.template.frequency, n))
    ensures NoneTwice(a.posted + more)
    ensures forall i :: 0 <= i < |a.posted + more| ==>
              !Before(today, Occurrence((a.posted + more)[i].start, (a.posted + more)[i].frequency, (a.posted + more)[i].number))
    ensures forall i :: 0 <= i < |a.posted + more| && (a.posted + more)[i].start == a.template.start && (a.posted + more)[i].frequency == a.template.frequency ==>
              (a.posted + more)[i].number < generated
  {
    hide Occurrence, OnSchedule;
    var all := a.posted + more;
    forall i | 0 <= i < |all| ensures !Before(today, Occurrence(all[i].start, all[i].frequency, all[i].number)) {
      if i < |a.posted| {
        assert !Before(a.clock, Occurrence(a.posted[i].start, a.posted[i].frequency, a.posted[i].number));
      } else {
        assert all[i] == more[i - |a.posted|];
      }
    }
  }

  lemma ProcessKeeps(a: Agenda, today: Date)
    requires AgendaSound(a) && !Before(today, a.clock) && Process(a, today).Ok?
    ensures AgendaSound(Process(a, today).value)
    ensures a.template.active ==> Before(today, Process(a, today).value.template.next)
  {
    hide Occurrence, Materialize, NoneTwice;
    assert a.posted + [] == a.posted;
    if a.template.active && !Before(today, a.template.next) {
      MaterializesWhatIsDue(a.books, a.template, today);
      var done := Materialize(a.books, a.template, today).value;
      MorePostings(a, done.2, done.1.generated, today);
    } else {
      MorePostings(a, [], a.template.generated, today);
    }
  }

  lemma UpdateKeeps(a: Agenda, input: TemplateInput, active: bool, materialize: bool, today: Date)
    requires AgendaSound(a) && !Before(today, a.clock) && Update(a, input, active, materialize, today).Ok?
    ensures AgendaSound(Update(a, input, active, materialize, today).value)
  {
    hide Occurrence, Materialize, NoneTwice, Aligned;
    var after := Update(a, input, active, materialize, today).value;
    assert a.posted + [] == a.posted;
    if materialize && a.template.active && !Before(today, a.template.next) {
      MaterializesWhatIsDue(a.books, a.template, today);
      var done := Materialize(a.books, a.template, today).value;
      MorePostings(a, done.2, done.1.generated, today);
    } else {
      MorePostings(a, [], a.template.generated, today);
    }
    AlignedIsLeast(input.start, input.frequency, today);
    if Reschedules(a.template, input, active) {
      forall i | 0 <= i < |after.posted| && after.posted[i].start == input.start && after.posted[i].frequency == input.frequency
        ensures after.posted[i].number < after.template.generated
      {
        PastIsBeforeAligned(after.posted[i], today);
      }
    }
  }

  lemma PastIsBeforeAligned(p: Posting, today: Date)
    requires !Before(today, Occurrence(p.start, p.frequency, p.number))
    ensures p.number < Aligned(p.start, p.frequency, today)
  {
    hide Occurrence, Aligned;
    AlignedIsLeast(p.start, p.frequency, today);
    var n := Aligned(p.start, p.frequency, today);
    if p.number >= n {
      if p.number > n {
        OccurrencesIncrease(p.start, p.frequency, n, p.number);
      }
    }
  }

  lemma AttendKeeps(a: Agenda, v: Visit)
    requires AgendaSound(a) && Attend(a, v).Ok?
    ensures AgendaSound(Attend(a, v).value)
  {
    hide Process, Update, Perform, Occurrence, NoneTwice;
    match v
    case CatchUp(today) => ProcessKeeps(a, today);
    case Edit(input, active, materialize, today) => UpdateKeeps(a, input, active, materialize, today);
    case Meanwhile(_) => {}
  }

  /** The visits in order, refused ones without effect. */
  function AttendAll(a: Agenda, visits: seq<Visit>): Agenda
    requires AgendaSound(a)
    decreases |visits|
  {
    if visits == [] then a
    else
      var attended := Attend(a, visits[0]);
      if attended.Err? then AttendAll(a, visits[1..])
      else
        AttendKeeps(a, visits[0]);
        AttendAll(attended.value, visits[1..])
  }

  lemma {:induction false} AttendAllKeeps(a: Agenda, visits: seq<Visit>)
    requires AgendaSound(a)
    ensures AgendaSound(AttendAll(a, visits))
    decreases |visits|
  {
    hide NoneTwice, Occurrence, Attend;
    if visits != [] {
      if Attend(a, visits[0]).Ok? {
        AttendKeeps(a, visits[0]);
        AttendAllKeeps(Attend(a, visits[0]).value, visits[1..]);
      } else {
        AttendAllKeeps(a, visits[1..]);
      }
    }
  }

  // ---------------------------------------------------------------- no gaps over runs

  /** Where the count of the current schedule began: its first number, and how many postings there were by then.
      Neither is stored. */
  datatype Count = Count(from: nat, since: nat)

  /** Since the count began, every number of the current schedule was recorded once and in order. */
  predicate Gapless(a: Agenda, c: Count) {
    && c.since <= |a.posted|
    && Numbers(a.posted[c.since..], a.template, c.from, a.template.generated)
  }

  ghost predicate CaughtUp(t: Template, today: Date) {
    forall n: nat :: n >= t.generated ==> Before(today, Occurrence(t.start, t.frequency, n))
  }

  predicate Restarts(a: Agenda, v: Visit) {
    v.Edit? && Reschedules(a.template, v.input, v.active)
  }

  /** An accepted visit starts the count anew exactly when it changes or resumes the schedule. */
  function Counted(a: Agenda, c: Count, v: Visit): Count
    requires OnSchedule(a.template)
  {
    var attended := Attend(a, v);
    if attended.Ok? && Restarts(a, v) then Count(attended.value.template.generated, |attended.value.posted|) else c
  }

  function CountedAll(a: Agenda, c: Count, visits: seq<Visit>): Count
    requires AgendaSound(a)
    decreases |visits|
  {
    if visits == [] then c
    else
      var attended := Attend(a, visits[0]);
      if attended.Err? then CountedAll(a, c, visits[1..])
      else
        AttendKeeps(a, visits[0]);
        CountedAll(attended.value, Counted(a, c, visits[0]), visits[1..])
  }

  lemma NumbersMore(t: Template, first: seq<Posting>, second: seq<Posting>, from: nat, middle: nat, to: nat)
    requires Numbers(first, t, from, middle) && Numbers(second, t, middle, to)
    ensures Numbers(first + second, t, from, to)
  {
  }

  /** What a visit that keeps the schedule records goes on where the last one stopped. */
  lemma ScheduleContinues(a: Agenda, v: Visit)
    requires AgendaSound(a) && Attend(a, v).Ok? && !Restarts(a, v)
    ensures var after := Attend(a, v).value;
            && after.template.start == a.template.start && after.template.frequency == a.template.frequency
            && a.posted <= after.posted
            && Numbers(after.posted[|a.posted|..], a.template, a.template.generated, after.template.generated)
  {
    hide Occurrence, Materialize, NoneTwice, Perform, Aligned;
    var after := Attend(a, v).value;
    assert a.posted + [] == a.posted;
    assert a.posted[|a.posted|..] == [];
    match v
    case CatchUp(today) =>
      if a.template.active && !Before(today, a.template.next) {
        MaterializesWhatIsDue(a.books, a.template, today);
        assert after.posted[|a.posted|..] == Materialize(a.books, a.template, today).value.2;
      }
    case Edit(_, _, materialize, today) =>
      if materialize && a.template.active && !Before(today, a.template.next) {
        MaterializesWhatIsDue(a.books, a.template, today);
        assert after.posted[|a.posted|..] == Materialize(a.books, a.template, today).value.2;
      }
    case Meanwhile(_) => {}
  }

  lemma AttendIsGapless(a: Agenda, c: Count, v: Visit)
    requires AgendaSound(a) && Gapless(a, c) && Attend(a, v).Ok?
    ensures Gapless(Attend(a, v).value, Counted(a, c, v))
  {
    hide Attend, Restarts, NoneTwice, Occurrence;
    var after := Attend(a, v).value;
    if !Restarts(a, v) {
      ScheduleContinues(a, v);
      var more := after.posted[|a.posted|..];
      NumbersMore(a.template, a.posted[c.since..], more, c.from, a.template.generated, after.template.generated);
      assert after.posted[c.since..] == a.posted[c.since..] + more;
    }
  }

  /** Over any run the numbers recorded since the count last began have no gap and no repeat, and reach up to the
      next occurrence. */
  lemma {:induction false} NoGaps(a: Agenda, c: Count, visits: seq<Visit>)
    requires AgendaSound(a) && Gapless(a, c)
    ensures Gapless(AttendAll(a, visits), CountedAll(a, c, visits))
    decreases |visits|
  {
    hide NoneTwice, Occurrence, Attend, Counted, Gapless;
    if visits != [] {
      if Attend(a, visits[0]).Ok? {
        AttendKeeps(a, visits[0]);
        AttendIsGapless(a, c, visits[0]);
        NoGaps(Attend(a, visits[0]).value, Counted(a, c, visits[0]), visits[1..]);
      } else {
        NoGaps(a, c, visits[1..]);
      }
    }
  }

  /** Every accepted edit of the run keeps the schedule. */
  predicate KeepsSchedule(a: Agenda, visits: seq<Visit>)
    requires AgendaSound(a)
    decreases |visits|
  {
    if visits == [] then true
    else
      var attended := Attend(a, visits[0]);
      if attended.Err? then KeepsSchedule(a, visits[1..])
      else
        AttendKeeps(a, visits[0]);
        !Restarts(a, visits[0]) && KeepsSchedule(attended.value, visits[1..])
  }

  /** While the schedule is kept, the run records exactly the numbers from the old counter to the new one. */
  lemma {:induction false} KeptScheduleIsGapless(a: Agenda, visits: seq<Visit>)
    requires AgendaSound(a) && KeepsSchedule(a, visits)
    ensures var after := AttendAll(a, visits);
            && after.template.start == a.template.start && after.template.frequency == a.template.frequency
            && a.posted <= after.posted
            && Numbers(after.posted[|a.posted|..], a.template, a.template.generated, after.template.generated)
    decreases |visits|
  {
    hide NoneTwice, Occurrence, Attend, Restarts;
    if visits == [] {
      assert a.posted[|a.posted|..] == [];
    } else if Attend(a, visits[0]).Err? {
      KeptScheduleIsGapless(a, visits[1..]);
    } else {
      AttendKeeps(a, visits[0]);
      ScheduleContinues(a, visits[0]);
      var next, after := Attend(a, visits[0]).value, AttendAll(a, visits);
      KeptScheduleIsGapless(next, visits[1..]);
      NumbersMore(a.template, next.posted[|a.posted|..], after.posted[|next.posted|..],
                  a.template.generated, next.template.generated, after.template.generated);
      assert after.posted[|a.posted|..] == next.posted[|a.posted|..] + after.posted[|next.posted|..];
    }
  }

  predicate Due(t: Template, today: Date, n: nat) {
    n >= t.generated && !Before(today, Occurrence(t.start, t.frequency, n))
  }

  /** A changed or resumed schedule counts from its first occurrence after today. Before that the old schedule is
      caught up with if it is active and the edit asks for it, and then no due occurrence is dropped; otherwise every
      due occurrence is. */
  lemma RestartDrops(a: Agenda, input: TemplateInput, active: bool, materialize: bool, today: Date)
    requires AgendaSound(a) && Update(a, input, active, materialize, today).Ok? && Reschedules(a.template, input, active)
    ensures var after := Update(a, input, active, materialize, today).value;
            && Before(today, Occurrence(input.start, input.frequency, after.template.generated))
            && (forall n :: 0 <= n < after.template.generated ==> !Before(today, Occurrence(input.start, input.frequency, n)))
            && a.posted <= after.posted
            && var reached := a.template.generated + |after.posted| - |a.posted|;
               && Numbers(after.posted[|a.posted|..], a.template, a.template.generated, reached)
               && forall n: nat :: n >= a.template.generated ==>
                    ((n < reached) <==> (Due(a.template, today, n) && a.template.active && materialize))
  {
    hide Occurrence, Materialize, NoneTwice, Aligned;
    var t, after := a.template, Update(a, input, active, materialize, today).value;
    AlignedIsLeast(input.start, input.frequency, today);
    if materialize && t.active && !Before(today, t.next) {
      MaterializesWhatIsDue(a.books, t, today);
      assert after.posted[|a.posted|..] == Materialize(a.books, t, today).value.2;
    } else {
      assert a.posted + [] == a.posted && after.posted[|a.posted|..] == [];
      forall n: nat | n >= t.generated && Before(today, t.next) ensures !Due(t, today, n) {
        LaterOccurrence(t, today, n);
      }
    }
  }

  /** An accepted catch-up of an active template leaves nothing due. */
  lemma CatchUpLeavesNothingDue(a: Agenda, today: Date)
    requires AgendaSound(a) && Attend(a, CatchUp(today)).Ok? && a.template.active
    ensures CaughtUp(Attend(a, CatchUp(today)).value.template, today)
  {
    hide Occurrence;
    ProcessKeeps(a, today);
    var after := Attend(a, CatchUp(today)).value;
    forall n: nat | n >= after.template.generated ensures Before(today, Occurrence(after.template.start, after.template.frequency, n)) {
      LaterOccurrence(after.template, today, n);
    }
  }

  // ---------------------------------------------------------------- no date twice

  function DateOf(p: Posting): Date {
    Occurrence(p.start, p.frequency, p.number)
  }

  /** Recorded dates strictly rise, under whatever schedules they were recorded, and lie before the next date. */
  predicate DatesRise(a: Agenda) {
    && (forall i, j :: 0 <= i < j < |a.posted| ==> Before(DateOf(a.posted[i]), DateOf(a.posted[j])))
    && (forall i :: 0 <= i < |a.posted| ==> Before(DateOf(a.posted[i]), a.template.next))
  }

  /** Postings that go on from the next date rise on. */
  lemma RisingMore(a: Agenda, more: seq<Posting>, after: Agenda)
    requires DatesRise(a) && OnSchedule(a.template) && OnSchedule(after.template)
    requires after.template.start == a.template.start && after.template.frequency == a.template.frequency
    requires Numbers(more, a.template, a.template.generated, after.template.generated) && after.posted == a.posted + more
    ensures DatesRise(after)
  {
    hide Occurrence, Before;
    var t := a.template;
    forall m: int, n: int | m < n ensures Before(Occurrence(t.start, t.frequency, m), Occurrence(t.start, t.frequency, n)) {
      OccurrencesIncrease(t.start, t.frequency, m, n);
    }
    BeforeIsOrder();
  }

  lemma BeforeIsOrder()
    ensures forall a: Date, b: Date, c: Date :: Before(a, b) && Before(b, c) ==> Before(a, c)
    ensures forall a: Date, b: Date, c: Date :: !Before(b, a) && Before(b, c) ==> Before(a, c)
  {
  }

  /** What an edit records and where it goes on from, before it replaces the template. */
  lemma UpdateParts(a: Agenda, input: TemplateInput, active: bool, materialize: bool, today: Date) returns (done: Agenda)
    requires AgendaSound(a) && !Before(today, a.clock) && Update(a, input, active, materialize, today).Ok?
    ensures var after := Update(a, input, active, materialize, today).value;
            && done.posted == after.posted && a.posted <= done.posted && OnSchedule(done.template)
            && done.template.start == a.template.start && done.template.frequency == a.template.frequency
            && Numbers(done.posted[|a.posted|..], a.template, a.template.generated, done.template.generated)
            && if Reschedules(a.template, input, active) then Before(today, after.template.next) else after.template.next == done.template.next
  {
    hide Occurrence, Materialize, NoneTwice, Aligned;
    var t := a.template;
    AlignedIsLeast(input.start, input.frequency, today);
    done := a;
    assert a.posted + [] == a.posted && a.posted[|a.posted|..] == [];
    if materialize && t.active && !Before(today, t.next) {
      MaterializesWhatIsDue(a.books, t, today);
      var m := Materialize(a.books, t, today).value;
      done := Agenda(m.0, m.1, a.posted + m.2, today);
      assert done.posted[|a.posted|..] == m.2;
    }
  }

  lemma RisesAfterUpdate(a: Agenda, input: TemplateInput, active: bool, materialize: bool, today: Date)
    requires AgendaSound(a) && DatesRise(a) && !Before(today, a.clock) && Update(a, input, active, materialize, today).Ok?
    ensures DatesRise(Update(a, input, active, materialize, today).value)
  {
    UpdateKeeps(a, input, active, materialize, today);
    var done := UpdateParts(a, input, active, materialize, today);
    RisingMore(a, done.posted[|a.posted|..], done);
    var after := Update(a, input, active, materialize, today).value;
    assert after.clock == today;
    hide Occurrence, Update, NoneTwice, Before, Aligned, Materialize;
    BeforeIsOrder();
  }

  lemma AttendRises(a: Agenda, v: Visit)
    requires AgendaSound(a) && DatesRise(a) && Attend(a, v).Ok?
    ensures DatesRise(Attend(a, v).value)
  {
    hide Occurrence, NoneTwice, Update, Perform, Materialize;
    match v
    case CatchUp(today) =>
      ScheduleContinues(a, v);
      AttendKeeps(a, v);
      RisingMore(a, Attend(a, v).value.posted[|a.posted|..], Attend(a, v).value);
    case Edit(input, active, materialize, today) => RisesAfterUpdate(a, input, active, materialize, today);
    case Meanwhile(_) => {}
  }

  /** Recorded dates rise over any run, so a template never records two expenses on one date. */
  lemma {:induction false} AttendAllRises(a: Agenda, visits: seq<Visit>)
    requires AgendaSound(a) && DatesRise(a)
    ensures DatesRise(AttendAll(a, visits))
    decreases |visits|
  {
    hide NoneTwice, Occurrence, Attend, DatesRise;
    if visits != [] {
      if Attend(a, visits[0]).Ok? {
        AttendKeeps(a, visits[0]);
        AttendRises(a, visits[0]);
        AttendAllRises(Attend(a, visits[0]).value, visits[1..]);
      } else {
        AttendAllRises(a, visits[1..]);
      }
    }
  }

  lemma NotBeforeItself()
    ensures forall d: Date :: !Before(d, d)
  {
  }

  lemma NewAgendaIsSound(b: Books, input: TemplateInput, today: Date)
    ensures AgendaSound(CreateTemplate(b, input, today)) && Gapless(CreateTemplate(b, input, today), Count(0, 0))
  {
    hide Occurrence;
    FirstOccurrence(input.start, input.frequency);
  }

  /** Over any run of catch-ups and edits, interleaved with anything else: the next date is the occurrence the counter
      names; no occurrence is recorded twice, and no date either, however the schedule changed in between; since the
      schedule last changed or resumed none was left out before the counter; and a catch-up of an active template
      leaves nothing due. */
  lemma RecordedOnce(b: Books, input: TemplateInput, today: Date, visits: seq<Visit>)
    ensures AgendaSound(CreateTemplate(b, input, today))
    ensures var a := AttendAll(CreateTemplate(b, input, today), visits);
            && a.template.next == Occurrence(a.template.start, a.template.frequency, a.template.generated)
            && NoneTwice(a.posted)
            && DatesRise(a) && (forall i, j :: 0 <= i < j < |a.posted| ==> DateOf(a.posted[i]) != DateOf(a.posted[j]))
            && Gapless(a, CountedAll(CreateTemplate(b, input, today), Count(0, 0), visits))
            && forall last :: a.template.active && Attend(a, CatchUp(last)).Ok? ==>
                 CaughtUp(Attend(a, CatchUp(last)).value.template, last)
  {
    hide Occurrence, NoneTwice, AttendAll, CountedAll, Attend, CaughtUp, Gapless;
    var created := CreateTemplate(b, input, today);
    NewAgendaIsSound(b, input, today);
    AttendAllRises(created, visits);
    NotBeforeItself();
    AttendAllKeeps(created, visits);
    NoGaps(created, Count(0, 0), visits);
    var a := AttendAll(created, visits);
    forall last | a.template.active && Attend(a, CatchUp(last)).Ok? ensures CaughtUp(Attend(a, CatchUp(last)).value.template, last) {
      CatchUpLeavesNothingDue(a, last);
    }
  }
}
