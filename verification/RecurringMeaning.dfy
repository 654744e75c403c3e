/** What the requests on recurring expenses store, record and pay, column by column. */
module RecurringMeaning {
  import opened Calendar
  import opened Common
  import opened Ledger
  import opened LedgerLaws
  import LedgerMeaning
  import opened Recurring
  import opened RecurringBatch

  /** Occurrence n is n months, or n years, after the start, on its day or, where the month lacks it, the last. */
  lemma OccurrenceMeans(start: Date, f: Frequency, n: int)
    ensures var d := Occurrence(start, f, n);
            && 12 * d.year + d.month == 12 * start.year + start.month + (if f == Monthly then n else 12 * n)
            && d.day <= start.day && (d.day < start.day ==> NextDay(d).day == 1)
  {
    hide InMonth, NextDay;
    ClampedToLastDay(start.MonthIndex() + MonthsBetween(f) * n, start.day);
  }

  /** A template starts active, with everything it was given, due first on its start, and nothing recorded. */
  lemma CreationMeans(b: Books, input: TemplateInput, today: Date)
    ensures var a := CreateTemplate(b, input, today);
            && a.books == b && a.posted == [] && a.clock == today
            && a.template == Template(input.account, input.category, input.description, input.amount, input.frequency, input.start,
                                      input.start, 0, true)
            && AgendaSound(a)
  {
  }

  /** A catch-up goes through exactly if nothing is due, or the account exists, the amount is positive and there is a
      description. */
  lemma CatchUpChecks(b: Books, t: Template, today: Date)
    requires Consistent(b) && OnSchedule(t)
    ensures Materialize(b, t, today).Ok?
            <==> Before(today, t.next) || (t.account in b.accounts && t.amount >= 1 && exists c <- t.description :: !IsSpace(c))
  {
    hide Consistent, Materialize, Occurrence, LedgerMeaning.After, Before;
    CatchUpPays(b, t, today);
  }

  /** Each occurrence recorded is its own expense of the template's columns on its own date, and the template counts on
      after them. */
  lemma CatchUpRecords(b: Books, t: Template, today: Date)
    requires Consistent(b) && OnSchedule(t) && Materialize(b, t, today).Ok?
    ensures var (after, advanced, postings) := Materialize(b, t, today).value;
            && (forall i :: 0 <= i < |postings| ==>
                  && postings[i] == Posting(t.start, t.frequency, t.generated + i, b.nextId + i)
                  && b.nextId + i in after.transactions
                  && after.transactions[b.nextId + i]
                     == Transaction(t.account, Expense, t.amount, t.category, Occurrence(t.start, t.frequency, t.generated + i), t.description,
                                    None, None, true, None))
            && advanced == Template(t.account, t.category, t.description, t.amount, t.frequency, t.start,
                                    Occurrence(t.start, t.frequency, t.generated + |postings|), t.generated + |postings|, t.active)
  {
    hide Consistent, Materialize, Occurrence, Before;
    MaterializesWhatIsDue(b, t, today);
    MaterializedExpenses(b, t, today);
    var (after, advanced, postings) := Materialize(b, t, today).value;
    forall i | 0 <= i < |postings|
      ensures && postings[i] == Posting(t.start, t.frequency, t.generated + i, b.nextId + i)
              && b.nextId + i in after.transactions
              && after.transactions[b.nextId + i]
                 == Transaction(t.account, Expense, t.amount, t.category, Occurrence(t.start, t.frequency, t.generated + i), t.description,
                                None, None, true, None)
    {
      assert postings[i].number == t.generated + i && postings[i].transaction == b.nextId + i;
    }
    assert advanced.generated == t.generated + |postings|;
  }

  /** The template's account, if it is tracked, pays the amount once for each occurrence recorded; no other account pays. */
  lemma CatchUpTakes(b: Books, t: Template, today: Date, id: Id)
    requires Consistent(b) && OnSchedule(t) && Materialize(b, t, today).Ok? && id in b.accounts
    ensures var (after, _, postings) := Materialize(b, t, today).value;
            && id in after.accounts
            && after.accounts[id] == if id == t.account && b.accounts[id].tracking then PaidTimes(b.accounts[id], t.amount, |postings|) else b.accounts[id]
  {
    hide Consistent, Materialize, LedgerMeaning.After, Before, Cost;
    CatchUpPays(b, t, today);
    AccountOf(b, id);
    PaidMeans(b.accounts[id], b.entries, id, t, |Materialize(b, t, today).value.2|);
  }

  /** A tracked account after paying an amount some times. */
  function PaidTimes(a: Account, amount: int, times: nat): Account {
    match a.kind
    case Debit => if a.balance.Some? then a.(balance := Some(a.balance.value - amount * times)) else a
    case Credit => if a.availableCredit.Some? then a.(availableCredit := Some(a.availableCredit.value - amount * times)) else a
  }

  lemma PaidMeans(a: Account, entries: seq<Entry>, id: Id, t: Template, times: nat)
    requires AccountAgrees(a, entries, id)
    ensures LedgerMeaning.After(a, -Cost(t, times, id)) == if id == t.account && a.tracking then PaidTimes(a, t.amount, times) else a
  {
  }

  /** An edit stores everything it was given, pausing and resuming included. It first catches up with what is due, if the
      template is active and it was asked to, and is accepted exactly if that is. A changed frequency or start, or a
      resumed template, counts on from the first occurrence after today; any other edit counts on where it was. */
  lemma EditMeans(a: Agenda, input: TemplateInput, active: bool, materialize: bool, today: Date)
    requires OnSchedule(a.template)
    ensures var t := a.template;
            var due := materialize && t.active && !Before(today, t.next);
            && (Update(a, input, active, materialize, today).Ok? <==> due ==> Materialize(a.books, t, today).Ok?)
            && (Update(a, input, active, materialize, today).Ok? ==>
                  var after := Update(a, input, active, materialize, today).value;
                  && after.template.account == input.account && after.template.category == input.category
                  && after.template.description == input.description && after.template.amount == input.amount
                  && after.template.frequency == input.frequency && after.template.start == input.start && after.template.active == active
                  && after.clock == today
                  && (if due then after.books == Materialize(a.books, t, today).value.0
                                  && after.posted == a.posted + Materialize(a.books, t, today).value.2
                      else after.books == a.books && after.posted == a.posted)
                  && after.template.next == Occurrence(input.start, input.frequency, after.template.generated)
                  && (if input.frequency != t.frequency || input.start != t.start || (active && !t.active)
                      then Before(today, after.template.next)
                           && forall n :: 0 <= n < after.template.generated ==> !Before(today, Occurrence(input.start, input.frequency, n))
                      else after.template.generated == t.generated + |after.posted| - |a.posted|))
  {
    hide Occurrence, Before, Aligned;
    AlignedIsLeast(input.start, input.frequency, today);
    var t := a.template;
    if materialize && t.active && !Before(today, t.next) && Materialize(a.books, t, today).Ok? {
      MaterializesWhatIsDue(a.books, t, today);
    }
  }
}
