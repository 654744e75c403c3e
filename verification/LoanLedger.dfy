/** A loan over its whole life: a projected schedule that every event rewrites from settled history, and the
    expense each payment books on the loan's account. */
module LoanLedger {
  import opened Amortization
  import opened Calendar
  import opened Common
  import opened ExtraPayment
  import opened Ledger

  /** The scheduled columns of a payment row. */
  datatype Line = Line(sequence: int, due: Date, principal: int, interest: int, total: int)

  /** A row still to be paid: a projection, never money. */
  datatype Planned = Planned(id: Id, line: Line)

  /** A settled row: an installment (numbered from 1), an extra payment (number 0) or an adjustment (number -1). */
  datatype Event = Event(id: Id, line: Line, adjustment: bool, principal: int, interest: Option<int>, total: int,
                         transaction: Option<Id>, on: Date, created: nat)

  /** The loan and its rows: settled ones in the order they were settled, pending ones in the order they were
      inserted. `tick` numbers rows and moments. */
  datatype Debt = Debt(terms: Terms, paidOff: bool, history: seq<Event>, pending: seq<Planned>, tick: nat)

  datatype World = World(books: Books, debt: Debt, account: Id, description: string)

  // ---------------------------------------------------------------- queries

  function Repaid(history: seq<Event>): int {
    if history == [] then 0 else Repaid(history[..|history| - 1]) + history[|history| - 1].principal
  }

  /** `trackedRemainingCents`. */
  function Remaining(d: Debt): int {
    d.terms.principal - Repaid(d.history)
  }

  /** The largest number of a paid installment. */
  function LastNumber(history: seq<Event>): nat {
    if history == [] then 0
    else
      var last, before := history[|history| - 1], LastNumber(history[..|history| - 1]);
      if !last.adjustment && last.line.sequence > before then last.line.sequence else before
  }

  function LatestDate(history: seq<Event>): Option<Date> {
    if history == [] then None
    else
      var last, before := history[|history| - 1].on, LatestDate(history[..|history| - 1]);
      if before.Some? && Before(last, before.value) then before else Some(last)
  }

  function NextDue(pending: seq<Planned>): Option<Date> {
    if pending == [] then None
    else
      var last, before := pending[|pending| - 1].line.due, NextDue(pending[..|pending| - 1]);
      if before.Some? && !Before(last, before.value) then before else Some(last)
  }

  /** The position of the pending row with the smallest number. */
  function NextPending(pending: seq<Planned>): (k: nat)
    requires pending != []
    ensures k < |pending|
  {
    if |pending| == 1 then 0
    else
      var before := NextPending(pending[..|pending| - 1]);
      if pending[|pending| - 1].line.sequence < pending[before].line.sequence then |pending| - 1 else before
  }

  /** The position of the event settled last. */
  function LatestEvent(history: seq<Event>): (k: nat)
    requires history != []
    ensures k < |history|
  {
    if |history| == 1 then 0
    else
      var before, last := LatestEvent(history[..|history| - 1]), history[|history| - 1];
      if last.created >= history[before].created then |history| - 1 else before
  }

  function FindEvent(history: seq<Event>, id: Id): (k: Option<nat>)
    ensures k.Some? ==> k.value < |history| && history[k.value].id == id
  {
    if history == [] then None
    else if history[|history| - 1].id == id then Some(|history| - 1)
    else FindEvent(history[..|history| - 1], id)
  }

  predicate HasPlanned(pending: seq<Planned>, id: Id) {
    exists p <- pending :: p.id == id
  }

  function Without<T>(rows: seq<T>, k: nat): seq<T>
    requires k < |rows|
  {
    rows[..k] + rows[k + 1..]
  }

  // ---------------------------------------------------------------- projecting the rest

  function LineOf(row: Row): Line {
    Line(row.sequence, row.due, row.principal, row.interest, row.total)
  }

  /** Pending rows as inserted, one id each. */
  function Stored(rows: seq<Row>, tick: nat): (stored: seq<Planned>)
    ensures |stored| == |rows|
    ensures forall i :: 0 <= i < |rows| ==> stored[i] == Planned(tick + i, LineOf(rows[i]))
  {
    if rows == [] then []
    else Stored(rows[..|rows| - 1], tick) + [Planned(tick + |rows| - 1, LineOf(rows[|rows| - 1]))]
  }

  /** Where a new projection starts: at the next due date, or at the date an undone event gives back, or as
      many months after the first due date as installments were paid. */
  function Restart(d: Debt, fallback: Option<Date>): Date {
    if NextDue(d.pending).Some? then NextDue(d.pending).value
    else if fallback.Some? then fallback.value
    else AddMonthsRollover(d.terms.start, LastNumber(d.history))
  }

  function RestOf(d: Debt, start: Date): Terms {
    Terms(Remaining(d), d.terms.rateBps, d.terms.payment, MAX_MONTHS, start, d.terms.day)
  }

  /** `regenerateLoanSchedule`. */
  function Regenerate(d: Debt, fallback: Option<Date>): Result<Debt> {
    if Remaining(d) <= 0 then Ok(d.(pending := [], paidOff := true))
    else
      var rows := Schedule(RestOf(d, Restart(d, fallback)));
      if rows == [] || rows[|rows| - 1].remaining != 0 then Err(LoanInvalid)
      else
        var numbered := Renumbered(rows, LastNumber(d.history) + 1);
        Ok(d.(pending := Stored(numbered, d.tick), tick := d.tick + |numbered|, paidOff := false))
  }

  // ---------------------------------------------------------------- checks

  predicate ValidLoanDate(date: Date) {
    2000 <= date.year <= 2200
  }

  predicate InRange(amount: int) {
    0 <= amount <= MAX_AMOUNT
  }

  /** A debit account in pesos with tracking on. */
  function ValidLoanAccount(b: Books, id: Id): Result<()> {
    if id !in b.accounts then Err(NotFound)
    else if !b.accounts[id].kind.Debit? || b.accounts[id].currency != "MXN" || !b.accounts[id].tracking then Err(LoanInvalid)
    else Ok(())
  }

  /** No event before the latest one; an extra payment not after the next due date. */
  predicate ValidEventDate(d: Debt, date: Date, extra: bool) {
    && (LatestDate(d.history).Some? ==> !Before(date, LatestDate(d.history).value))
    && (extra && NextDue(d.pending).Some? ==> !Before(NextDue(d.pending).value, date))
  }

  // ---------------------------------------------------------------- opening a loan

  datatype LoanInput = LoanInput(account: Id, description: string, terms: Terms)

  predicate ValidLoanInput(input: LoanInput) {
    && !IsBlank(input.description) && |input.description| <= 500 && ValidLoanDate(input.terms.start)
    && ValidTerms(input.terms)
    && var rows := Schedule(input.terms);
       rows[0].due == input.terms.start && rows[|rows| - 1].remaining == 0
  }

  function CreateLoan(b: Books, input: LoanInput): Result<World> {
    if !ValidLoanInput(input) then Err(BadRequest)
    else
      var _ :- ValidLoanAccount(b, input.account);
      var rows := Schedule(input.terms);
      if rows == [] || rows[|rows| - 1].remaining != 0 then Err(LoanInvalid)
      else Ok(World(b, Debt(input.terms, false, [], Stored(rows, 0), |rows|), input.account, input.description))
  }

  // ---------------------------------------------------------------- paying an installment

  datatype PayInput = PayInput(date: Date, total: Option<int>, principal: Option<int>, interest: Option<int>, category: Option<Id>)

  predicate ValidPayInput(input: PayInput) {
    && ValidLoanDate(input.date)
    && (input.total.Some? ==> InRange(input.total.value) && input.total.value != 0)
    && (input.principal.Some? ==> InRange(input.principal.value))
    && (input.interest.Some? ==> InRange(input.interest.value))
  }

  /** Asking again to settle a settled row is accepted when nothing asked for differs from what was recorded. */
  predicate SameSettlement(e: Event, input: PayInput) {
    && e.on == input.date
    && (input.total.Some? ==> input.total.value == e.total)
    && (input.principal.Some? ==> input.principal.value == e.principal)
    && (input.interest.Some? ==> e.interest == input.interest)
  }

  /** The amounts recorded: as scheduled, except where the bank charged otherwise. */
  function Settle(line: Line, input: PayInput): (int, int, int) {
    (Or(input.total, line.total), Or(input.principal, line.principal), Or(input.interest, line.interest))
  }

  predicate ValidSplit(line: Line, input: PayInput, remaining: int) {
    var (total, principal, interest) := Settle(line, input);
    && principal >= 0 && interest >= 0 && principal <= remaining && principal + interest <= total
    && !(input.total.Some? && total < line.total && input.principal.None?)
  }

  function Expensed(w: World, amount: int, category: Option<Id>, date: Date, description: string): Transaction {
    Transaction(w.account, Expense, amount, category, date, description, None, None, true, None)
  }

  /** Book the expense that backs a payment. */
  function Book(w: World, t: Transaction): Result<Books> {
    var _ :- ValidLoanAccount(w.books, w.account);
    CreateManaged(w.books, t, LoanPayment)
  }

  function InstallmentLabel(w: World, number: int): string {
    w.description + " — mensualidad " + Decimal(number)
  }

  /** The pending row k becomes an event. */
  function SettleInstallment(d: Debt, k: nat, input: PayInput, transaction: Id): Debt
    requires k < |d.pending|
  {
    var row := d.pending[k];
    var (total, principal, interest) := Settle(row.line, input);
    var event := Event(row.id, row.line, false, principal, Some(interest), total, Some(transaction), input.date, d.tick);
    d.(history := d.history + [event], pending := Without(d.pending, k), tick := d.tick + 1)
  }

  function Pay(w: World, id: Id, input: PayInput): Result<World> {
    var d, found := w.debt, FindEvent(w.debt.history, id);
    if !ValidPayInput(input) then Err(BadRequest)
    else if found.Some? then
      if !d.history[found.value].adjustment && SameSettlement(d.history[found.value], input) then Ok(w) else Err(LoanInvalid)
    else if !HasPlanned(d.pending, id) then Err(NotFound)
    else
      var k := NextPending(d.pending);
      var line := d.pending[k].line;
      if d.pending[k].id != id || !ValidEventDate(d, input.date, false) || !ValidSplit(line, input, Remaining(d)) then Err(LoanInvalid)
      else
        var booked :- Book(w, Expensed(w, Settle(line, input).0, input.category, input.date, InstallmentLabel(w, line.sequence)));
        var debt :- Regenerate(SettleInstallment(d, k, input, w.books.nextId), None);
        Ok(w.(books := booked, debt := debt))
  }

  // ---------------------------------------------------------------- extra principal payments

  function SettleExtra(d: Debt, amount: int, date: Date, transaction: Id): Debt {
    var event := Event(d.tick, Line(0, date, amount, 0, amount), false, amount, None, amount, Some(transaction), date, d.tick);
    d.(history := d.history + [event], tick := d.tick + 1)
  }

  function AddExtraPayment(w: World, amount: int, date: Date, category: Option<Id>): Result<World> {
    if !ValidLoanDate(date) || amount <= 0 || amount > MAX_AMOUNT then Err(BadRequest)
    else if w.debt.paidOff || !ValidEventDate(w.debt, date, true) || amount > Remaining(w.debt) then Err(LoanInvalid)
    else
      var booked :- Book(w, Expensed(w, amount, category, date, w.description + " — aportación a capital"));
      var debt :- Regenerate(SettleExtra(w.debt, amount, date, w.books.nextId), None);
      Ok(w.(books := booked, debt := debt))
  }

  // ---------------------------------------------------------------- reconciling with the bank

  function SettleAdjustment(d: Debt, delta: int, date: Date): Debt {
    var event := Event(d.tick, Line(-1, date, 0, 0, 0), true, delta, None, 0, None, date, d.tick);
    d.(history := d.history + [event], tick := d.tick + 1)
  }

  function Reconcile(w: World, actual: int, date: Date): Result<World> {
    if !ValidLoanDate(date) || !InRange(actual) then Err(BadRequest)
    else if !ValidEventDate(w.debt, date, false) then Err(LoanInvalid)
    else if Remaining(w.debt) == actual then Ok(w)
    else
      var debt :- Regenerate(SettleAdjustment(w.debt, Remaining(w.debt) - actual, date), None);
      Ok(w.(debt := debt))
  }

  // ---------------------------------------------------------------- undoing the latest event

  /** The rows before regeneration: an installment is pending again, anything else is gone. */
  function Unsettle(d: Debt, k: nat): Debt
    requires k < |d.history|
  {
    var event := d.history[k];
    var rest := d.(history := Without(d.history, k));
    if event.line.sequence > 0 then rest.(pending := [Planned(d.tick, event.line)], tick := d.tick + 1) else rest
  }

  /** Reverse and delete the expense behind an event. */
  function Unbook(b: Books, e: Event): Result<Books> {
    if e.transaction.None? then Ok(b) else RemoveManaged(b, e.transaction.value)
  }

  function Undo(w: World, id: Id): Result<World> {
    var d, found := w.debt, FindEvent(w.debt.history, id);
    if found.None? && !HasPlanned(d.pending, id) then Err(NotFound)
    else if d.history == [] then Err(NotFound)
    else if found != Some(LatestEvent(d.history)) then Err(LoanInvalid)
    else
      var event := d.history[found.value];
      var books :- Unbook(w.books, event);
      var debt :- Regenerate(Unsettle(d, found.value), Some(event.line.due));
      Ok(w.(books := books, debt := debt))
  }

  // ---------------------------------------------------------------- everything else

  /** Change the label or the account future payments are booked on. */
  function UpdateLoan(w: World, account: Option<Id>, description: Option<string>): Result<World> {
    if description.Some? && (IsBlank(description.value) || |description.value| > 500) then Err(BadRequest)
    else
      var _ :- ValidLoanAccount(w.books, Or(account, w.account));
      Ok(w.(account := Or(account, w.account), description := Or(description, w.description)))
  }

  predicate Backs(history: seq<Event>, transaction: Id) {
    exists e <- history :: e.transaction == Some(transaction)
  }

  datatype Action =
    | PayNext(id: Id, input: PayInput)
    | PrepayPrincipal(amount: int, date: Date, category: Option<Id>)
    | MatchBank(actual: int, date: Date)
    | UndoEvent(id: Id)
    | EditLoan(account: Option<Id>, description: Option<string>)
    | OnBooks(request: Request)

  /** One request on the loan, or one of any other resource on the same books. Only this loan removes the
      transactions that back it. */
  function Act(w: World, a: Action): Result<World> {
    match a
    case PayNext(id, input) => Pay(w, id, input)
    case PrepayPrincipal(amount, date, category) => AddExtraPayment(w, amount, date, category)
    case MatchBank(actual, date) => Reconcile(w, actual, date)
    case UndoEvent(id) => Undo(w, id)
    case EditLoan(account, description) => UpdateLoan(w, account, description)
    case OnBooks(r) =>
      if r.DropManaged? && Backs(w.debt.history, r.id) then Err(LoanPaymentManaged)
      else
        var books :- Perform(w.books, r);
        Ok(w.(books := books))
  }

  function RunLoan(w: World, actions: seq<Action>): World
    decreases |actions|
  {
    if actions == [] then w else RunLoan(Committed(w, Act(w, actions[0])), actions[1..])
  }
}
