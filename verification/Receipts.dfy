/** Keyed creates of one user: a receipt is claimed before a resource is created and completed with its id in the same
    transaction, on top of a unique key column. Transfers into savings goals use the same column without a receipt. */
module Receipts {
  import opened Calendar
  import opened Common
  import opened Ledger
  import opened LedgerLaws
  import LedgerMeaning
  import opened SavedMoney
  import opened Savings
  import opened SavingsLaws
  import opened YieldLaws

  datatype Resource = Transactions | Purchases

  datatype Slot = Slot(resource: Resource, key: string)

  /** The data of a create request. The stored hash is taken to tell different requests apart. */
  datatype Draft = TransactionDraft(transaction: Transaction) | PurchaseDraft(purchase: PurchaseInput)

  datatype Receipt = Receipt(draft: Draft, resourceId: Option<Id>)

  /** `purchaseKeys` is the key column of purchases; that of transactions is part of the savings tables. */
  datatype Shelf = Shelf(pots: Pots, purchaseKeys: map<string, Id>, receipts: map<Slot, Receipt>)

  datatype Reply =
    | Created(id: Id)
    | Replayed(id: Id)
    | ReplayDeleted(id: Id)
    | Done
    | Refused(error: Error)

  datatype Order =
    | Create(key: Option<string>, draft: Draft)
    | Other(step: Step)

  function ResourceOf(draft: Draft): Resource {
    if draft.TransactionDraft? then Transactions else Purchases
  }

  function SlotOf(key: string, draft: Draft): Slot {
    Slot(ResourceOf(draft), key)
  }

  predicate Alive(b: Books, resource: Resource, id: Id) {
    if resource == Transactions then id in b.transactions else id in b.purchases
  }

  /** The row stored under a key. */
  function Holder(s: Shelf, slot: Slot): (id: Option<Id>)
    ensures id.Some? ==> Alive(s.pots.books, slot.resource, id.value)
  {
    if slot.resource == Transactions then
      if KeyInUse(s.pots, slot.key) then Some(s.pots.keys[slot.key]) else None
    else if slot.key in s.purchaseKeys && s.purchaseKeys[slot.key] in s.pots.books.purchases then Some(s.purchaseKeys[slot.key])
    else None
  }

  /** `beginIdempotentCreate` on an existing receipt. */
  function Replay(s: Shelf, slot: Slot, draft: Draft): Reply
    requires slot in s.receipts
  {
    var receipt := s.receipts[slot];
    if receipt.draft != draft then Refused(IdempotencyConflict)
    else if receipt.resourceId.None? then Refused(BadRequest)
    else if Alive(s.pots.books, slot.resource, receipt.resourceId.value) then Replayed(receipt.resourceId.value)
    else ReplayDeleted(receipt.resourceId.value)
  }

  /** Everything the request checks before its row is inserted. */
  function Admit(b: Books, draft: Draft): Result<()> {
    match draft
    case TransactionDraft(t) =>
      if t.purchase.Some? then Err(InstallmentManaged)
      else if !ValidShape(t) then Err(InvalidTransactionShape)
      else ValidateAccounts(b, t)
    case PurchaseDraft(p) =>
      if !ValidPurchase(p) then Err(BadRequest)
      else if p.account !in b.accounts then Err(NotFound)
      else if !b.accounts[p.account].kind.Credit? then Err(RequiresCreditAccount)
      else if !b.accounts[p.account].tracking then Err(TrackingNotEnabled)
      else Ok(())
  }

  /** A purchase found under the key of the request holds the same data. */
  predicate SamePurchase(row: Purchase, p: PurchaseInput) {
    && row.account == p.account && row.category == p.category && row.description == p.description
    && row.total == p.total && row.count == p.count && row.start == p.start
  }

  function Insert(b: Books, draft: Draft): Result<Books> {
    match draft
    case TransactionDraft(t) => CreateTransaction(b, t)
    case PurchaseDraft(p) => CreatePurchase(b, p)
  }

  function InsertPurchase(s: Shelf, key: Option<string>, p: PurchaseInput): Result<(Shelf, Id)> {
    var holder := if key.Some? then Holder(s, Slot(Purchases, key.value)) else None;
    if holder.Some? then
      if SamePurchase(s.pots.books.purchases[holder.value], p) then Ok((s, holder.value)) else Err(IdempotencyConflict)
    else
      var books :- CreatePurchase(s.pots.books, p);
      var keys := if key.Some? then s.purchaseKeys[key.value := s.pots.books.nextId] else s.purchaseKeys;
      Ok((s.(pots := s.pots.(books := books), purchaseKeys := keys), s.pots.books.nextId))
  }

  function InsertTransaction(s: Shelf, key: Option<string>, t: Transaction): Result<(Shelf, Id)> {
    var holder := if key.Some? then Holder(s, Slot(Transactions, key.value)) else None;
    var pots :- CreateMaybeKeyed(s.pots, key, t);
    Ok((s.(pots := pots), if holder.Some? then holder.value else s.pots.books.nextId))
  }

  /** Insert a row under an optional key, or find the stored row that has it. */
  function InsertKeyed(s: Shelf, key: Option<string>, draft: Draft): Result<(Shelf, Id)> {
    match draft
    case TransactionDraft(t) => InsertTransaction(s, key, t)
    case PurchaseDraft(p) => InsertPurchase(s, key, p)
  }

  /** A create with a receipt: claim, insert, complete; an error leaves nothing, the claim included. */
  function Submit(s: Shelf, key: Option<string>, draft: Draft): (Shelf, Reply) {
    var slot := if key.Some? then Some(SlotOf(key.value, draft)) else None;
    if draft.TransactionDraft? && draft.transaction.purchase.Some? then (s, Refused(InstallmentManaged))
    else if draft.TransactionDraft? && !ValidShape(draft.transaction) then (s, Refused(InvalidTransactionShape))
    else if slot.Some? && slot.value in s.receipts then (s, Replay(s, slot.value, draft))
    else
      var admitted := Admit(s.pots.books, draft);
      var inserted := InsertKeyed(s, key, draft);
      if admitted.Err? then (s, Refused(admitted.error))
      else if inserted.Err? then (s, Refused(inserted.error))
      else
        var (after, id) := inserted.value;
        (after.(receipts := if slot.None? then s.receipts else s.receipts[slot.value := Receipt(draft, Some(id))]), Created(id))
  }

  /** Keys go with their rows. */
  function LiveShelf(s: Shelf): Shelf {
    s.(pots := LiveKeys(s.pots),
       purchaseKeys := map key <- s.purchaseKeys | s.purchaseKeys[key] in s.pots.books.purchases :: s.purchaseKeys[key])
  }

  /** Ordinary transactions under a key are only created with a receipt. */
  function Serve(s: Shelf, o: Order): (Shelf, Reply) {
    match o
    case Create(key, draft) => Submit(s, key, draft)
    case Other(step) =>
      if step.Keyed? then (s, Refused(BadRequest))
      else
        var pots := Take(s.pots, step);
        if pots.Err? then (s, Refused(pots.error)) else (LiveShelf(s.(pots := pots.value)), Done)
  }

  function ServeAll(s: Shelf, orders: seq<Order>): Shelf
    decreases |orders|
  {
    if orders == [] then s else ServeAll(Serve(s, orders[0]).0, orders[1..])
  }

  const EMPTY_SHELF := Shelf(EMPTY_POTS, map[], map[])

  // ---------------------------------------------------------------- the invariant

  predicate KeysLive(s: Shelf) {
    && (forall key <- s.pots.keys :: s.pots.keys[key] in s.pots.books.transactions)
    && (forall key <- s.purchaseKeys :: s.purchaseKeys[key] in s.pots.books.purchases)
  }

  /** No committed receipt is incomplete, and every key belongs to a stored row. */
  ghost predicate Orderly(s: Shelf) {
    && PotsSound(s.pots)
    && (forall slot <- s.receipts :: s.receipts[slot].resourceId.Some? && ResourceOf(s.receipts[slot].draft) == slot.resource)
    && KeysLive(s) && RowsLinked(s.pots)
  }

  /** Receipts are never changed or dropped. */
  predicate Extends(before: map<Slot, Receipt>, after: map<Slot, Receipt>) {
    forall slot <- before :: slot in after && after[slot] == before[slot]
  }

  // ---------------------------------------------------------------- inserting

  lemma PlacedRows(b: Books, p: PurchaseInput)
    requires CreatePurchase(b, p).Ok?
    ensures var r := CreatePurchase(b, p).value;
            && b.nextId in r.purchases && (forall id <- b.purchases :: id in r.purchases)
            && (forall id <- b.transactions :: id in r.transactions)
  {
    hide Deltas, ValidShape, ValidateAccounts, InstallmentRows, MoveFunds;
  }

  /** What inserting changes: the row found or stored now holds the key, and every other key has the row it had. */
  lemma InsertedRows(s: Shelf, key: Option<string>, draft: Draft)
    requires KeysLive(s) && InsertKeyed(s, key, draft).Ok?
    ensures var (after, id) := InsertKeyed(s, key, draft).value;
            && after == s.(pots := s.pots.(books := after.pots.books, keys := after.pots.keys), purchaseKeys := after.purchaseKeys)
            && KeysLive(after) && Alive(after.pots.books, ResourceOf(draft), id)
            && (key.Some? ==> Holder(after, SlotOf(key.value, draft)) == Some(id))
            && (forall slot: Slot :: key.None? || slot != SlotOf(key.value, draft) ==> Holder(after, slot) == Holder(s, slot))
            && if key.Some? && Holder(s, SlotOf(key.value, draft)).Some?
               then after == s && id == Holder(s, SlotOf(key.value, draft)).value
               else id == s.pots.books.nextId && Insert(s.pots.books, draft) == Ok(after.pots.books)
  {
    hide CreateTransaction, CreatePurchase, ValidShape, ValidateAccounts;
    match draft
    case TransactionDraft(t) =>
      if key.None? || !KeyInUse(s.pots, key.value) {
        CreatedRows(s.pots.books, t);
      }
    case PurchaseDraft(p) =>
      if key.None? || Holder(s, Slot(Purchases, key.value)).None? {
        PlacedRows(s.pots.books, p);
      }
  }

  // ---------------------------------------------------------------- one order

  lemma SubmitKeeps(s: Shelf, key: Option<string>, draft: Draft)
    requires Orderly(s) && InsertKeyed(s, key, draft).Ok? && Submit(s, key, draft).1.Created?
    ensures PotsSound(Submit(s, key, draft).0.pots)
  {
    hide PotsSound, Insert, CreateMaybeKeyed, CreatePurchase, Holder;
    match draft
    case TransactionDraft(t) => MaybeKeyedKeeps(s.pots, key, t);
    case PurchaseDraft(p) =>
      if key.None? || Holder(s, Slot(Purchases, key.value)).None? {
        PurchaseKeeps(s.pots, p);
      }
  }

  lemma PurchaseKeeps(p: Pots, input: PurchaseInput)
    requires PotsSound(p) && CreatePurchase(p.books, input).Ok?
    ensures PotsSound(p.(books := CreatePurchase(p.books, input).value))
  {
    hide Consistent, GoalsAgree, RecordsBacked, RecordsTracked, DatesAgree, SharesLinked, CreatePurchase;
    RequestKeepsRecords(p.books, NewPurchase(input), p.reconciliations);
    RequestKeepsTracking(p.books, NewPurchase(input), p.reconciliations);
  }

  /** The step saves into a goal under the key of the slot. */
  predicate SavesAt(step: Step, slot: Slot) {
    slot.resource == Transactions && step.SaveTo? && step.save.key == slot.key
  }

  /** The row under the key saves into the goal. */
  ghost predicate Settled(s: Shelf, slot: Slot, g: Id) {
    slot.resource == Transactions && Holder(s, slot).Some? && SavedInto(s.pots, Holder(s, slot).value, g)
  }

  predicate Fresh(s: Shelf, slot: Slot) {
    Holder(s, slot).None? && slot !in s.receipts
  }

  /** Keys only change where a transfer is saved. */
  lemma KeysOfStep(p: Pots, step: Step, key: string)
    requires Take(p, step).Ok? && !step.Keyed?
    ensures var after := Take(p, step).value;
            && (key in after.keys ==> (key in p.keys && after.keys[key] == p.keys[key]) || (step.SaveTo? && step.save.key == key && !KeyInUse(p, key)))
            && (KeyInUse(p, key) && p.keys[key] in after.books.transactions ==> key in after.keys && after.keys[key] == p.keys[key])
  {
    hide CheckSave, CheckAssign, CheckMove, CheckYield, CheckUndo, ApplyDelta, CreateTransaction, ValidateAccounts, FindKey, FindPair, FindTransaction,
         BookYield, UnbookYield, DebitShares, CreditShares, ShareRows, YieldSplit, WithoutShares, LatestOf, Redated, Perform;
  }

  lemma OtherIsTake(s: Shelf, step: Step)
    requires Orderly(s) && Serve(s, Other(step)).1.Done?
    ensures !step.Keyed? && Take(s.pots, step).Ok?
    ensures var after := Serve(s, Other(step)).0;
            && after == LiveShelf(s.(pots := Take(s.pots, step).value)) && KeysLive(after) && after.receipts == s.receipts
            && PotsSound(after.pots) && RowsLinked(after.pots)
  {
    hide PotsSound, Take, RowsLinked;
    TakeKeeps(s.pots, step);
    TakeKeepsLinks(s.pots, step);
    LiveKeysKeep(Take(s.pots, step).value);
    LiveKeysKeepLinks(Take(s.pots, step).value);
  }

  lemma NextIsNew(p: Pots)
    requires PotsSound(p)
    ensures p.books.nextId !in p.books.transactions
  {
    hide Agrees, GoalsAgree, RecordsBacked, RecordsTracked, DatesAgree, SharesLinked;
  }

  function Lookup(p: Pots, key: string): Option<Id> {
    if KeyInUse(p, key) then Some(p.keys[key]) else None
  }

  predicate AllInUse(p: Pots) {
    forall key <- p.keys :: KeyInUse(p, key)
  }

  lemma KeyRemains(p: Pots, after: Pots, key: string)
    requires KeyInUse(p, key) && key in after.keys && after.keys[key] == p.keys[key] && p.keys[key] in after.books.transactions
    ensures Lookup(LiveKeys(after), key) == Lookup(p, key)
  {
  }

  lemma SavedHoldsKey(p: Pots, step: Step, key: string, g: Id)
    requires PotsSound(p) && Take(p, step).Ok? && !step.Keyed? && step != DropGoal(g) && KeyInUse(p, key) && SavedInto(p, p.keys[key], g)
    ensures var after := LiveKeys(Take(p, step).value);
            Lookup(after, key) == Lookup(p, key) && SavedInto(after, p.keys[key], g)
  {
    assert key in p.keys;
    hide *;
    var t := p.keys[key];
    SavedStays(p, step, t, g);
    SavedWithoutKeys(Take(p, step).value, t, g);
    SavedIsStored(p, step, t, g);
    KeysOfStep(p, step, key);
    KeyRemains(p, Take(p, step).value, key);
  }

  lemma SavedIsStored(p: Pots, step: Step, t: Id, g: Id)
    requires PotsSound(p) && Take(p, step).Ok? && SavedInto(Take(p, step).value, t, g)
    ensures t in Take(p, step).value.books.transactions
  {
    assert t in Take(p, step).value.books.managers;
    hide *;
    TakeKeeps(p, step);
    ManagedIsOld(Take(p, step).value, t);
  }

  lemma TransferTakesKey(p: Pots, goal: Id, input: SaveInput)
    requires PotsSound(p) && Save(p, goal, input).Ok? && !KeyInUse(p, input.key)
    ensures var after := LiveKeys(Save(p, goal, input).value);
            && Lookup(after, input.key) == Some(p.books.nextId) && p.books.nextId !in p.books.transactions
            && SavedInto(after, p.books.nextId, goal)
  {
    hide *;
    NextIsNew(p);
    TransferSaves(p, goal, input);
    SavedWithoutKeys(Save(p, goal, input).value, p.books.nextId, goal);
    NewKeyHolds(Save(p, goal, input).value, input.key);
  }

  lemma NewKeyHolds(p: Pots, key: string)
    requires key in p.keys && p.keys[key] in p.books.transactions
    ensures Lookup(LiveKeys(p), key) == Some(p.keys[key])
  {
  }

  lemma NoKeyAppears(p: Pots, step: Step, key: string)
    requires AllInUse(p) && Take(p, step).Ok? && !step.Keyed? && !(step.SaveTo? && step.save.key == key && !KeyInUse(p, key))
    ensures Lookup(LiveKeys(Take(p, step).value), key).Some? ==> Lookup(LiveKeys(Take(p, step).value), key) == Lookup(p, key)
  {
    KeysOfStep(p, step, key);
    hide Take;
  }

  lemma HolderWhenLive(s: Shelf, pots: Pots, slot: Slot)
    requires KeysLive(s)
    ensures slot.resource == Transactions ==>
              Holder(LiveShelf(s.(pots := pots)), slot) == Lookup(LiveKeys(pots), slot.key) && Holder(s, slot) == Lookup(s.pots, slot.key)
    ensures slot.resource == Purchases && Holder(LiveShelf(s.(pots := pots)), slot).Some? ==>
              Holder(LiveShelf(s.(pots := pots)), slot) == Holder(s, slot)
  {
  }

  lemma LiveMeansInUse(s: Shelf)
    requires KeysLive(s)
    ensures AllInUse(s.pots)
  {
  }

  /** What a request other than a create does to one key. */
  lemma OtherAt(s: Shelf, step: Step, slot: Slot)
    requires Orderly(s) && Serve(s, Other(step)).1.Done?
    ensures var after := Serve(s, Other(step)).0;
            && (if SavesAt(step, slot) && Holder(s, slot).None?
                then Settled(after, slot, step.goal) && Holder(after, slot) == Some(s.pots.books.nextId)
                     && s.pots.books.nextId !in s.pots.books.transactions
                else Holder(after, slot).Some? ==> Holder(after, slot) == Holder(s, slot))
            && (forall g: Id :: Settled(s, slot, g) && step != DropGoal(g) ==> Settled(after, slot, g))
  {
    OtherIsTake(s, step);
    LiveMeansInUse(s);
    var pots := Take(s.pots, step).value;
    hide PotsSound, SavedInto, Take, Serve, LiveKeys, KeysLive, Holder, Lookup, AllInUse;
    HolderWhenLive(s, pots, slot);
    if slot.resource == Transactions {
      TransactionKeyAt(s.pots, step, slot.key);
    }
  }

  lemma TransactionKeyAt(p: Pots, step: Step, key: string)
    requires PotsSound(p) && AllInUse(p) && Take(p, step).Ok? && !step.Keyed?
    ensures var after := LiveKeys(Take(p, step).value);
            && (if step.SaveTo? && step.save.key == key && Lookup(p, key).None?
                then Lookup(after, key) == Some(p.books.nextId) && p.books.nextId !in p.books.transactions
                     && SavedInto(after, p.books.nextId, step.goal)
                else Lookup(after, key).Some? ==> Lookup(after, key) == Lookup(p, key))
            && (forall g: Id :: Lookup(p, key).Some? && SavedInto(p, Lookup(p, key).value, g) && step != DropGoal(g) ==>
                  Lookup(after, key) == Lookup(p, key) && SavedInto(after, Lookup(p, key).value, g))
  {
    hide PotsSound, SavedInto, Take, Save, LiveKeys;
    forall g: Id | KeyInUse(p, key) && SavedInto(p, p.keys[key], g) && step != DropGoal(g)
      ensures Lookup(LiveKeys(Take(p, step).value), key) == Lookup(p, key) && SavedInto(LiveKeys(Take(p, step).value), p.keys[key], g)
    {
      SavedHoldsKey(p, step, key, g);
    }
    if step.SaveTo? && step.save.key == key && !KeyInUse(p, key) {
      TakeSaves(p, step);
      TransferTakesKey(p, step.goal, step.save);
    } else {
      NoKeyAppears(p, step, key);
    }
  }

  /** A create inserts its row, or finds it, and then has a receipt. */
  lemma SubmitForm(s: Shelf, key: Option<string>, draft: Draft)
    requires Submit(s, key, draft).1.Created?
    ensures InsertKeyed(s, key, draft).Ok? && (key.Some? ==> SlotOf(key.value, draft) !in s.receipts)
    ensures var (kept, id) := InsertKeyed(s, key, draft).value;
            Submit(s, key, draft) == (kept.(receipts := if key.None? then s.receipts else s.receipts[SlotOf(key.value, draft) := Receipt(draft, Some(id))]),
                                      Created(id))
  {
    hide InsertKeyed, Admit, ValidShape;
  }

  lemma HolderOfRows(s: Shelf, receipts: map<Slot, Receipt>, slot: Slot)
    ensures Holder(s.(receipts := receipts), slot) == Holder(s, slot)
  {
  }

  /** What a create does to one key. */
  lemma SubmitAt(s: Shelf, key: Option<string>, draft: Draft, slot: Slot)
    requires KeysLive(s) && Submit(s, key, draft).1.Created?
    ensures var (after, reply) := Submit(s, key, draft);
            && KeysLive(after)
            && (if key.Some? && slot == SlotOf(key.value, draft)
                then
                  && slot !in s.receipts && after.receipts == s.receipts[slot := Receipt(draft, Some(reply.id))]
                  && Holder(after, slot) == Some(reply.id)
                  && (Holder(s, slot).Some? ==> after.pots == s.pots && Holder(after, slot) == Holder(s, slot))
                  && (Holder(s, slot).None? ==> reply.id == s.pots.books.nextId && Insert(s.pots.books, draft) == Ok(after.pots.books))
                else Holder(after, slot) == Holder(s, slot) && (slot in after.receipts <==> slot in s.receipts))
  {
    SubmitForm(s, key, draft);
    InsertedRows(s, key, draft);
    hide InsertKeyed, Insert, Holder, Submit;
    HolderOfRows(InsertKeyed(s, key, draft).value.0, Submit(s, key, draft).0.receipts, slot);
  }

  function RequestOf(draft: Draft): Request {
    match draft
    case TransactionDraft(t) => NewTransaction(t)
    case PurchaseDraft(p) => NewPurchase(p)
  }

  lemma InsertIsRequest(b: Books, draft: Draft)
    ensures Insert(b, draft) == Perform(b, RequestOf(draft)) && !RequestOf(draft).DropManaged?
  {
    hide CreateTransaction, CreatePurchase;
  }

  lemma SavedSurvivesSubmit(s: Shelf, key: Option<string>, draft: Draft, t: Id, g: Id)
    requires PotsSound(s.pots) && KeysLive(s) && SavedInto(s.pots, t, g) && Submit(s, key, draft).1.Created?
    ensures SavedInto(Submit(s, key, draft).0.pots, t, g)
  {
    hide *;
    SubmitForm(s, key, draft);
    InsertedRows(s, key, draft);
    InsertIsRequest(s.pots.books, draft);
    var after := Submit(s, key, draft).0;
    if after.pots != s.pots {
      SavedSurvivesCreation(s.pots, after.pots, RequestOf(draft), t, g);
    }
  }

  lemma LinksAfterSubmit(s: Shelf, key: Option<string>, draft: Draft)
    requires Orderly(s) && Submit(s, key, draft).1.Created?
    ensures RowsLinked(Submit(s, key, draft).0.pots)
  {
    hide PotsSound, RowsLinked, KeysLive, Submit, InsertKeyed, Insert, Perform, Holder;
    SubmitForm(s, key, draft);
    InsertedRows(s, key, draft);
    InsertIsRequest(s.pots.books, draft);
    var after := Submit(s, key, draft).0;
    if after.pots != s.pots {
      CreationKeepsLinks(s.pots, after.pots, RequestOf(draft));
    }
  }

  lemma SettledAfterSubmit(s: Shelf, key: Option<string>, draft: Draft, slot: Slot, g: Id)
    requires Orderly(s) && Submit(s, key, draft).1.Created? && Settled(s, slot, g)
    ensures Settled(Submit(s, key, draft).0, slot, g)
  {
    hide PotsSound, SavedInto, Submit, Holder, KeysLive;
    SubmitAt(s, key, draft, slot);
    SavedSurvivesSubmit(s, key, draft, Holder(s, slot).value, g);
  }

  lemma ReceiptsAfterSubmit(s: Shelf, key: Option<string>, draft: Draft)
    requires Orderly(s) && Submit(s, key, draft).1.Created?
    ensures var after := Submit(s, key, draft).0;
            && Extends(s.receipts, after.receipts)
            && forall slot <- after.receipts :: after.receipts[slot].resourceId.Some? && ResourceOf(after.receipts[slot].draft) == slot.resource
  {
    hide PotsSound, InsertKeyed, Submit, KeysLive;
    SubmitForm(s, key, draft);
  }

  /** Every order keeps the shelf orderly and every receipt. */
  lemma ServeKeeps(s: Shelf, o: Order)
    requires Orderly(s)
    ensures Orderly(Serve(s, o).0) && Extends(s.receipts, Serve(s, o).0.receipts)
  {
    hide PotsSound, Submit, Take, LiveShelf, KeysLive, RowsLinked;
    match o {
      case Create(key, draft) =>
        RefusedChangesNothing(s, key, draft);
        if Submit(s, key, draft).1.Created? {
          SubmitForm(s, key, draft);
          SubmitKeeps(s, key, draft);
          SubmitAt(s, key, draft, Slot(Transactions, ""));
          ReceiptsAfterSubmit(s, key, draft);
          LinksAfterSubmit(s, key, draft);
        }
      case Other(step) =>
        if Serve(s, o).1.Done? {
          OtherIsTake(s, step);
        }
    }
  }

  lemma RefusedChangesNothing(s: Shelf, key: Option<string>, draft: Draft)
    ensures !Submit(s, key, draft).1.Created? ==> Submit(s, key, draft).0 == s
  {
    hide InsertKeyed, Admit, ValidShape;
  }

  lemma {:induction false} ServeAllKeeps(s: Shelf, orders: seq<Order>)
    requires Orderly(s)
    ensures Orderly(ServeAll(s, orders)) && Extends(s.receipts, ServeAll(s, orders).receipts)
    decreases |orders|
  {
    hide Serve, Orderly;
    if orders != [] {
      ServeKeeps(s, orders[0]);
      ServeAllKeeps(Serve(s, orders[0]).0, orders[1..]);
    }
  }

  lemma EmptyIsOrderly(categories: set<Id>)
    ensures Orderly(EMPTY_SHELF.(pots := EMPTY_POTS.(incomeCategories := categories)))
  {
    EmptyIsSound(categories);
    hide PotsSound;
  }

  // ---------------------------------------------------------------- receipts

  /** No committed receipt is ever incomplete. */
  lemma ReceiptsAreComplete(categories: set<Id>, orders: seq<Order>, slot: Slot)
    ensures var s := ServeAll(EMPTY_SHELF.(pots := EMPTY_POTS.(incomeCategories := categories)), orders);
            slot in s.receipts ==> s.receipts[slot].resourceId.Some?
  {
    hide ServeAll, PotsSound;
    EmptyIsOrderly(categories);
    ServeAllKeeps(EMPTY_SHELF.(pots := EMPTY_POTS.(incomeCategories := categories)), orders);
  }

  /** Once a keyed create succeeded, whatever happened since, the same request again answers with the same id or says
      that it was deleted, another request under the key is refused, and neither changes anything. */
  lemma KeyIsSpent(s: Shelf, key: string, draft: Draft, orders: seq<Order>, again: Draft)
    requires Orderly(s) && Submit(s, Some(key), draft).1.Created? && ResourceOf(again) == ResourceOf(draft)
    ensures var first := Submit(s, Some(key), draft);
            var later := ServeAll(first.0, orders);
            var reply := Submit(later, Some(key), again);
            && reply.0 == later
            && (again == draft ==> reply.1 == if Alive(later.pots.books, ResourceOf(draft), first.1.id) then Replayed(first.1.id) else ReplayDeleted(first.1.id))
            && (again != draft ==> reply.1.Refused?)
  {
    hide ServeAll, Orderly, Alive, ValidShape, InsertKeyed, Admit;
    var first := Submit(s, Some(key), draft);
    SubmitForm(s, Some(key), draft);
    assert first.0.receipts[SlotOf(key, draft)] == Receipt(draft, Some(first.1.id));
    ServeKeeps(s, Create(Some(key), draft));
    ServeAllKeeps(first.0, orders);
  }

  /** A refused or replayed order changes nothing: a failed create can be retried under its key. */
  lemma OnlyAcceptedChanges(s: Shelf, o: Order)
    requires !Serve(s, o).1.Created? && !Serve(s, o).1.Done?
    ensures Serve(s, o).0 == s
  {
    hide Take, LiveShelf, Submit;
    if o.Create? {
      RefusedChangesNothing(s, o.key, o.draft);
    }
  }

  /** A keyed create and any number of repetitions of it, in a row, end where the first one does. */
  lemma {:induction false} RetriesChangeNothing(s: Shelf, key: string, draft: Draft, retries: nat)
    requires Orderly(s)
    ensures ServeAll(s, seq(retries + 1, _ => Create(Some(key), draft))) == Serve(s, Create(Some(key), draft)).0
    decreases retries
  {
    hide Orderly, Serve;
    var o, orders := Create(Some(key), draft), seq(retries + 1, _ => Create(Some(key), draft));
    var after := Serve(s, o).0;
    assert orders[1..] == seq(retries, _ => o);
    if retries > 0 {
      ServeKeeps(s, o);
      RetriesChangeNothing(after, key, draft, retries - 1);
      SecondTry(s, key, draft);
    } else {
      assert orders[1..] == [];
    }
  }

  lemma SecondTry(s: Shelf, key: string, draft: Draft)
    ensures var o := Create(Some(key), draft); Serve(Serve(s, o).0, o).0 == Serve(s, o).0
  {
    hide Admit, InsertKeyed, ValidShape;
  }

  // ---------------------------------------------------------------- how often a key takes effect

  /** The order stores a new row under the key. */
  predicate Inserts(s: Shelf, o: Order, slot: Slot) {
    var after := Serve(s, o).0;
    Holder(after, slot).Some? && !Alive(s.pots.books, slot.resource, Holder(after, slot).value)
  }

  /** A create that passes its checks, under a key with neither a receipt nor a row. */
  predicate Creates(s: Shelf, o: Order, slot: Slot) {
    && o.Create? && o.key.Some? && SlotOf(o.key.value, o.draft) == slot
    && slot !in s.receipts && Holder(s, slot).None? && Admit(s.pots.books, o.draft).Ok?
  }

  /** A transfer into a goal that passes its checks, under a key without a row. */
  predicate Transfers(s: Shelf, o: Order, slot: Slot) {
    && o.Other? && SavesAt(o.step, slot) && Holder(s, slot).None?
    && CheckSave(s.pots, o.step.goal, o.step.save).Ok? && ValidateAccounts(s.pots.books, SaveTransfer(o.step.save)).Ok?
  }

  /** A transfer that takes the key of a create whose row is gone. */
  predicate Reuses(s: Shelf, o: Order, slot: Slot) {
    Transfers(s, o, slot) && slot in s.receipts
  }

  /** The deletion of the goal that the row under the key saves into. */
  ghost predicate Frees(s: Shelf, o: Order, slot: Slot) {
    o.Other? && o.step.DropGoal? && Settled(s, slot, o.step.goal)
  }

  datatype Event = Insertion | Creation | Saving | Reuse | Freeing

  ghost predicate Happens(e: Event, s: Shelf, o: Order, slot: Slot) {
    match e
    case Insertion => Inserts(s, o, slot)
    case Creation => Creates(s, o, slot)
    case Saving => Transfers(s, o, slot)
    case Reuse => Reuses(s, o, slot)
    case Freeing => Frees(s, o, slot)
  }

  /** How many orders of a run are such an event for the key. */
  ghost function Times(e: Event, s: Shelf, orders: seq<Order>, slot: Slot): nat
    decreases |orders|
  {
    if orders == [] then 0
    else (if Happens(e, s, orders[0], slot) then 1 else 0) + Times(e, Serve(s, orders[0]).0, orders[1..], slot)
  }

  lemma NothingNew(s: Shelf, slot: Slot)
    ensures Holder(s, slot).Some? ==> Alive(s.pots.books, slot.resource, Holder(s, slot).value)
  {
  }

  lemma NextIdIsFree(s: Shelf, slot: Slot)
    requires Orderly(s)
    ensures !Alive(s.pots.books, slot.resource, s.pots.books.nextId)
  {
    hide Agrees, GoalsAgree, RecordsBacked, RecordsTracked, DatesAgree, SharesLinked;
  }

  /** What a create checks is all that inserting its row needs. */
  lemma AdmittedIsInserted(b: Books, draft: Draft)
    requires Consistent(b)
    ensures Insert(b, draft).Ok? <==> Admit(b, draft).Ok?
  {
    match draft
    case TransactionDraft(t) =>
      hide Consistent, CreateTransaction, ValidShape, ValidateAccounts;
      LedgerMeaning.CreationMoves(b, t);
    case PurchaseDraft(p) =>
      hide Sum, Linked, InsertInstallments;
      if p.account in b.accounts {
        AccountOf(b, p.account);
      }
  }

  lemma SubmitIsAdmitted(s: Shelf, key: string, draft: Draft)
    requires Orderly(s) && Holder(s, SlotOf(key, draft)).None?
    ensures Submit(s, Some(key), draft).1.Created? <==> SlotOf(key, draft) !in s.receipts && Admit(s.pots.books, draft).Ok?
  {
    SoundBooks(s.pots);
    AdmittedIsInserted(s.pots.books, draft);
    hide PotsSound, Consistent, CreateTransaction, CreatePurchase, ValidShape, ValidateAccounts, ValidPurchase, Replay;
  }

  lemma SavingIsServed(s: Shelf, step: Step, slot: Slot)
    requires Orderly(s) && SavesAt(step, slot) && Holder(s, slot).None?
    ensures Serve(s, Other(step)).1.Done?
            <==> CheckSave(s.pots, step.goal, step.save).Ok? && ValidateAccounts(s.pots.books, SaveTransfer(step.save)).Ok?
  {
    hide PotsSound, CheckSave, SaveAnew, FindTransaction;
    if CheckSave(s.pots, step.goal, step.save).Ok? {
      SaveIsAccepted(s.pots, step.goal, step.save);
    }
  }

  /** How one order moves a key: it stores a row exactly as a create or as a transfer, both of which find none; the one
      leaves a receipt and the other money saved, which stays until its goal is deleted. */
  lemma KeyMoves(s: Shelf, o: Order, slot: Slot)
    requires Orderly(s)
    ensures var after := Serve(s, o).0;
            && (Inserts(s, o, slot) <==> Creates(s, o, slot) || Transfers(s, o, slot))
            && (slot in s.receipts || Creates(s, o, slot) ==> slot in after.receipts)
            && (Transfers(s, o, slot) ==> Settled(after, slot, o.step.goal))
            && (forall g: Id :: Settled(s, slot, g) && o != Other(DropGoal(g)) ==> Settled(after, slot, g))
            && (Fresh(s, slot) && !Inserts(s, o, slot) ==> Fresh(after, slot))
  {
    match o
    case Create(key, draft) => CreateMoves(s, key, draft, slot);
    case Other(step) => OtherMoves(s, step, slot);
  }

  lemma CreateMoves(s: Shelf, key: Option<string>, draft: Draft, slot: Slot)
    requires Orderly(s)
    ensures var o := Create(key, draft);
            var after := Serve(s, o).0;
            && (Inserts(s, o, slot) <==> Creates(s, o, slot))
            && (slot in s.receipts || Creates(s, o, slot) ==> slot in after.receipts)
            && (forall g: Id :: Settled(s, slot, g) ==> Settled(after, slot, g))
            && (Fresh(s, slot) && !Inserts(s, o, slot) ==> Fresh(after, slot))
  {
    NothingNew(s, slot);
    NextIdIsFree(s, slot);
    RefusedChangesNothing(s, key, draft);
    if key.Some? && slot == SlotOf(key.value, draft) && Holder(s, slot).None? {
      SubmitIsAdmitted(s, key.value, draft);
    }
    if Submit(s, key, draft).1.Created? {
      SubmitAt(s, key, draft, slot);
      forall g: Id | Settled(s, slot, g) ensures Settled(Submit(s, key, draft).0, slot, g) {
        SettledAfterSubmit(s, key, draft, slot, g);
      }
    }
    hide Orderly, SavedInto, Submit, Holder, Alive, Insert, Admit;
  }

  lemma OtherMoves(s: Shelf, step: Step, slot: Slot)
    requires Orderly(s)
    ensures var o := Other(step);
            var after := Serve(s, o).0;
            && (Inserts(s, o, slot) <==> Transfers(s, o, slot))
            && (slot in s.receipts ==> slot in after.receipts)
            && (Transfers(s, o, slot) ==> Settled(after, slot, step.goal))
            && (forall g: Id :: Settled(s, slot, g) && step != DropGoal(g) ==> Settled(after, slot, g))
            && (Fresh(s, slot) && !Inserts(s, o, slot) ==> Fresh(after, slot))
  {
    NothingNew(s, slot);
    OtherReplies(s, step);
    if SavesAt(step, slot) && Holder(s, slot).None? {
      SavingIsServed(s, step, slot);
    }
    if Serve(s, Other(step)).1.Done? {
      OtherIsTake(s, step);
      OtherAt(s, step, slot);
    } else {
      OnlyAcceptedChanges(s, Other(step));
    }
    hide Orderly, SavedInto, Serve, Holder, Take, CheckSave, ValidateAccounts;
  }

  lemma OtherReplies(s: Shelf, step: Step)
    ensures !Serve(s, Other(step)).1.Created?
  {
    hide Take, LiveShelf;
  }

  ghost predicate Saved(s: Shelf, slot: Slot) {
    exists g: Id :: Settled(s, slot, g)
  }

  lemma SavedMoves(s: Shelf, o: Order, slot: Slot)
    requires Orderly(s)
    ensures Transfers(s, o, slot) ==> !Saved(s, slot) && Saved(Serve(s, o).0, slot)
    ensures Saved(s, slot) && !Frees(s, o, slot) ==> Saved(Serve(s, o).0, slot)
  {
    KeyMoves(s, o, slot);
    hide Serve, Holder, SavedInto, Orderly, CheckSave, ValidateAccounts;
  }

  /** Over any run of requests, the rows stored under a key are those of creates and of transfers into goals that found
      no row under it. A create stores one at most, and none once there is a receipt; a transfer stores another one only
      after the goal that the row of the last one saved into was deleted. */
  lemma {:induction false} RowsUnderKey(s: Shelf, orders: seq<Order>, slot: Slot)
    requires Orderly(s)
    ensures Times(Insertion, s, orders, slot) == Times(Creation, s, orders, slot) + Times(Saving, s, orders, slot)
    ensures Times(Creation, s, orders, slot) <= if slot in s.receipts then 0 else 1
    ensures Times(Saving, s, orders, slot) <= Times(Freeing, s, orders, slot) + if Saved(s, slot) then 0 else 1
    decreases |orders|
  {
    hide Orderly, Serve, Inserts, Settled, Saved, Holder;
    if orders != [] {
      KeyMoves(s, orders[0], slot);
      SavedMoves(s, orders[0], slot);
      ServeKeeps(s, orders[0]);
      RowsUnderKey(Serve(s, orders[0]).0, orders[1..], slot);
    }
  }

  /** Once a key has a receipt, every further row is a transfer that took the key of the create. */
  lemma {:induction false} FurtherRowsAreReuses(s: Shelf, orders: seq<Order>, slot: Slot)
    requires Orderly(s) && slot in s.receipts
    ensures Times(Insertion, s, orders, slot) == Times(Reuse, s, orders, slot)
    decreases |orders|
  {
    hide Orderly, Serve, Inserts, Transfers, Holder;
    if orders != [] {
      KeyMoves(s, orders[0], slot);
      ServeKeeps(s, orders[0]);
      FurtherRowsAreReuses(Serve(s, orders[0]).0, orders[1..], slot);
    }
  }

  /** Money that stays saved keeps the key. */
  lemma {:induction false} SavedKeyStoresNothing(s: Shelf, orders: seq<Order>, slot: Slot)
    requires Orderly(s) && Saved(s, slot) && Times(Freeing, s, orders, slot) == 0
    ensures Times(Insertion, s, orders, slot) == 0 && Times(Reuse, s, orders, slot) == 0
    decreases |orders|
  {
    hide Orderly, Serve, Inserts, Transfers, Frees, SavedInto;
    if orders != [] {
      KeyMoves(s, orders[0], slot);
      SavedMoves(s, orders[0], slot);
      ServeKeeps(s, orders[0]);
      SavedKeyStoresNothing(Serve(s, orders[0]).0, orders[1..], slot);
    }
  }

  lemma TimesMore(e: Event, s: Shelf, orders: seq<Order>, slot: Slot)
    requires orders != []
    ensures Times(e, s, orders, slot)
            == (if Happens(e, s, orders[0], slot) then 1 else 0) + Times(e, Serve(s, orders[0]).0, orders[1..], slot)
  {
    hide Happens, Serve;
  }

  /** The three things an order can do to a fresh key. */
  lemma FreshKeyMoves(s: Shelf, o: Order, slot: Slot)
    requires Orderly(s) && Fresh(s, slot)
    ensures var after := Serve(s, o).0;
            && Orderly(after) && !Happens(Reuse, s, o, slot)
            && (if !Happens(Insertion, s, o, slot) then Fresh(after, slot) else slot in after.receipts || Saved(after, slot))
  {
    hide Orderly, Serve, Inserts, Holder, SavedInto, Settled;
    KeyMoves(s, o, slot);
    ServeKeeps(s, o);
    SavedMoves(s, o, slot);
  }

  /** As long as no goal that money under the key was saved into is deleted, an unused key stores at most two rows, and
      it stores no second one exactly when no transfer takes the key of a create whose row is gone. */
  lemma {:induction false} StoredOnce(s: Shelf, orders: seq<Order>, slot: Slot)
    requires Orderly(s) && Fresh(s, slot) && Times(Freeing, s, orders, slot) == 0
    ensures Times(Insertion, s, orders, slot) <= 2 && Times(Reuse, s, orders, slot) <= 1
    ensures Times(Insertion, s, orders, slot) <= 1 <==> Times(Reuse, s, orders, slot) == 0
    decreases |orders|
  {
    hide *;
    if orders == [] {
      NoOrders(Insertion, s, slot);
      NoOrders(Reuse, s, slot);
    } else {
      var after := Serve(s, orders[0]).0;
      FreshKeyMoves(s, orders[0], slot);
      TimesMore(Insertion, s, orders, slot);
      TimesMore(Reuse, s, orders, slot);
      TimesMore(Freeing, s, orders, slot);
      if !Happens(Insertion, s, orders[0], slot) {
        StoredOnce(after, orders[1..], slot);
      } else if slot in after.receipts {
        FurtherRowsAreReuses(after, orders[1..], slot);
        OneReuse(after, orders[1..], slot);
      } else {
        SavedKeyStoresNothing(after, orders[1..], slot);
      }
    }
  }

  lemma NoOrders(e: Event, s: Shelf, slot: Slot)
    ensures Times(e, s, [], slot) == 0
  {
  }

  lemma OneReuse(s: Shelf, orders: seq<Order>, slot: Slot)
    requires Orderly(s) && slot in s.receipts && Times(Freeing, s, orders, slot) == 0
    ensures Times(Insertion, s, orders, slot) <= 1
  {
    hide *;
    RowsUnderKey(s, orders, slot);
  }

  /** Purchases are only created: a key of theirs stores at most one. */
  lemma PurchasesAreStoredOnce(s: Shelf, orders: seq<Order>, slot: Slot)
    requires Orderly(s) && slot.resource == Purchases
    ensures Times(Insertion, s, orders, slot) <= if slot in s.receipts then 0 else 1
  {
    NeverSaved(s, orders, slot);
    RowsUnderKey(s, orders, slot);
  }

  lemma {:induction false} NeverSaved(s: Shelf, orders: seq<Order>, slot: Slot)
    requires slot.resource == Purchases
    ensures Times(Saving, s, orders, slot) == 0
    decreases |orders|
  {
    hide Serve, Holder;
    if orders != [] {
      NeverSaved(Serve(s, orders[0]).0, orders[1..], slot);
    }
  }

  /** The ledger moves with the row and not otherwise: a create or a transfer under a key that stores no row leaves the
      books as they were, and one that does leaves exactly the books of that one creation. */
  lemma LedgerMovesWithTheRow(s: Shelf, o: Order, slot: Slot)
    requires Orderly(s)
    requires if o.Create? then o.key.Some? && SlotOf(o.key.value, o.draft) == slot else SavesAt(o.step, slot)
    ensures var after := Serve(s, o).0.pots.books;
            if !Inserts(s, o, slot) then after == s.pots.books
            else if o.Create? then Insert(s.pots.books, o.draft) == Ok(after)
            else CreateManaged(s.pots.books, SaveTransfer(o.step.save), SavingsAllocation) == Ok(after)
  {
    match o
    case Create(key, draft) => CreateBooks(s, key.value, draft);
    case Other(step) => SavingBooks(s, step, slot);
  }

  lemma CreateBooks(s: Shelf, key: string, draft: Draft)
    requires Orderly(s)
    ensures var o, slot := Create(Some(key), draft), SlotOf(key, draft);
            var after := Serve(s, o).0.pots.books;
            if !Inserts(s, o, slot) then after == s.pots.books else Insert(s.pots.books, draft) == Ok(after)
  {
    var slot := SlotOf(key, draft);
    NothingNew(s, slot);
    NextIdIsFree(s, slot);
    RefusedChangesNothing(s, Some(key), draft);
    if Submit(s, Some(key), draft).1.Created? {
      SubmitAt(s, Some(key), draft, slot);
    }
    hide Orderly, Submit, Holder, Insert;
  }

  lemma SavingBooks(s: Shelf, step: Step, slot: Slot)
    requires Orderly(s) && SavesAt(step, slot)
    ensures var after := Serve(s, Other(step)).0.pots.books;
            if !Inserts(s, Other(step), slot) then after == s.pots.books
            else CreateManaged(s.pots.books, SaveTransfer(step.save), SavingsAllocation) == Ok(after)
  {
    hide *;
    NothingNew(s, slot);
    OtherReplies(s, step);
    KeyOfTransfer(s, step, slot);
    TakeSaves(s.pots, step);
    if Serve(s, Other(step)).1.Done? {
      OtherIsTake(s, step);
      OtherAt(s, step, slot);
      TransferBooks(s.pots, step.goal, step.save);
    } else {
      OnlyAcceptedChanges(s, Other(step));
    }
    InsertsMeans(s, Other(step), slot);
  }

  lemma KeyOfTransfer(s: Shelf, step: Step, slot: Slot)
    requires SavesAt(step, slot)
    ensures step.SaveTo? && slot.resource == Transactions && (Holder(s, slot).Some? <==> KeyInUse(s.pots, step.save.key))
    ensures forall pots: Pots :: LiveShelf(s.(pots := pots)).pots.books == pots.books
  {
  }

  lemma InsertsMeans(s: Shelf, o: Order, slot: Slot)
    ensures Inserts(s, o, slot)
            <==> Holder(Serve(s, o).0, slot).Some? && !Alive(s.pots.books, slot.resource, Holder(Serve(s, o).0, slot).value)
    ensures slot.resource == Transactions ==> forall id: Id :: Alive(s.pots.books, slot.resource, id) <==> id in s.pots.books.transactions
  {
    hide Serve, Holder;
  }

  lemma TransferBooks(p: Pots, goal: Id, input: SaveInput)
    requires Save(p, goal, input).Ok?
    ensures if KeyInUse(p, input.key) then Save(p, goal, input).value == p
            else CreateManaged(p.books, SaveTransfer(input), SavingsAllocation) == Ok(Save(p, goal, input).value.books)
  {
    hide CheckSave, ApplyDelta, CreateManaged, FindTransaction, ValidateAccounts;
  }
}
