/** What each handler of the transaction lifecycle does to the stored rows
    (backend/app/transactions_api.py and the accountant_*_api.py modules),
    one function per handler, and the whole set of handlers as one datatype. */
module Lifecycle {
  import opened Mongo
  import opened Badges
  import opened Ascii

  // ---------------------------------------------------------------- unique indexes

  datatype Index = ClientRow | DailyRow | MasterRow

  /** The entry a document has in a partial unique index, if it is covered by it. */
  function IndexEntry(ix: Index, d: Doc): Option<(Value, Value)> {
    match ix
    case ClientRow =>
      if ClientRowId in d && IsString(d[ClientRowId]) && CashierId in d
      then Some((d[CashierId], d[ClientRowId])) else None
    case DailyRow =>
      if DailyImportId in d && IsString(d[DailyImportId]) && ImportRowKey in d && IsString(d[ImportRowKey])
      then Some((d[DailyImportId], d[ImportRowKey])) else None
    case MasterRow =>
      if MasterImportSource in d && IsString(d[MasterImportSource]) && MasterSerial in d
      then Some((d[MasterImportSource], d[MasterSerial])) else None
  }

  predicate SameEntry(ix: Index, d: Doc, e: Doc) {
    IndexEntry(ix, d).Some? && IndexEntry(ix, d) == IndexEntry(ix, e)
  }

  /** `insert_one` raises DuplicateKeyError. */
  predicate Clashes(rows: Rows, d: Doc) {
    exists id, ix: Index | id in rows :: SameEntry(ix, rows[id], d)
  }

  predicate IndexesHold(rows: Rows) {
    forall i, j, ix: Index | i in rows && j in rows && i != j :: !SameEntry(ix, rows[i], rows[j])
  }

  /** `_client_row_key`: the idempotency key of a register create. */
  function ClientRowKey(d: Doc): Option<(Value, Value)> {
    if ClientRowId in d && IsString(d[ClientRowId]) && d[ClientRowId] != Text("")
       && CashierId in d && d[CashierId] != Null
    then Some((d[CashierId], d[ClientRowId])) else None
  }

  // ---------------------------------------------------------------- creating rows

  datatype Outcome = Created | AlreadyExists | Failed

  function SameClientRow(rows: Rows, key: (Value, Value)): set<Id> {
    set id | id in rows && Get(rows[id], CashierId) == Some(key.0) && Get(rows[id], ClientRowId) == Some(key.1)
  }

  function CreateOutcome(rows: Rows, d: Doc): Outcome {
    if ClientRowKey(d).Some? && SameClientRow(rows, ClientRowKey(d).value) != {} then AlreadyExists
    else if Clashes(rows, d) then Failed
    else Created
  }

  function CreateRow(rows: Rows, id: Id, d: Doc): Rows {
    if CreateOutcome(rows, d) == Created then rows[id := d] else rows
  }

  /** One entry of a bulk create: the candidate `_id` and the built document, or
      None when `_create_document` raised. */
  datatype NewRow = NewRow(id: Id, doc: Option<Doc>)

  function CreateItem(rows: Rows, item: NewRow): Rows {
    if item.doc.Some? then CreateRow(rows, item.id, item.doc.value) else rows
  }

  /** Creating the items one request at a time. */
  function CreateAll(rows: Rows, items: seq<NewRow>): Rows {
    if items == [] then rows
    else CreateItem(CreateAll(rows, items[..|items| - 1]), items[|items| - 1])
  }

  // ---------------------------------------------------------------- pending edits

  function EditMeta(original: Id, cashier: Value, now: int): Doc {
    map[OriginalTransactionId := Oid(original), EditedAfterVerification := YES, Verified := NO,
        VerifiedBy := Null, VerifiedAt := Null, RejectionReason := Null, Rejected := NO,
        Discarded := NO, LastEditedAt := Time(now), LastEditedBy := cashier]
  }

  const CLONE_DROPS: set<Field> :=
    {ClientRowId, DailyImportId, ImportRowKey, MasterImportSource, MasterSerial}

  function OpenCloneQuery(original: Id): Query {
    Fields(map[OriginalTransactionId := Is(Oid(original)), Verified := Is(NO),
               EditedAfterVerification := Is(YES), Rejected := IsNot(YES)])
  }

  function OpenClones(rows: Rows, original: Id): set<Id> {
    Picked(rows, Selector(None, OpenCloneQuery(original)))
  }

  function EditedClone(source: Doc, original: Id, updates: Doc, cashier: Value, now: int): Doc {
    ((source + updates + EditMeta(original, cashier, now)) - CLONE_DROPS)[CreatedAt := Time(now)]
  }

  predicate EditTarget(rows: Rows, original: Id, target: Id) {
    if OpenClones(rows, original) == {} then target !in rows else target in OpenClones(rows, original)
  }

  /** `target` is the open clone that `find_one` returned, or the id of the new clone. */
  function PendingEditRows(
      rows: Rows, original: Id, updates: Doc, cashier: Value, now: int, target: Id): Rows
  {
    if original !in rows then rows
    else if target in rows then rows[target := rows[target] + (updates + EditMeta(original, cashier, now))]
    else rows[target := EditedClone(rows[original], original, updates, cashier, now)]
  }

  // ---------------------------------------------------------------- what `$set` carries

  function ApproveSet(actor: Value, now: int): Doc {
    map[Verified := YES, VerifiedBy := actor, VerifiedAt := Time(now), RejectionReason := Null,
        PossibleDuplicate := NO, DateDiscrepancy := NO]
  }

  function RejectSet(reason: string): Doc {
    map[Verified := NO, RejectionReason := Text(reason), Rejected := YES, Discarded := NO]
  }

  function ReApproveSet(actor: Value, now: int): Doc {
    map[Verified := YES, VerifiedBy := actor, VerifiedAt := Time(now), RejectionReason := Null,
        Rejected := NO, EditedAfterVerification := NO]
  }

  const STAGE_SET: Doc := map[RegisterStatus := Status(AsSubmitted)]

  const INBOX_SET: Doc := map[Rejected := NO, RejectionReason := Null, Discarded := NO]

  const CLEAR_DELETION: Doc :=
    map[DeletionRequested := NO, DeletionRequestedAt := Null, DeletionRequestedBy := Null]

  const CLEAR_RESTORE: Doc :=
    map[RestoreRequested := NO, RestoreRequestedAt := Null, RestoreRequestedBy := Null]

  const CLEAR_TRASH: Doc :=
    map[Trashed := NO, TrashedAt := Null, TrashedBy := Null,
        RestoreRequested := NO, RestoreRequestedAt := Null, RestoreRequestedBy := Null]

  function TrashSet(actor: Value, now: int): Doc {
    map[Trashed := YES, TrashedAt := Time(now), TrashedBy := actor,
        DeletionRequested := NO, DeletionRequestedAt := Null, DeletionRequestedBy := Null]
  }

  function SoftTrashSet(actor: Value, now: int): Doc {
    map[Trashed := YES, TrashedAt := Time(now), TrashedBy := actor,
        DeletionRequested := NO, DeletionRequestedAt := Null, DeletionRequestedBy := Null,
        RestoreRequested := NO, RestoreRequestedAt := Null, RestoreRequestedBy := Null]
  }

  function AskDeletionSet(actor: Value, now: int): Doc {
    map[DeletionRequested := YES, DeletionRequestedAt := Time(now), DeletionRequestedBy := actor]
  }

  function AskRestoreSet(actor: Value, now: int): Doc {
    map[RestoreRequested := YES, RestoreRequestedAt := Time(now), RestoreRequestedBy := actor]
  }

  function ResubmitMeta(scope: Value, now: int): Doc {
    map[Rejected := NO, RejectionReason := Null, Discarded := NO,
        LastEditedAt := Time(now), LastEditedBy := scope]
  }

  // ---------------------------------------------------------------- selectors

  function ById(id: Id): Selector { Selector(Some({id}), Fields(map[])) }

  function WithIds(ids: set<Id>, fields: map<Field, Cond>): Selector {
    Selector(Some(ids), Fields(fields))
  }

  function UnverifiedIn(ids: set<Id>): Selector { WithIds(ids, map[Verified := Is(NO)]) }

  function TrashedIn(ids: set<Id>): Selector { WithIds(ids, map[Trashed := Is(YES)]) }

  function RejectedRow(id: Id): Selector { WithIds({id}, map[Rejected := Is(YES)]) }

  function DeletionAsked(id: Id): Selector {
    Selector(Some({id}), DeletionBaseMatch())
  }

  function RestoreAsked(ids: set<Id>): Selector {
    Selector(Some(ids), RestoreCountMatch())
  }

  function ClonesOf(original: Id): Selector {
    Selector(None, Fields(map[OriginalTransactionId := Is(Oid(original))]))
  }

  /** Trash the cashier owns or put there. */
  function TrashScope(cashier: Value): Clauses {
    Given([Fields(map[CashierId := Is(cashier)]), Fields(map[TrashedBy := Is(cashier)])])
  }

  function OwnTrash(ids: set<Id>, fields: map<Field, Cond>, cashier: Value): Selector {
    Selector(Some(ids), Query(fields, Absent, TrashScope(cashier), NoExpr))
  }

  /** Rows that belong on one register day. */
  function RegisterDay(start: int, end: int): Query {
    AnyOf([
      Fields(map[ImportPrimaryDate := Between(Some(start), Some(end))]),
      AllOf([Fields(map[Date := Between(Some(start), Some(end))]),
             Fields(map[ImportPrimaryDate := Is(Null)])])])
  }

  function SubmitSelector(start: int, end: int): Selector {
    Selector(None, AllOf([
      RegisterDay(start, end),
      Fields(map[Verified := IsNot(YES)]),
      Fields(map[Rejected := IsNot(YES)]),
      Fields(map[Discarded := IsNot(YES)]),
      AnyOf([Fields(map[RegisterStatus := Is(Status(AsDraft))]),
             Fields(map[RegisterStatus := Exists(false)])])]))
  }

  function ScopeEntry(scope: Option<Value>): map<Field, Cond> {
    if scope.Some? then map[CashierId := Is(scope.value)] else map[]
  }

  function DraftsIn(ids: set<Id>, scope: Option<Value>): Selector {
    Selector(Some(ids), Fields(DraftBaseMatch().fields + ScopeEntry(scope)))
  }

  function DraftsOn(start: int, end: int, scope: Option<Value>): Selector {
    Selector(None, RegisterDay(start, end).(fields := DraftBaseMatch().fields + ScopeEntry(scope)))
  }

  function RejectedOf(ids: set<Id>, scope: Value): Selector {
    WithIds(ids, map[CashierId := Is(scope), Rejected := Is(YES), Discarded := IsNot(YES)])
  }

  function DiscardedOf(ids: set<Id>, scope: Value): Selector {
    WithIds(ids, map[CashierId := Is(scope), Discarded := Is(YES)])
  }

  function UploadRows(upload: string): Selector {
    Selector(None, Fields(map[DailyImportId := Is(Str(upload))]))
  }

  // ---------------------------------------------------------------- composite handlers

  datatype Edit = Edit(id: Id, values: Doc)

  function PatchAll(rows: Rows, edits: seq<Edit>): Rows {
    if edits == [] then rows
    else
      var e := edits[|edits| - 1];
      UpdateWhere(PatchAll(rows, edits[..|edits| - 1]), ById(e.id), e.values, {})
  }

  predicate TouchesBadges(values: Doc) {
    exists f | f in values :: IsTouchField(f)
  }

  /** What `bulk_patch_transactions` hands to `note_many`. */
  function PatchNotes(rows: Rows, edits: seq<Edit>): seq<Change> {
    if edits == [] then []
    else
      var e := edits[|edits| - 1];
      PatchNotes(rows, edits[..|edits| - 1]) +
      if TouchesBadges(e.values) && e.id in rows
      then [Change(Some(Project(rows[e.id])), Some(Project(rows[e.id]) + e.values))] else []
  }

  function ResubmitOne(rows: Rows, scope: Value, now: int, e: Edit): Rows {
    UpdateWhere(rows, RejectedOf({e.id}, scope), e.values + ResubmitMeta(scope, now), {})
  }

  function ResubmitAll(rows: Rows, scope: Value, now: int, edits: seq<Edit>): Rows {
    if edits == [] then rows
    else ResubmitOne(ResubmitAll(rows, scope, now, edits[..|edits| - 1]), scope, now, edits[|edits| - 1])
  }

  predicate IsPendingClone(d: Doc) {
    Truthy(d, OriginalTransactionId) && !Truthy(d, Verified)
  }

  function RequestDeleteRows(rows: Rows, id: Id, actor: Value, now: int): Rows {
    if id !in rows then rows
    else if IsPendingClone(rows[id]) then rows - {id}
    else if !Truthy(rows[id], Verified) then
      if Truthy(rows[id], Trashed) then rows
      else rows[id := rows[id] + SoftTrashSet(actor, now)]
    else rows[id := rows[id] + AskDeletionSet(actor, now)]
  }

  function ConfirmDeletionRows(rows: Rows, id: Id, actor: Value, now: int): Rows {
    if id in rows && Picks(DeletionAsked(id), id, rows[id])
    then UpdateWhere(DeleteWhere(rows, ClonesOf(id)), DeletionAsked(id), TrashSet(actor, now), {})
    else rows
  }

  /** RE_APPROVE_CASCADE_FIELDS. */
  predicate IsCascadeField(f: Field) {
    || f.Date? || f.Description? || f.TruckNumber? || f.Amount? || f.Currency? || f.AmountUsd?
    || f.LpoDo? || f.DoNumber? || f.Memo? || f.ReceiptStatus? || f.NotesFlag? || f.RefFloat?
    || f.Ownership? || f.Approver? || f.Payee? || f.Cheque? || f.ReportedDate? || f.CategoryName?
    || f.CategoryId? || f.Item? || f.CategoryConfidence? || f.Month? || f.Year?
  }

  function OrNull(v: Option<Value>): Value {
    if v.Some? then v.value else Null
  }

  function Cascaded(pending: Doc): Doc {
    map f | f in pending && IsCascadeField(f) :: pending[f]
  }

  /** The verification and edit-audit fields that re-approval stamps on the original. */
  predicate IsReApprovalMeta(f: Field) {
    f.Verified? || f.VerifiedBy? || f.VerifiedAt? || f.RejectionReason? || f.Rejected?
    || f.EditedAfterVerification? || f.LastEditedAt? || f.LastEditedBy?
  }

  function ReApprovalMeta(pending: Doc, actor: Value, now: int): Doc {
    ReApproveSet(actor, now)[LastEditedAt := OrNull(Get(pending, LastEditedAt))]
                            [LastEditedBy := OrNull(Get(pending, LastEditedBy))]
  }

  function CascadeUpdates(pending: Doc, actor: Value, now: int): Doc {
    Cascaded(pending) + ReApprovalMeta(pending, actor, now)
  }

  /** The row a pending clone points at, when `_id` lookup finds it. */
  function OriginalOf(rows: Rows, pending: Doc): Option<Id> {
    if OriginalTransactionId in pending && pending[OriginalTransactionId].Oid?
       && pending[OriginalTransactionId].oid in rows
    then Some(pending[OriginalTransactionId].oid) else None
  }

  /** Write a clone's fields onto its original and delete the clone; nothing
      happens when the original is gone or would not change. */
  function CascadeInto(rows: Rows, id: Id, updates: Doc): Rows
    requires id in rows
  {
    var original := OriginalOf(rows, rows[id]);
    if original.None? || rows[original.value] + updates == rows[original.value] then rows
    else rows[original.value := rows[original.value] + updates] - {id}
  }

  function CascadeNotes(rows: Rows, id: Id, updates: Doc): seq<Change>
    requires id in rows
  {
    var original := OriginalOf(rows, rows[id]);
    if original.None? || rows[original.value] + updates == rows[original.value] then []
    else [Change(Some(rows[original.value]), Some(rows[original.value] + updates)),
          Change(Some(rows[id]), None)]
  }

  const RE_APPROVE_NOTE: Doc := map[Verified := YES, Rejected := NO]

  function ReApproved(rows: Rows, id: Id, actor: Value, now: int): Rows {
    if id !in rows || !IsFalse(rows[id], Verified) then rows
    else if Truthy(rows[id], OriginalTransactionId)
    then CascadeInto(rows, id, CascadeUpdates(rows[id], actor, now))
    else rows[id := rows[id] + ReApproveSet(actor, now)]
  }

  /** What `_re_approve_one` hands to `note_transition`. */
  function ReApproveNotes(rows: Rows, id: Id, actor: Value, now: int): seq<Change> {
    if id !in rows || !IsFalse(rows[id], Verified) then []
    else if Truthy(rows[id], OriginalTransactionId)
    then CascadeNotes(rows, id, CascadeUpdates(rows[id], actor, now))
    else [Change(Some(rows[id]), Some(rows[id] + RE_APPROVE_NOTE))]
  }

  predicate SelfOriginal(d: Doc, id: Id) {
    Get(d, OriginalTransactionId) == Some(Oid(id))
  }

  function ReApprovedAll(rows: Rows, ids: seq<Id>, actor: Value, now: int): Rows {
    if ids == [] then rows
    else ReApproved(ReApprovedAll(rows, ids[..|ids| - 1], actor, now), ids[|ids| - 1], actor, now)
  }

  /** The clones among the listed rows, in listing order. */
  function CascadesIn(rows: Rows, listing: seq<Id>): seq<Id> {
    if listing == [] then []
    else
      var id := listing[|listing| - 1];
      CascadesIn(rows, listing[..|listing| - 1]) +
      if id in rows && Truthy(rows[id], OriginalTransactionId) then [id] else []
  }

  function SimpleIn(rows: Rows, listing: seq<Id>): set<Id> {
    set id | id in listing && id in rows && !Truthy(rows[id], OriginalTransactionId)
  }

  /** Cascades one by one in the order `find` listed them, then one write for the rest. */
  function BulkReApproved(rows: Rows, ids: set<Id>, listing: seq<Id>, actor: Value, now: int): Rows {
    if Refused(rows, ids) then rows
    else UpdateWhere(ReApprovedAll(rows, CascadesIn(rows, listing), actor, now),
      UnverifiedIn(SimpleIn(rows, listing)), ReApproveSet(actor, now), {})
  }

  /** `_tx_incomplete_item_or_payee`. */
  predicate Incomplete(d: Doc) {
    || AllBlank(TextOf(d, if Truthy(d, Item) then Item else CategoryName))
    || AllBlank(TextOf(d, Payee))
  }

  function TextOf(d: Doc, f: Field): string {
    if f in d && IsString(d[f]) then StringOf(d[f]) else ""
  }

  /** Approval answers 400 and writes nothing. */
  predicate Refused(rows: Rows, ids: set<Id>) {
    exists id | id in ids && id in rows :: Incomplete(rows[id])
  }

  // ---------------------------------------------------------------- all handlers

  datatype Call =
    | Create(id: Id, doc: Doc)
    | BulkCreate(items: seq<NewRow>)
    | PendingEdit(id: Id, values: Doc, actor: Value, now: int, target: Id)
    | Patch(id: Id, values: Doc)
    | BulkPatch(edits: seq<Edit>)
    | Delete(id: Id)
    | RequestDelete(id: Id, actor: Value, now: int)
    | SubmitDay(start: int, end: int)
    | Resubmit(actor: Value, now: int, edits: seq<Edit>)
    | DiscardDrafts(ids: set<Id>, scope: Option<Value>)
    | DiscardDay(start: int, end: int, scope: Option<Value>)
    | Approve(ids: set<Id>, actor: Value, now: int)
    | Reject(ids: set<Id>, reason: string)
    | ReApprove(id: Id, actor: Value, now: int)
    | BulkReApprove(ids: set<Id>, listing: seq<Id>, actor: Value, now: int)
    | ReturnToInbox(id: Id)
    | ConfirmDeletion(id: Id, actor: Value, now: int)
    | RestoreDeletion(id: Id)
    | RestoreFromTrash(ids: set<Id>)
    | PurgeTrash(ids: set<Id>)
    | RestoreOwnTrash(ids: set<Id>, actor: Value)
    | PurgeOwnTrash(ids: set<Id>, actor: Value)
    | RequestRestore(id: Id, actor: Value, now: int)
    | CancelRestore(id: Id, actor: Value)
    | ConfirmRestore(ids: set<Id>)
    | RejectRestore(ids: set<Id>)
    | Discard(ids: set<Id>, actor: Value)
    | RestoreDiscarded(ids: set<Id>, actor: Value)

  function RequestRestoreSelector(id: Id, actor: Value): Selector {
    OwnTrash({id}, map[Trashed := Is(YES), Verified := Is(YES)], actor)
  }

  function RequestRestoreRows(rows: Rows, id: Id, actor: Value, now: int): Rows {
    if id in rows && !Truthy(rows[id], RestoreRequested)
    then UpdateWhere(rows, RequestRestoreSelector(id, actor), AskRestoreSet(actor, now), {})
    else rows
  }

  function OwnUnverified(ids: set<Id>, actor: Value): Selector {
    OwnTrash(ids, map[Trashed := Is(YES), Verified := IsNot(YES)], actor)
  }

  function OwnRestoreAsked(id: Id, actor: Value): Selector {
    OwnTrash({id}, map[Trashed := Is(YES), RestoreRequested := Is(YES)], actor)
  }

  function Apply(rows: Rows, call: Call): Rows {
    match call
    case Create(id, doc) => CreateRow(rows, id, doc)
    case BulkCreate(items) => CreateAll(rows, items)
    case PendingEdit(id, values, actor, now, target) =>
      PendingEditRows(rows, id, values, actor, now, target)
    case Patch(id, values) => UpdateWhere(rows, ById(id), values, {})
    case BulkPatch(edits) => PatchAll(rows, edits)
    case Delete(id) => DeleteWhere(rows, ById(id))
    case RequestDelete(id, actor, now) => RequestDeleteRows(rows, id, actor, now)
    case SubmitDay(start, end) =>
      UpdateWhere(rows, SubmitSelector(start, end), STAGE_SET, {})
    case Resubmit(actor, now, edits) => ResubmitAll(rows, actor, now, edits)
    case DiscardDrafts(ids, scope) => DeleteWhere(rows, DraftsIn(ids, scope))
    case DiscardDay(start, end, scope) => DeleteWhere(rows, DraftsOn(start, end, scope))
    case Approve(ids, actor, now) =>
      if Refused(rows, ids) then rows
      else UpdateWhere(rows, UnverifiedIn(ids), ApproveSet(actor, now), {DuplicateOfId})
    case Reject(ids, reason) => UpdateWhere(rows, WithIds(ids, map[]), RejectSet(reason), {})
    case ReApprove(id, actor, now) =>
      if Refused(rows, {id}) then rows else ReApproved(rows, id, actor, now)
    case BulkReApprove(ids, listing, actor, now) => BulkReApproved(rows, ids, listing, actor, now)
    case ReturnToInbox(id) =>
      UpdateWhere(rows, RejectedRow(id), INBOX_SET, {})
    case ConfirmDeletion(id, actor, now) => ConfirmDeletionRows(rows, id, actor, now)
    case RestoreDeletion(id) => UpdateWhere(rows, DeletionAsked(id), CLEAR_DELETION, {})
    case RestoreFromTrash(ids) => UpdateWhere(rows, TrashedIn(ids), CLEAR_TRASH, {})
    case PurgeTrash(ids) => DeleteWhere(rows, TrashedIn(ids))
    case RestoreOwnTrash(ids, actor) => UpdateWhere(rows, OwnUnverified(ids, actor), CLEAR_TRASH, {})
    case PurgeOwnTrash(ids, actor) => DeleteWhere(rows, OwnUnverified(ids, actor))
    case RequestRestore(id, actor, now) => RequestRestoreRows(rows, id, actor, now)
    case CancelRestore(id, actor) =>
      UpdateWhere(rows, OwnRestoreAsked(id, actor), CLEAR_RESTORE, {})
    case ConfirmRestore(ids) => UpdateWhere(rows, RestoreAsked(ids), CLEAR_TRASH, {})
    case RejectRestore(ids) => UpdateWhere(rows, RestoreAsked(ids), CLEAR_RESTORE, {})
    case Discard(ids, actor) => UpdateWhere(rows, RejectedOf(ids, actor), map[Discarded := YES], {})
    case RestoreDiscarded(ids, actor) =>
      UpdateWhere(rows, DiscardedOf(ids, actor), map[Discarded := NO], {})
  }

  function ApplyAll(rows: Rows, calls: seq<Call>): Rows
    decreases |calls|
  {
    if calls == [] then rows else ApplyAll(Apply(rows, calls[0]), calls[1..])
  }
}
