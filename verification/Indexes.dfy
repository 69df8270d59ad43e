/** The unique indexes hold over every run: no workflow step writes an indexed field, a
    pending clone carries none, and creates respect the indexes they meet. */
module Indexes {
  import opened Mongo
  import opened Lifecycle
  import opened Creation

  /** Fields that some unique index reads. */
  predicate IsIndexField(f: Field) {
    f.ClientRowId? || f.CashierId? || f.DailyImportId? || f.ImportRowKey? || f.MasterImportSource?
    || f.MasterSerial?
  }

  /** The write touches no indexed field. */
  predicate KeepsKeys(set_: Doc, unset: set<Field>) {
    && ClientRowId !in set_ && CashierId !in set_ && DailyImportId !in set_ && ImportRowKey !in set_
    && MasterImportSource !in set_ && MasterSerial !in set_
    && forall f | f in unset :: !IsIndexField(f)
  }

  predicate SameEntries(d: Doc, e: Doc) {
    forall ix :: IndexEntry(ix, d) == IndexEntry(ix, e)
  }

  predicate NoEntries(d: Doc) {
    forall ix :: IndexEntry(ix, d) == None
  }

  lemma ModifyKeepsEntries(d: Doc, set_: Doc, unset: set<Field>)
    requires KeepsKeys(set_, unset)
    ensures SameEntries(Modify(d, set_, unset), d)
  {
    var e := Modify(d, set_, unset);
    assert Get(e, ClientRowId) == Get(d, ClientRowId) && Get(e, CashierId) == Get(d, CashierId);
    assert Get(e, DailyImportId) == Get(d, DailyImportId) && Get(e, ImportRowKey) == Get(d, ImportRowKey);
    assert Get(e, MasterImportSource) == Get(d, MasterImportSource) && Get(e, MasterSerial) == Get(d, MasterSerial);
    forall ix: Index ensures IndexEntry(ix, e) == IndexEntry(ix, d) {
      match ix { case ClientRow => case DailyRow => case MasterRow => }
    }
  }

  /** An edited clone has no entry in any unique index, so inserting it never clashes. */
  lemma CloneHasNoEntries(source: Doc, original: Id, updates: Doc, cashier: Value, now: int)
    ensures NoEntries(EditedClone(source, original, updates, cashier, now))
  {
    var d := EditedClone(source, original, updates, cashier, now);
    assert ClientRowId !in d && DailyImportId !in d && MasterImportSource !in d;
    forall ix: Index ensures IndexEntry(ix, d) == None {
      match ix { case ClientRow => case DailyRow => case MasterRow => }
    }
  }

  lemma NoEntriesNoClash(rows: Rows, d: Doc)
    requires NoEntries(d)
    ensures !Clashes(rows, d)
  {
    forall id, ix: Index | id in rows ensures !SameEntry(ix, rows[id], d) {
      assert IndexEntry(ix, d) == None;
    }
  }

  // ---------------------------------------------------------------- steps

  /** Every row of the later state is an earlier row with its entries, or has none. */
  predicate EntriesFrom(rows: Rows, after: Rows) {
    forall id | id in after :: (id in rows && SameEntries(after[id], rows[id])) || NoEntries(after[id])
  }

  lemma EntriesFromKeepsIndexes(rows: Rows, after: Rows)
    requires IndexesHold(rows) && EntriesFrom(rows, after)
    ensures IndexesHold(after)
  {
    forall i, j, ix: Index | i in after && j in after && i != j ensures !SameEntry(ix, after[i], after[j]) {
      if NoEntries(after[i]) {
        assert IndexEntry(ix, after[i]) == None;
      } else if NoEntries(after[j]) {
        assert IndexEntry(ix, after[j]) == None;
      } else {
        assert IndexEntry(ix, after[i]) == IndexEntry(ix, rows[i])
          && IndexEntry(ix, after[j]) == IndexEntry(ix, rows[j]);
        assert !SameEntry(ix, rows[i], rows[j]);
      }
    }
  }

  lemma EntriesFromTransitive(a: Rows, b: Rows, c: Rows)
    requires EntriesFrom(a, b) && EntriesFrom(b, c)
    ensures EntriesFrom(a, c)
  {
    forall id | id in c ensures (id in a && SameEntries(c[id], a[id])) || NoEntries(c[id]) {
      if id in b && SameEntries(c[id], b[id]) {
        EntriesPassOn(b[id], c[id]);
        if id in a && SameEntries(b[id], a[id]) { SameEntriesTransitive(a[id], b[id], c[id]); }
      }
    }
  }

  lemma EntriesPassOn(d: Doc, e: Doc)
    requires SameEntries(e, d)
    ensures NoEntries(d) ==> NoEntries(e)
  {
    forall ix: Index ensures IndexEntry(ix, e) == IndexEntry(ix, d) {
    }
  }

  lemma SameEntriesTransitive(a: Doc, b: Doc, c: Doc)
    requires SameEntries(c, b) && SameEntries(b, a)
    ensures SameEntries(c, a)
  {
    forall ix: Index ensures IndexEntry(ix, c) == IndexEntry(ix, a) {
      assert IndexEntry(ix, c) == IndexEntry(ix, b);
    }
  }

  lemma UpdateKeepsEntries(rows: Rows, sel: Selector, set_: Doc, unset: set<Field>)
    requires KeepsKeys(set_, unset)
    ensures EntriesFrom(rows, UpdateWhere(rows, sel, set_, unset))
  {
    forall id | id in rows ensures SameEntries(UpdateWhere(rows, sel, set_, unset)[id], rows[id]) {
      ModifyKeepsEntries(rows[id], set_, unset);
    }
  }

  lemma FewerRowsKeepEntries(rows: Rows, after: Rows)
    requires forall id | id in after :: id in rows && after[id] == rows[id]
    ensures EntriesFrom(rows, after)
  {
    forall id | id in after ensures SameEntries(after[id], rows[id]) {
    }
  }

  lemma StoreKeepsEntries(rows: Rows, id: Id, set_: Doc)
    requires id in rows && KeepsKeys(set_, {})
    ensures EntriesFrom(rows, rows[id := rows[id] + set_])
  {
    ModifyKeepsEntries(rows[id], set_, {});
    assert Modify(rows[id], set_, {}) == rows[id] + set_;
  }

  lemma BothKeepKeys(a: Doc, b: Doc)
    requires KeepsKeys(a, {}) && KeepsKeys(b, {})
    ensures KeepsKeys(a + b, {})
  {
  }

  lemma EditMetaKeepsKeys(original: Id, cashier: Value, now: int)
    ensures KeepsKeys(EditMeta(original, cashier, now), {})
  {
  }

  lemma PendingEditKeepsEntries(rows: Rows, original: Id, updates: Doc, cashier: Value, now: int, target: Id)
    requires KeepsKeys(updates, {})
    ensures EntriesFrom(rows, PendingEditRows(rows, original, updates, cashier, now, target))
  {
    if original in rows {
      CloneHasNoEntries(rows[original], original, updates, cashier, now);
      if target in rows {
        EditMetaKeepsKeys(original, cashier, now);
        BothKeepKeys(updates, EditMeta(original, cashier, now));
        StoreKeepsEntries(rows, target, updates + EditMeta(original, cashier, now));
      }
    }
  }

  lemma CascadedKeepsKeys(pending: Doc)
    ensures KeepsKeys(Cascaded(pending), {})
  {
  }

  lemma StampKeepsKeys(pending: Doc, actor: Value, now: int)
    ensures KeepsKeys(ReApprovalMeta(pending, actor, now), {})
  {
  }

  lemma CascadeKeepsKeys(pending: Doc, actor: Value, now: int)
    ensures KeepsKeys(CascadeUpdates(pending, actor, now), {})
  {
    CascadedKeepsKeys(pending);
    StampKeepsKeys(pending, actor, now);
    BothKeepKeys(Cascaded(pending), ReApprovalMeta(pending, actor, now));
  }

  lemma ReApprovalKeepsEntries(rows: Rows, id: Id, actor: Value, now: int)
    ensures EntriesFrom(rows, ReApproved(rows, id, actor, now))
  {
    FewerRowsKeepEntries(rows, rows);
    if id in rows && IsFalse(rows[id], Verified) {
      if Truthy(rows[id], OriginalTransactionId) {
        CascadeKeepsKeys(rows[id], actor, now);
        CascadeKeepsEntries(rows, id, CascadeUpdates(rows[id], actor, now));
      } else {
        StoreKeepsEntries(rows, id, ReApproveSet(actor, now));
      }
    }
  }

  lemma CascadeKeepsEntries(rows: Rows, id: Id, updates: Doc)
    requires id in rows && KeepsKeys(updates, {})
    ensures EntriesFrom(rows, CascadeInto(rows, id, updates))
  {
    FewerRowsKeepEntries(rows, rows);
    var original := OriginalOf(rows, rows[id]);
    if original.Some? {
      var mid := rows[original.value := rows[original.value] + updates];
      StoreKeepsEntries(rows, original.value, updates);
      FewerRowsKeepEntries(mid, mid - {id});
      EntriesFromTransitive(rows, mid, mid - {id});
    }
  }

  lemma {:induction false} ReApprovedAllKeepsEntries(rows: Rows, ids: seq<Id>, actor: Value, now: int)
    ensures EntriesFrom(rows, ReApprovedAll(rows, ids, actor, now))
    decreases |ids|
  {
    if ids == [] {
      FewerRowsKeepEntries(rows, rows);
    } else {
      var mid := ReApprovedAll(rows, ids[..|ids| - 1], actor, now);
      ReApprovedAllKeepsEntries(rows, ids[..|ids| - 1], actor, now);
      ReApprovalKeepsEntries(mid, ids[|ids| - 1], actor, now);
      EntriesFromTransitive(rows, mid, ReApproved(mid, ids[|ids| - 1], actor, now));
    }
  }

  lemma BulkReApprovalKeepsEntries(rows: Rows, ids: set<Id>, listing: seq<Id>, actor: Value, now: int)
    ensures EntriesFrom(rows, BulkReApproved(rows, ids, listing, actor, now))
  {
    FewerRowsKeepEntries(rows, rows);
    var mid := ReApprovedAll(rows, CascadesIn(rows, listing), actor, now);
    ReApprovedAllKeepsEntries(rows, CascadesIn(rows, listing), actor, now);
    UpdateKeepsEntries(mid, UnverifiedIn(SimpleIn(rows, listing)), ReApproveSet(actor, now), {});
    EntriesFromTransitive(rows, mid,
      UpdateWhere(mid, UnverifiedIn(SimpleIn(rows, listing)), ReApproveSet(actor, now), {}));
  }

  lemma {:induction false} ResubmitKeepsEntries(rows: Rows, scope: Value, now: int, edits: seq<Edit>)
    requires forall i | 0 <= i < |edits| :: KeepsKeys(edits[i].values, {})
    ensures EntriesFrom(rows, ResubmitAll(rows, scope, now, edits))
    decreases |edits|
  {
    if edits == [] {
      FewerRowsKeepEntries(rows, rows);
    } else {
      var mid, e := ResubmitAll(rows, scope, now, edits[..|edits| - 1]), edits[|edits| - 1];
      ResubmitKeepsEntries(rows, scope, now, edits[..|edits| - 1]);
      assert KeepsKeys(e.values + ResubmitMeta(scope, now), {});
      UpdateKeepsEntries(mid, RejectedOf({e.id}, scope), e.values + ResubmitMeta(scope, now), {});
      EntriesFromTransitive(rows, mid, ResubmitOne(mid, scope, now, e));
    }
  }

  lemma {:induction false} PatchAllKeepsEntries(rows: Rows, edits: seq<Edit>)
    requires forall i | 0 <= i < |edits| :: KeepsKeys(edits[i].values, {})
    ensures EntriesFrom(rows, PatchAll(rows, edits))
    decreases |edits|
  {
    if edits == [] {
      FewerRowsKeepEntries(rows, rows);
    } else {
      var mid, e := PatchAll(rows, edits[..|edits| - 1]), edits[|edits| - 1];
      PatchAllKeepsEntries(rows, edits[..|edits| - 1]);
      UpdateKeepsEntries(mid, ById(e.id), e.values, {});
      EntriesFromTransitive(rows, mid, PatchAll(rows, edits));
    }
  }

  lemma TrashingKeepsEntries(rows: Rows, id: Id, actor: Value, now: int)
    requires id in rows
    ensures EntriesFrom(rows, rows[id := rows[id] + SoftTrashSet(actor, now)])
    ensures EntriesFrom(rows, rows[id := rows[id] + AskDeletionSet(actor, now)])
  {
    StoreKeepsEntries(rows, id, SoftTrashSet(actor, now));
    StoreKeepsEntries(rows, id, AskDeletionSet(actor, now));
  }

  lemma RequestDeleteKeepsEntries(rows: Rows, id: Id, actor: Value, now: int)
    ensures EntriesFrom(rows, RequestDeleteRows(rows, id, actor, now))
  {
    FewerRowsKeepEntries(rows, rows);
    FewerRowsKeepEntries(rows, rows - {id});
    if id in rows { TrashingKeepsEntries(rows, id, actor, now); }
  }

  lemma ConfirmDeletionKeepsEntries(rows: Rows, id: Id, actor: Value, now: int)
    ensures EntriesFrom(rows, ConfirmDeletionRows(rows, id, actor, now))
  {
    FewerRowsKeepEntries(rows, rows);
    var mid := DeleteWhere(rows, ClonesOf(id));
    FewerRowsKeepEntries(rows, mid);
    UpdateKeepsEntries(mid, DeletionAsked(id), TrashSet(actor, now), {});
    EntriesFromTransitive(rows, mid, UpdateWhere(mid, DeletionAsked(id), TrashSet(actor, now), {}));
  }

  // ---------------------------------------------------------------- creates

  lemma CreateKeepsIndexes(rows: Rows, id: Id, d: Doc)
    requires IndexesHold(rows) && id !in rows
    ensures IndexesHold(CreateRow(rows, id, d))
  {
    var after := CreateRow(rows, id, d);
    forall i, j, ix: Index | i in after && j in after && i != j ensures !SameEntry(ix, after[i], after[j]) {
      if after != rows && i == id {
        assert !SameEntry(ix, rows[j], d);
      } else if after != rows && j == id {
        assert !SameEntry(ix, rows[i], d);
      }
    }
  }

  lemma {:induction false} CreateAllKeepsIndexes(rows: Rows, items: seq<NewRow>)
    requires IndexesHold(rows)
    requires forall i, j | 0 <= i < j < |items| :: items[i].id != items[j].id
    requires forall i | 0 <= i < |items| :: items[i].id !in rows
    ensures IndexesHold(CreateAll(rows, items))
    ensures forall id | id in CreateAll(rows, items) :: id in rows || exists i | 0 <= i < |items| :: items[i].id == id
    decreases |items|
  {
    if items != [] {
      var rest, last := items[..|items| - 1], items[|items| - 1];
      CreateAllKeepsIndexes(rows, rest);
      var mid := CreateAll(rows, rest);
      assert last.id !in mid;
      if last.doc.Some? { CreateKeepsIndexes(mid, last.id, last.doc.value); }
      forall id | id in CreateAll(rows, items) && id !in rows
        ensures exists i | 0 <= i < |items| :: items[i].id == id
      {
        if id in mid {
          var i :| 0 <= i < |rest| && rest[i].id == id;
          assert items[i].id == id;
        } else {
          assert items[|items| - 1].id == id;
        }
      }
    }
  }

  // ---------------------------------------------------------------- calls

  /** The fields a caller stores include an indexed one; MongoDB refuses such a write when
      it collides. */
  predicate WritesKeys(call: Call) {
    match call
    case Patch(_, values) => !KeepsKeys(values, {})
    case PendingEdit(_, values, _, _, _) => !KeepsKeys(values, {})
    case BulkPatch(edits) => exists i | 0 <= i < |edits| :: !KeepsKeys(edits[i].values, {})
    case Resubmit(_, _, edits) => exists i | 0 <= i < |edits| :: !KeepsKeys(edits[i].values, {})
    case _ => false
  }

  predicate Edits(call: Call) {
    call.Patch? || call.PendingEdit? || call.BulkPatch? || call.Resubmit?
  }

  lemma EditsKeepEntries(rows: Rows, call: Call)
    requires Edits(call) && !WritesKeys(call)
    ensures EntriesFrom(rows, Apply(rows, call))
  {
    match call {
      case Patch(id, values) => UpdateKeepsEntries(rows, ById(id), values, {});
      case PendingEdit(id, values, actor, now, target) => PendingEditKeepsEntries(rows, id, values, actor, now, target);
      case BulkPatch(edits) => PatchAllKeepsEntries(rows, edits);
      case Resubmit(actor, now, edits) => ResubmitKeepsEntries(rows, actor, now, edits);
    }
  }

  lemma DeleteKeepsEntries(rows: Rows, sel: Selector)
    ensures EntriesFrom(rows, DeleteWhere(rows, sel))
  {
    FewerRowsKeepEntries(rows, DeleteWhere(rows, sel));
  }

  predicate Removes(call: Call) {
    call.Delete? || call.DiscardDrafts? || call.DiscardDay?
  }

  lemma RemovesKeepEntries(rows: Rows, call: Call)
    requires Removes(call)
    ensures EntriesFrom(rows, Apply(rows, call))
  {
    match call {
      case Delete(id) => DeleteKeepsEntries(rows, ById(id));
      case DiscardDrafts(ids, scope) => DeleteKeepsEntries(rows, DraftsIn(ids, scope));
      case DiscardDay(start, end, scope) => DeleteKeepsEntries(rows, DraftsOn(start, end, scope));
    }
  }

  lemma PurgesKeepEntries(rows: Rows, call: Call)
    requires call.PurgeTrash? || call.PurgeOwnTrash?
    ensures EntriesFrom(rows, Apply(rows, call))
  {
    match call {
      case PurgeTrash(ids) => DeleteKeepsEntries(rows, TrashedIn(ids));
      case PurgeOwnTrash(ids, actor) => DeleteKeepsEntries(rows, OwnUnverified(ids, actor));
    }
  }

  lemma ClearDeletionKeepsEntries(rows: Rows, sel: Selector)
    ensures EntriesFrom(rows, UpdateWhere(rows, sel, CLEAR_DELETION, {}))
  {
    UpdateKeepsEntries(rows, sel, CLEAR_DELETION, {});
  }

  predicate Deletion(call: Call) {
    call.RequestDelete? || call.ConfirmDeletion? || call.RestoreDeletion?
  }

  lemma DeletionsKeepEntries(rows: Rows, call: Call)
    requires Deletion(call)
    ensures EntriesFrom(rows, Apply(rows, call))
  {
    match call {
      case RequestDelete(id, actor, now) => RequestDeleteKeepsEntries(rows, id, actor, now);
      case ConfirmDeletion(id, actor, now) => ConfirmDeletionKeepsEntries(rows, id, actor, now);
      case RestoreDeletion(id) => ClearDeletionKeepsEntries(rows, DeletionAsked(id));
    }
  }

  predicate Approval(call: Call) {
    call.Approve? || call.ReApprove? || call.BulkReApprove?
  }

  lemma ApproveKeepsEntries(rows: Rows, ids: set<Id>, actor: Value, now: int)
    ensures EntriesFrom(rows, UpdateWhere(rows, UnverifiedIn(ids), ApproveSet(actor, now), {DuplicateOfId}))
  {
    UpdateKeepsEntries(rows, UnverifiedIn(ids), ApproveSet(actor, now), {DuplicateOfId});
  }

  lemma ApprovalsKeepEntries(rows: Rows, call: Call)
    requires Approval(call)
    ensures EntriesFrom(rows, Apply(rows, call))
  {
    FewerRowsKeepEntries(rows, rows);
    match call {
      case Approve(ids, actor, now) => ApproveKeepsEntries(rows, ids, actor, now);
      case ReApprove(id, actor, now) => ReApprovalKeepsEntries(rows, id, actor, now);
      case BulkReApprove(ids, listing, actor, now) => BulkReApprovalKeepsEntries(rows, ids, listing, actor, now);
    }
  }

  predicate ListMove(call: Call) {
    call.SubmitDay? || call.Reject? || call.ReturnToInbox?
  }

  lemma RejectKeepsEntries(rows: Rows, ids: set<Id>, reason: string)
    ensures EntriesFrom(rows, UpdateWhere(rows, WithIds(ids, map[]), RejectSet(reason), {}))
  {
    UpdateKeepsEntries(rows, WithIds(ids, map[]), RejectSet(reason), {});
  }

  lemma StageKeepsEntries(rows: Rows, sel: Selector)
    ensures EntriesFrom(rows, UpdateWhere(rows, sel, STAGE_SET, {}))
  {
    UpdateKeepsEntries(rows, sel, STAGE_SET, {});
  }

  lemma InboxKeepsEntries(rows: Rows, sel: Selector)
    ensures EntriesFrom(rows, UpdateWhere(rows, sel, INBOX_SET, {}))
  {
    UpdateKeepsEntries(rows, sel, INBOX_SET, {});
  }

  lemma ListMovesKeepEntries(rows: Rows, call: Call)
    requires ListMove(call)
    ensures EntriesFrom(rows, Apply(rows, call))
  {
    match call {
      case SubmitDay(start, end) => StageKeepsEntries(rows, SubmitSelector(start, end));
      case Reject(ids, reason) => RejectKeepsEntries(rows, ids, reason);
      case ReturnToInbox(id) => InboxKeepsEntries(rows, RejectedRow(id));
    }
  }

  lemma FlagKeepsEntries(rows: Rows, sel: Selector, flag: Value)
    ensures EntriesFrom(rows, UpdateWhere(rows, sel, map[Discarded := flag], {}))
  {
    UpdateKeepsEntries(rows, sel, map[Discarded := flag], {});
  }

  lemma DiscardsKeepEntries(rows: Rows, call: Call)
    requires call.Discard? || call.RestoreDiscarded?
    ensures EntriesFrom(rows, Apply(rows, call))
  {
    match call {
      case Discard(ids, actor) => FlagKeepsEntries(rows, RejectedOf(ids, actor), YES);
      case RestoreDiscarded(ids, actor) => FlagKeepsEntries(rows, DiscardedOf(ids, actor), NO);
    }
  }

  lemma ClearTrashKeepsEntries(rows: Rows, sel: Selector)
    ensures EntriesFrom(rows, UpdateWhere(rows, sel, CLEAR_TRASH, {}))
  {
    UpdateKeepsEntries(rows, sel, CLEAR_TRASH, {});
  }

  lemma ClearRestoreKeepsEntries(rows: Rows, sel: Selector)
    ensures EntriesFrom(rows, UpdateWhere(rows, sel, CLEAR_RESTORE, {}))
  {
    UpdateKeepsEntries(rows, sel, CLEAR_RESTORE, {});
  }

  predicate CashierRestore(call: Call) {
    call.RestoreOwnTrash? || call.CancelRestore?
  }

  predicate AccountantRestore(call: Call) {
    call.RestoreFromTrash? || call.ConfirmRestore? || call.RejectRestore?
  }

  lemma RequestRestoreKeepsEntries(rows: Rows, id: Id, actor: Value, now: int)
    ensures EntriesFrom(rows, RequestRestoreRows(rows, id, actor, now))
  {
    FewerRowsKeepEntries(rows, rows);
    UpdateKeepsEntries(rows, RequestRestoreSelector(id, actor), AskRestoreSet(actor, now), {});
  }

  lemma CashierRestoresKeepEntries(rows: Rows, call: Call)
    requires CashierRestore(call)
    ensures EntriesFrom(rows, Apply(rows, call))
  {
    match call {
      case RestoreOwnTrash(ids, actor) => ClearTrashKeepsEntries(rows, OwnUnverified(ids, actor));
      case CancelRestore(id, actor) => ClearRestoreKeepsEntries(rows, OwnRestoreAsked(id, actor));
    }
  }

  lemma AccountantRestoresKeepEntries(rows: Rows, call: Call)
    requires AccountantRestore(call)
    ensures EntriesFrom(rows, Apply(rows, call))
  {
    match call {
      case RestoreFromTrash(ids) => ClearTrashKeepsEntries(rows, TrashedIn(ids));
      case ConfirmRestore(ids) => ClearTrashKeepsEntries(rows, RestoreAsked(ids));
      case RejectRestore(ids) => ClearRestoreKeepsEntries(rows, RestoreAsked(ids));
    }
  }

  /** Every step of every handler keeps the unique indexes, unless the caller writes an
      indexed field by hand. */
  lemma StepKeepsIndexes(rows: Rows, call: Call)
    requires IndexesHold(rows) && !WritesKeys(call)
    requires call.Create? ==> call.id !in rows
    requires call.BulkCreate? ==> FreshItems(rows, call.items)
    ensures IndexesHold(Apply(rows, call))
  {
    if call.Create? {
      CreateKeepsIndexes(rows, call.id, call.doc);
    } else if call.BulkCreate? {
      CreateAllKeepsIndexes(rows, call.items);
    } else {
      if Edits(call) {
        EditsKeepEntries(rows, call);
      } else if Removes(call) {
        RemovesKeepEntries(rows, call);
      } else if call.PurgeTrash? || call.PurgeOwnTrash? {
        PurgesKeepEntries(rows, call);
      } else if Deletion(call) {
        DeletionsKeepEntries(rows, call);
      } else if Approval(call) {
        ApprovalsKeepEntries(rows, call);
      } else if ListMove(call) {
        ListMovesKeepEntries(rows, call);
      } else if call.Discard? || call.RestoreDiscarded? {
        DiscardsKeepEntries(rows, call);
      } else if CashierRestore(call) {
        CashierRestoresKeepEntries(rows, call);
      } else if call.RequestRestore? {
        RequestRestoreKeepsEntries(rows, call.id, call.actor, call.now);
      } else {
        AccountantRestoresKeepEntries(rows, call);
      }
      EntriesFromKeepsIndexes(rows, Apply(rows, call));
    }
  }
}
