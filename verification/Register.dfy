/** The transactions collection and the stored badge document, updated in place
    by every handler. Each handler loads the rows it is about to write, writes,
    and adjusts the counters by the remembered changes; none of them recounts. */
module Register {
  import opened Mongo
  import opened Badges
  import opened BadgeStore
  import opened Lifecycle
  import opened Coverage
  import opened Composite
  import opened Creation
  import opened Unadjusted
  import opened Patching
  import opened Indexes
  import opened Reapproval
  import opened Retries
  import opened Gate

  class Register {
    var rows: Rows
    var counters: Counters

    constructor ()
      ensures rows == map[] && counters == map[] && Faithful(counters, rows)
    {
      rows, counters := map[], map[];
      new;
      assert forall k :: Hits(map[], k) == {};
    }

    // -------------------------------------------------------------- collection access

    /** `load_badge_docs`: the picked rows in some order, projected to counted fields. */
    method LoadBadgeDocs(sel: Selector) returns (ids: seq<Id>, docs: seq<Doc>)
      ensures NoDup(ids) && |ids| == |docs|
      ensures forall id :: id in ids <==> id in Picked(rows, sel)
      ensures forall i | 0 <= i < |ids| :: ids[i] in rows && docs[i] == Project(rows[ids[i]])
    {
      ids, docs := [], [];
      var todo := Picked(rows, sel);
      while todo != {}
        invariant todo <= Picked(rows, sel)
        invariant NoDup(ids) && |ids| == |docs|
        invariant forall id :: id in ids <==> id in Picked(rows, sel) && id !in todo
        invariant forall i | 0 <= i < |ids| :: ids[i] in rows && docs[i] == Project(rows[ids[i]])
        decreases todo
      {
        var id :| id in todo;
        ids, docs := ids + [id], docs + [Project(rows[id])];
        todo := todo - {id};
      }
    }

    method UpdateMany(sel: Selector, set_: Doc, unset: set<Field>) returns (modified: nat)
      modifies this`rows
      ensures rows == UpdateWhere(old(rows), sel, set_, unset)
      ensures modified == |Modified(old(rows), sel, set_, unset)|
    {
      modified := |Modified(rows, sel, set_, unset)|;
      rows := UpdateWhere(rows, sel, set_, unset);
    }

    method DeleteMany(sel: Selector) returns (deleted: nat)
      modifies this`rows
      ensures rows == DeleteWhere(old(rows), sel)
      ensures deleted == |Picked(old(rows), sel)|
    {
      deleted := |Picked(rows, sel)|;
      rows := DeleteWhere(rows, sel);
    }

    // -------------------------------------------------------------- badge_counters.py

    method AdjustBadges(deltas: map<Badge, int>, cashiers: Buckets)
      modifies this`counters
      ensures forall b :: Read(counters, Total(b)) == old(Read(counters, Total(b))) + TotalOf(deltas, b)
      ensures forall c, s :: (Read(counters, PerCashier(c, s)) ==
        old(Read(counters, PerCashier(c, s))) + ShelfOf(BucketOf(cashiers, c), s))
    {
      var inc := IncDocument(deltas, cashiers);
      if inc == map[] { return; }
      counters := map k | k in counters.Keys + inc.Keys :: Read(counters, k) + Read(inc, k);
    }

    method NoteTransition(before: Option<Doc>, after: Option<Doc>)
      modifies this`counters
      ensures forall k :: Read(counters, k) == old(Read(counters, k)) + Delta(Change(before, after), k)
    {
      ghost var stored := counters;
      var deltas, cashiers := TransitionDelta(before, after);
      AdjustBadges(deltas, cashiers);
      forall k ensures Read(counters, k) == Read(stored, k) + Delta(Change(before, after), k) {
        match k { case Total(_) => case PerCashier(_, _) => }
      }
    }

    /** One `$inc` for a whole batch, equal to noting every change on its own. */
    method NoteMany(pairs: seq<Change>)
      modifies this`counters
      ensures forall k :: Read(counters, k) == old(Read(counters, k)) + Noted(pairs, k)
    {
      ghost var stored := counters;
      var total: map<Badge, int>, cashiers: Buckets := map[], map[];
      for i := 0 to |pairs|
        invariant counters == stored
        invariant forall b :: TotalOf(total, b) == Noted(pairs[..i], Total(b))
        invariant forall c, s :: ShelfOf(BucketOf(cashiers, c), s) == Noted(pairs[..i], PerCashier(c, s))
      {
        var deltas, parts := TransitionDelta(pairs[i].before, pairs[i].after);
        total := AddTotals(total, deltas);
        cashiers := AddBuckets(cashiers, parts);
        assert pairs[..i + 1][..i] == pairs[..i];
      }
      assert pairs[..|pairs|] == pairs;
      AdjustBadges(total, cashiers);
      forall k ensures Read(counters, k) == Read(stored, k) + Noted(pairs, k) {
        match k { case Total(_) => case PerCashier(_, _) => }
      }
    }

    /** `apply_remembered`: nothing was modified means nothing is adjusted. */
    method ApplyRemembered(docs: seq<Doc>, changes: Option<Doc>, modified: nat)
      modifies this`counters
      ensures forall k :: (Read(counters, k) == old(Read(counters, k)) +
        if modified == 0 then 0 else Noted(Remembered(docs, changes), k))
    {
      if modified == 0 || docs == [] { return; }
      NoteMany(Remembered(docs, changes));
    }

    /** `repair_badge_counters`: count everything once and overwrite. */
    method Repair()
      modifies this`counters
      ensures Faithful(counters, rows)
    {
      var totals := map b | b in BADGE_KEYS :: CountOf(rows, CountQuery(b));
      var ids, docs := FindAll(Selector(None, DraftOrParkedMatch()));
      var cashiers := CashierBuckets(docs);
      counters := StoredDocument(totals, cashiers);
      forall k ensures Read(counters, k) == Tally(rows, k) {
        match k {
          case Total(b) =>
            EveryBadgeHasAKey(b);
            TallyIsCountDocuments(rows, b);
          case PerCashier(c, s) =>
            forall id | id in rows && Hit(k, rows[id]) ensures id in ids {
              DraftOrParkedIsOpenStage(rows[id]);
            }
            ListingCountsRows(rows, ids, docs, k);
        }
      }
    }

    /** `find(...).to_list()`: the picked rows, whole, in some order. */
    method FindAll(sel: Selector) returns (ids: seq<Id>, docs: seq<Doc>)
      ensures NoDup(ids) && |ids| == |docs|
      ensures forall id :: id in ids <==> id in Picked(rows, sel)
      ensures forall i | 0 <= i < |ids| ::
        ids[i] in rows && docs[i] == rows[ids[i]] && Picks(sel, ids[i], docs[i])
    {
      ids, docs := [], [];
      var todo := Picked(rows, sel);
      while todo != {}
        invariant todo <= Picked(rows, sel)
        invariant NoDup(ids) && |ids| == |docs|
        invariant forall id :: id in ids <==> id in Picked(rows, sel) && id !in todo
        invariant forall i | 0 <= i < |ids| ::
          ids[i] in rows && docs[i] == rows[ids[i]] && Picks(sel, ids[i], docs[i])
        decreases todo
      {
        var id :| id in todo;
        ids, docs := ids + [id], docs + [rows[id]];
        todo := todo - {id};
      }
    }

    // -------------------------------------------------------------- load, write, adjust

    /** The shape of most handlers: remember, `update_many`, `apply_remembered`. */
    method UpdateAndNote(sel: Selector, set_: Doc, unset: set<Field>, noted: Doc) returns (modified: nat)
      requires Covers(set_, unset, noted)
      modifies this
      ensures rows == UpdateWhere(old(rows), sel, set_, unset)
      ensures modified == |Modified(old(rows), sel, set_, unset)|
      ensures Tracks(old(counters), old(rows), counters, rows)
    {
      ghost var stored, before := counters, rows;
      var ids, docs := LoadBadgeDocs(sel);
      modified := UpdateMany(sel, set_, unset);
      ApplyRemembered(docs, Some(noted), modified);
      if modified == 0 {
        NothingModified(before, sel, set_, unset);
      } else {
        RememberedUpdateTracks(before, sel, set_, unset, noted, ids, docs);
      }
    }

    method DeleteAndNote(sel: Selector) returns (deleted: nat)
      modifies this
      ensures rows == DeleteWhere(old(rows), sel)
      ensures deleted == |Picked(old(rows), sel)|
      ensures Tracks(old(counters), old(rows), counters, rows)
    {
      ghost var stored, before := counters, rows;
      var ids, docs := LoadBadgeDocs(sel);
      deleted := DeleteMany(sel);
      ApplyRemembered(docs, None, deleted);
      RememberedDeleteTracks(before, sel, ids, docs);
      assert deleted == 0 ==> Picked(before, sel) == {};
      assert deleted == 0 ==> |ids| == 0 by {
        assert |ids| > 0 ==> ids[0] in Picked(before, sel);
      }
    }

    /** Replace, add or remove one row and note its transition. */
    method StoreAndNote(id: Id, after: Option<Doc>)
      modifies this
      ensures rows == if after.Some? then old(rows)[id := after.value] else old(rows) - {id}
      ensures Tracks(old(counters), old(rows), counters, rows)
    {
      ghost var was := rows;
      var before := At(rows, id);
      if after.Some? { rows := rows[id := after.value]; } else { rows := rows - {id}; }
      NoteTransition(before, after);
      assert was - {id} == rows - {id};
      forall k ensures Tally(rows, k) - Tally(was, k) == Delta(Change(before, after), k) {
        TallyChangesAtOneRow(was, rows, id, k);
      }
    }

    // -------------------------------------------------------------- register handlers

    method Patch(id: Id, values: Doc) returns (modified: nat)
      modifies this
      ensures rows == UpdateWhere(old(rows), ById(id), values, {})
      ensures modified == |Modified(old(rows), ById(id), values, {})|
      ensures Tracks(old(counters), old(rows), counters, rows)
    {
      SameCountedCovers(values, {}, values);
      modified := UpdateAndNote(ById(id), values, {}, values);
    }

    method Delete(id: Id) returns (deleted: nat)
      modifies this
      ensures rows == DeleteWhere(old(rows), ById(id))
      ensures deleted == |Picked(old(rows), ById(id))|
      ensures Tracks(old(counters), old(rows), counters, rows)
    {
      deleted := DeleteAndNote(ById(id));
    }

    method SubmitDay(start: int, end: int) returns (updated: nat)
      modifies this
      ensures rows == UpdateWhere(old(rows), SubmitSelector(start, end), STAGE_SET, {})
      ensures updated == |Modified(old(rows), SubmitSelector(start, end), STAGE_SET, {})|
      ensures Tracks(old(counters), old(rows), counters, rows)
    {
      InboxMovesCover();
      updated := UpdateAndNote(SubmitSelector(start, end), STAGE_SET, {}, STAGE_SET);
    }

    method DiscardDrafts(ids: set<Id>, scope: Option<Value>) returns (deleted: nat)
      modifies this
      ensures rows == DeleteWhere(old(rows), DraftsIn(ids, scope))
      ensures deleted == |Picked(old(rows), DraftsIn(ids, scope))|
      ensures Tracks(old(counters), old(rows), counters, rows)
    {
      deleted := DeleteAndNote(DraftsIn(ids, scope));
    }

    method DiscardDay(start: int, end: int, scope: Option<Value>) returns (deleted: nat)
      modifies this
      ensures rows == DeleteWhere(old(rows), DraftsOn(start, end, scope))
      ensures deleted == |Picked(old(rows), DraftsOn(start, end, scope))|
      ensures Tracks(old(counters), old(rows), counters, rows)
    {
      deleted := DeleteAndNote(DraftsOn(start, end, scope));
    }

    // -------------------------------------------------------------- accountant handlers

    method Approve(ids: set<Id>, actor: Value, now: int) returns (updated: nat)
      modifies this
      ensures rows == if Refused(old(rows), ids) then old(rows)
        else UpdateWhere(old(rows), UnverifiedIn(ids), ApproveSet(actor, now), {DuplicateOfId})
      ensures (exists id | id in ids && id in old(rows) :: !Complete(old(rows)[id])) ==> rows == old(rows)
      ensures updated == if Refused(old(rows), ids) then 0
        else |Modified(old(rows), UnverifiedIn(ids), ApproveSet(actor, now), {DuplicateOfId})|
      ensures Tracks(old(counters), old(rows), counters, rows)
    {
      RefusedMeans(rows, ids);
      if Refused(rows, ids) { return 0; }
      ApprovalCovers(actor, now);
      updated := UpdateAndNote(UnverifiedIn(ids), ApproveSet(actor, now), {DuplicateOfId}, APPROVE_NOTE);
    }

    method Reject(ids: set<Id>, reason: string) returns (updated: nat)
      modifies this
      ensures rows == UpdateWhere(old(rows), WithIds(ids, map[]), RejectSet(reason), {})
      ensures updated == |Modified(old(rows), WithIds(ids, map[]), RejectSet(reason), {})|
      ensures Tracks(old(counters), old(rows), counters, rows)
    {
      RejectionCovers(reason);
      updated := UpdateAndNote(WithIds(ids, map[]), RejectSet(reason), {}, REJECT_NOTE);
    }

    method ReturnToInbox(id: Id) returns (modified: nat)
      modifies this
      ensures rows == UpdateWhere(old(rows), RejectedRow(id), INBOX_SET, {})
      ensures modified == |Modified(old(rows), RejectedRow(id), INBOX_SET, {})|
      ensures Tracks(old(counters), old(rows), counters, rows)
    {
      InboxMovesCover();
      modified := UpdateAndNote(RejectedRow(id), INBOX_SET, {}, INBOX_NOTE);
    }

    method RestoreDeletion(id: Id) returns (modified: nat)
      modifies this
      ensures rows == UpdateWhere(old(rows), DeletionAsked(id), CLEAR_DELETION, {})
      ensures modified == |Modified(old(rows), DeletionAsked(id), CLEAR_DELETION, {})|
      ensures Tracks(old(counters), old(rows), counters, rows)
    {
      InboxMovesCover();
      modified := UpdateAndNote(DeletionAsked(id), CLEAR_DELETION, {}, DELETION_NOTE);
    }

    method RestoreFromTrash(ids: set<Id>) returns (updated: nat)
      modifies this
      ensures rows == UpdateWhere(old(rows), TrashedIn(ids), CLEAR_TRASH, {})
      ensures updated == |Modified(old(rows), TrashedIn(ids), CLEAR_TRASH, {})|
      ensures Tracks(old(counters), old(rows), counters, rows)
    {
      TrashMovesCover(Null, 0);
      updated := UpdateAndNote(TrashedIn(ids), CLEAR_TRASH, {}, TRASH_NOTE);
    }

    method PurgeTrash(ids: set<Id>) returns (deleted: nat)
      modifies this
      ensures rows == DeleteWhere(old(rows), TrashedIn(ids))
      ensures deleted == |Picked(old(rows), TrashedIn(ids))|
      ensures Tracks(old(counters), old(rows), counters, rows)
    {
      deleted := DeleteAndNote(TrashedIn(ids));
    }

    method RestoreOwnTrash(ids: set<Id>, actor: Value) returns (updated: nat)
      modifies this
      ensures rows == UpdateWhere(old(rows), OwnUnverified(ids, actor), CLEAR_TRASH, {})
      ensures updated == |Modified(old(rows), OwnUnverified(ids, actor), CLEAR_TRASH, {})|
      ensures Tracks(old(counters), old(rows), counters, rows)
    {
      TrashMovesCover(Null, 0);
      updated := UpdateAndNote(OwnUnverified(ids, actor), CLEAR_TRASH, {}, TRASH_NOTE);
    }

    method PurgeOwnTrash(ids: set<Id>, actor: Value) returns (deleted: nat)
      modifies this
      ensures rows == DeleteWhere(old(rows), OwnUnverified(ids, actor))
      ensures deleted == |Picked(old(rows), OwnUnverified(ids, actor))|
      ensures Tracks(old(counters), old(rows), counters, rows)
    {
      deleted := DeleteAndNote(OwnUnverified(ids, actor));
    }

    method RequestRestore(id: Id, actor: Value, now: int)
      modifies this
      ensures rows == RequestRestoreRows(old(rows), id, actor, now)
      ensures Tracks(old(counters), old(rows), counters, rows)
    {
      if id !in rows || Truthy(rows[id], RestoreRequested) { return; }
      TrashMovesCover(actor, now);
      var _ := UpdateAndNote(RequestRestoreSelector(id, actor), AskRestoreSet(actor, now), {},
        ASK_RESTORE_NOTE);
    }

    method CancelRestore(id: Id, actor: Value) returns (modified: nat)
      modifies this
      ensures rows == UpdateWhere(old(rows), OwnRestoreAsked(id, actor), CLEAR_RESTORE, {})
      ensures modified == |Modified(old(rows), OwnRestoreAsked(id, actor), CLEAR_RESTORE, {})|
      ensures Tracks(old(counters), old(rows), counters, rows)
    {
      TrashMovesCover(Null, 0);
      modified := UpdateAndNote(OwnRestoreAsked(id, actor), CLEAR_RESTORE, {}, CANCEL_RESTORE_NOTE);
    }

    method ConfirmRestore(ids: set<Id>) returns (updated: nat)
      modifies this
      ensures rows == UpdateWhere(old(rows), RestoreAsked(ids), CLEAR_TRASH, {})
      ensures updated == |Modified(old(rows), RestoreAsked(ids), CLEAR_TRASH, {})|
      ensures Tracks(old(counters), old(rows), counters, rows)
    {
      TrashMovesCover(Null, 0);
      updated := UpdateAndNote(RestoreAsked(ids), CLEAR_TRASH, {}, CLEAR_TRASH);
    }

    method RejectRestore(ids: set<Id>) returns (updated: nat)
      modifies this
      ensures rows == UpdateWhere(old(rows), RestoreAsked(ids), CLEAR_RESTORE, {})
      ensures updated == |Modified(old(rows), RestoreAsked(ids), CLEAR_RESTORE, {})|
      ensures Tracks(old(counters), old(rows), counters, rows)
    {
      TrashMovesCover(Null, 0);
      updated := UpdateAndNote(RestoreAsked(ids), CLEAR_RESTORE, {}, CLEAR_RESTORE);
    }

    // -------------------------------------------------------------- re-approval

    /** `_re_approve_one`: simple approval, or cascade the clone onto its original. */
    method ReApproveOne(id: Id, actor: Value, now: int) returns (ok: bool)
      modifies this
      ensures rows == ReApproved(old(rows), id, actor, now)
      ensures ok <==> rows != old(rows)
      ensures forall k :: (Read(counters, k) ==
        old(Read(counters, k)) + Noted(ReApproveNotes(old(rows), id, actor, now), k))
    {
      ghost var stored := counters;
      if id !in rows || !IsFalse(rows[id], Verified) { return false; }
      var pending := rows[id];
      if Truthy(pending, OriginalTransactionId) {
        var original := OriginalOf(rows, pending);
        if original.None? { return false; }
        var updates := CascadeUpdates(pending, actor, now);
        var before := rows[original.value];
        if before + updates == before { return false; }
        rows := rows[original.value := before + updates];
        NoteTransition(Some(before), Some(before + updates));
        rows := rows - {id};
        NoteTransition(Some(pending), None);
        forall k ensures Noted([Change(Some(before), Some(before + updates)), Change(Some(pending), None)], k)
          == Read(counters, k) - Read(stored, k)
        {
          NotedTwo(Change(Some(before), Some(before + updates)), Change(Some(pending), None), k);
        }
      } else {
        rows := rows[id := pending + ReApproveSet(actor, now)];
        NoteTransition(Some(pending), Some(pending + RE_APPROVE_NOTE));
        forall k ensures Noted([Change(Some(pending), Some(pending + RE_APPROVE_NOTE))], k)
          == Read(counters, k) - Read(stored, k)
        {
          NotedOne(Change(Some(pending), Some(pending + RE_APPROVE_NOTE)), k);
        }
      }
      ok := true;
    }

    method ReApprove(id: Id, actor: Value, now: int) returns (ok: bool)
      modifies this
      ensures rows ==
        if Refused(old(rows), {id}) then old(rows) else ReApproved(old(rows), id, actor, now)
      ensures id in old(rows) && !Complete(old(rows)[id]) ==> rows == old(rows)
      ensures ok <==> rows != old(rows)
      ensures Tracks(old(counters), old(rows), counters, rows) <==>
        Refused(old(rows), {id}) || !DeductedTwice(old(rows), id)
    {
      RefusedMeans(rows, {id});
      if Refused(rows, {id}) { return false; }
      ReApproveExact(rows, id, actor, now);
      ok := ReApproveOne(id, actor, now);
    }

    method CascadeAll(order: seq<Id>, actor: Value, now: int)
      modifies this
      ensures rows == ReApprovedAll(old(rows), order, actor, now)
      ensures TracksBut(old(counters), old(rows), counters, rows, order, actor, now)
    {
      ghost var was, stored := rows, counters;
      for i := 0 to |order|
        invariant rows == ReApprovedAll(was, order[..i], actor, now)
        invariant TracksBut(stored, was, counters, rows, order[..i], actor, now)
      {
        ghost var before, mid := counters, rows;
        var _ := ReApproveOne(order[i], actor, now);
        TracksButNext(stored, was, before, mid, counters, order, actor, now, i);
      }
      assert order[..|order|] == order;
    }

    /** Cascades one by one in the order found, then one write for the simple rows;
        `listing` is the order in which `find` returns the unverified rows. The counters
        stay right exactly when no cascaded row is deducted twice at its turn. */
    method BulkReApprove(ids: set<Id>, listing: seq<Id>, actor: Value, now: int)
      requires Lists(rows, UnverifiedIn(ids), listing)
      modifies this
      ensures rows == BulkReApproved(old(rows), ids, listing, actor, now)
      ensures (exists id | id in ids && id in old(rows) :: !Complete(old(rows)[id])) ==> rows == old(rows)
      ensures Tracks(old(counters), old(rows), counters, rows) <==>
        Refused(old(rows), ids) || NeverTwice(old(rows), CascadesIn(old(rows), listing), actor, now)
      ensures NoSelfOriginals(old(rows)) ==> Tracks(old(counters), old(rows), counters, rows)
    {
      RefusedMeans(rows, ids);
      if Refused(rows, ids) { return; }
      ghost var was, stored := rows, counters;
      var order, simple := SplitCascades(listing);
      CascadeAll(order, actor, now);
      ghost var mid, midStored := rows, counters;
      ReApproveCovers(actor, now);
      var _ := UpdateAndNote(UnverifiedIn(simple), ReApproveSet(actor, now), {}, RE_APPROVE_NOTE);
      CascadesDecide(stored, was, midStored, mid, counters, rows, order, actor, now);
    }

    method SplitCascades(listing: seq<Id>) returns (order: seq<Id>, simple: set<Id>)
      requires forall id | id in listing :: id in rows
      ensures order == CascadesIn(rows, listing) && simple == SimpleIn(rows, listing)
    {
      order, simple := [], {};
      for i := 0 to |listing|
        invariant order == CascadesIn(rows, listing[..i])
        invariant simple == SimpleIn(rows, listing[..i])
      {
        assert listing[..i + 1][..i] == listing[..i];
        if Truthy(rows[listing[i]], OriginalTransactionId) {
          order := order + [listing[i]];
        } else {
          simple := simple + {listing[i]};
        }
      }
      assert listing[..|listing|] == listing;
    }

    // -------------------------------------------------------------- deletion

    method RequestDelete(id: Id, actor: Value, now: int)
      modifies this
      ensures rows == RequestDeleteRows(old(rows), id, actor, now)
      ensures Tracks(old(counters), old(rows), counters, rows)
    {
      if id !in rows { return; }
      var doc := rows[id];
      if IsPendingClone(doc) {
        StoreAndNote(id, None);
      } else if !Truthy(doc, Verified) {
        if Truthy(doc, Trashed) { return; }
        SoftTrashCovers(actor, now);
        UpdateByIdStores(rows, id, SoftTrashSet(actor, now));
        var _ := UpdateAndNote(ById(id), SoftTrashSet(actor, now), {}, SOFT_TRASH_NOTE);
      } else {
        AskDeletionCovers(actor, now);
        UpdateByIdStores(rows, id, AskDeletionSet(actor, now));
        var _ := UpdateAndNote(ById(id), AskDeletionSet(actor, now), {}, ASK_DELETION_NOTE);
      }
    }

    /** Clones of the row go first, then the row itself moves to trash. */
    method ConfirmDeletion(id: Id, actor: Value, now: int) returns (ok: bool)
      modifies this
      ensures rows == ConfirmDeletionRows(old(rows), id, actor, now)
      ensures ok <==> id in rows && rows != old(rows)
      ensures Tracks(old(counters), old(rows), counters, rows)
    {
      ok := false;
      if id !in rows || !Picks(DeletionAsked(id), id, rows[id]) { return; }
      ghost var was, stored := rows, counters;
      var _ := DeleteAndNote(ClonesOf(id));
      ghost var mid, midStored := rows, counters;
      TrashCovers(actor, now);
      var n := UpdateAndNote(DeletionAsked(id), TrashSet(actor, now), {}, TRASHED_NOTE);
      TracksTransitive(stored, was, midStored, mid, counters, rows);
      TrashesOne(mid, id, actor, now);
      ok := n == 1;
    }

    // -------------------------------------------------------------- pending edits

    /** Edit a verified row through its clone. `target` is the open clone that `find_one`
        returns, or the id of the clone to insert when there is none. */
    method PendingEdit(original: Id, updates: Doc, cashier: Value, now: int, target: Id)
      returns (found: bool)
      requires EditTarget(rows, original, target)
      modifies this
      ensures found <==> original in old(rows)
      ensures rows == PendingEditRows(old(rows), original, updates, cashier, now, target)
      ensures found && target !in old(rows) ==> !Clashes(old(rows), rows[target])
      ensures Tracks(old(counters), old(rows), counters, rows)
    {
      if original !in rows { return false; }
      if OpenClones(rows, original) != {} {
        StoreAndNote(target, Some(rows[target] + (updates + EditMeta(original, cashier, now))));
      } else {
        var clone := EditedClone(rows[original], original, updates, cashier, now);
        CloneHasNoEntries(rows[original], original, updates, cashier, now);
        NoEntriesNoClash(rows, clone);
        StoreAndNote(target, Some(clone));
      }
      found := true;
    }

    // -------------------------------------------------------------- bulk edits

    /** What the handler will note, from the rows before any edit is written. */
    method PlanNotes(edits: seq<Edit>) returns (pairs: seq<Change>)
      ensures pairs == PatchNotes(rows, edits)
    {
      pairs := [];
      for i := 0 to |edits|
        invariant pairs == PatchNotes(rows, edits[..i])
      {
        var e := edits[i];
        assert edits[..i + 1][..i] == edits[..i];
        if TouchesBadges(e.values) && e.id in rows {
          var before := Project(rows[e.id]);
          pairs := pairs + [Change(Some(before), Some(before + e.values))];
        }
      }
      assert edits[..|edits|] == edits;
    }

    method BulkWrite(edits: seq<Edit>)
      modifies this`rows
      ensures rows == PatchAll(old(rows), edits)
    {
      ghost var was := rows;
      for i := 0 to |edits|
        invariant rows == PatchAll(was, edits[..i])
      {
        assert edits[..i + 1][..i] == edits[..i];
        var _ := UpdateMany(ById(edits[i].id), edits[i].values, {});
      }
      assert edits[..|edits|] == edits;
    }

    /** One `bulk_write` for all edits; only edits that touch a counted flag are noted. The
        counters stay right exactly when nothing is misnoted. */
    method BulkPatch(edits: seq<Edit>)
      modifies this
      ensures rows == PatchAll(old(rows), edits)
      ensures forall k ::
        Read(counters, k) == old(Read(counters, k)) + Noted(PatchNotes(old(rows), edits), k)
      ensures Tracks(old(counters), old(rows), counters, rows) <==> NothingMisnoted(old(rows), edits)
      ensures DistinctIds(edits) ==>
        (Tracks(old(counters), old(rows), counters, rows) <==> NoSilentArrivals(old(rows), edits))
      ensures NotedOncePerRow(edits) ==> Tracks(old(counters), old(rows), counters, rows)
    {
      PatchExact(rows, edits);
      if DistinctIds(edits) { SilentArrivalsDecide(rows, edits); }
      if NotedOncePerRow(edits) { NotedOnceFollows(rows, edits); }
      var pairs := PlanNotes(edits);
      BulkWrite(edits);
      NoteMany(pairs);
    }

    /** `load_badge_docs` keyed by id, for the handlers that note later. */
    method LoadById(ids: set<Id>) returns (loaded: map<Id, Doc>)
      ensures loaded == map id | id in ids && id in rows :: Project(rows[id])
    {
      loaded := map id | id in ids && id in rows :: Project(rows[id]);
    }

    /** One entry of a resubmit: write, and remember the change if the row was modified. */
    method ResubmitRow(ghost was: Rows, ghost done: seq<Id>, loaded: map<Id, Doc>,
        pairs: seq<Change>, scope: Value, now: int, e: Edit)
      returns (hit: bool, pairs': seq<Change>, ghost done': seq<Id>)
      requires Accounted(was, rows, done, pairs)
      requires e.id in was ==> e.id in loaded && loaded[e.id] == Project(was[e.id])
      modifies this`rows
      ensures rows == ResubmitOne(old(rows), scope, now, e)
      ensures hit <==> Resubmits(old(rows), scope, e)
      ensures Accounted(was, rows, done', pairs')
    {
      ResubmitStep(was, rows, done, pairs, scope, now, e);
      ResubmitModifies(rows, scope, now, e);
      var payload := e.values + ResubmitMeta(scope, now);
      var n := UpdateMany(RejectedOf({e.id}, scope), payload, {});
      hit, pairs', done' := n != 0, pairs, done;
      if hit {
        pairs' := pairs + [Change(Some(loaded[e.id]), Some(loaded[e.id] + payload))];
        done' := done + [e.id];
      }
    }

    /** All entries of a resubmit, with the changes to note for them. */
    method ResubmitRows(scope: Value, now: int, edits: seq<Edit>)
      returns (updated: nat, pairs: seq<Change>, ghost done: seq<Id>)
      modifies this`rows
      ensures rows == ResubmitAll(old(rows), scope, now, edits)
      ensures updated == |Reopened(old(rows), scope, edits)|
      ensures Accounted(old(rows), rows, done, pairs)
    {
      ghost var was := rows;
      var loaded := LoadById(set e | e in edits :: e.id);
      updated, pairs, done := 0, [], [];
      for i := 0 to |edits|
        invariant rows == ResubmitAll(was, scope, now, edits[..i])
        invariant updated == |Reopened(was, scope, edits[..i])|
        invariant Accounted(was, rows, done, pairs)
      {
        ResubmitNext(was, scope, now, edits, i);
        ReopenedNext(was, scope, now, edits, i);
        assert edits[i] in edits;
        var hit;
        hit, pairs, done := ResubmitRow(was, done, loaded, pairs, scope, now, edits[i]);
        if hit { updated := updated + 1; }
      }
      assert edits[..|edits|] == edits;
    }

    /** Put rejected rows back in the inbox. Entries may repeat an id: a resubmitted row
        is no longer rejected, so later entries for it match nothing. When a later entry
        cannot be coerced the handler raises after `edits` were written, and notes nothing. */
    method Resubmit(scope: Value, now: int, edits: seq<Edit>, raises: bool) returns (updated: nat)
      modifies this
      ensures rows == ResubmitAll(old(rows), scope, now, edits)
      ensures updated == |Reopened(old(rows), scope, edits)|
      ensures raises ==> counters == old(counters)
      ensures !raises ==> Tracks(old(counters), old(rows), counters, rows)
      ensures raises ==> (Tracks(old(counters), old(rows), counters, rows) <==>
        AbortIsHarmless(old(rows), scope, now, edits))
    {
      ghost var was := rows;
      var pairs;
      ghost var done;
      updated, pairs, done := ResubmitRows(scope, now, edits);
      if raises {
        LostResubmitExact(was, scope, now, edits);
        return;
      }
      NoteMany(pairs);
      forall k ensures Noted(pairs, k) == Tally(rows, k) - Tally(was, k) {
        NotedFollowsRecount(was, rows, done, pairs, k);
      }
    }

    // -------------------------------------------------------------- unadjusted writes

    /** `discard_transactions`: no adjustment, and none is due. */
    method Discard(ids: set<Id>, scope: Value) returns (updated: nat)
      modifies this
      ensures rows == UpdateWhere(old(rows), RejectedOf(ids, scope), map[Discarded := YES], {})
      ensures updated == |Modified(old(rows), RejectedOf(ids, scope), map[Discarded := YES], {})|
      ensures Tracks(old(counters), old(rows), counters, rows)
    {
      DiscardKeepsTallies(rows, ids, scope);
      updated := UpdateMany(RejectedOf(ids, scope), map[Discarded := YES], {});
    }

    /** `restore_discarded_transactions`: no adjustment, which is right exactly when no
        restored row comes back to a shelf. */
    method RestoreDiscarded(ids: set<Id>, scope: Value) returns (updated: nat)
      modifies this
      ensures rows == UpdateWhere(old(rows), DiscardedOf(ids, scope), map[Discarded := NO], {})
      ensures updated == |Modified(old(rows), DiscardedOf(ids, scope), map[Discarded := NO], {})|
      ensures Tracks(old(counters), old(rows), counters, rows) <==>
        forall id | id in old(rows) && Picks(DiscardedOf(ids, scope), id, old(rows)[id]) ::
          !OnShelf(old(rows)[id][Discarded := NO])
      ensures DiscardLawHolds(old(rows)) ==> Tracks(old(counters), old(rows), counters, rows)
    {
      RestoreDiscardedExact(rows, ids, scope);
      if DiscardLawHolds(rows) {
        RestoreDiscardedKeepsTallies(rows, ids, scope);
      }
      updated := UpdateMany(DiscardedOf(ids, scope), map[Discarded := NO], {});
    }

    /** `delete_discarded_transactions` never adjusts: right exactly when no deleted row
        was still counted in a trash or deletion list. */
    method DeleteDiscarded(ids: set<Id>, scope: Value) returns (deleted: nat)
      modifies this
      ensures rows == DeleteWhere(old(rows), DiscardedOf(ids, scope)) && counters == old(counters)
      ensures deleted == |Picked(old(rows), DiscardedOf(ids, scope))|
      ensures Tracks(old(counters), old(rows), counters, rows) <==>
        forall id | id in old(rows) && Picks(DiscardedOf(ids, scope), id, old(rows)[id]) ::
          !Counted(old(rows)[id])
    {
      QuietDeleteExact(rows, DiscardedOf(ids, scope));
      deleted := DeleteMany(DiscardedOf(ids, scope));
    }

    /** `delete_daily_upload`: right exactly when no row of the upload is counted. */
    method DeleteDailyUpload(upload: string) returns (deleted: nat)
      modifies this
      ensures rows == DeleteWhere(old(rows), UploadRows(upload)) && counters == old(counters)
      ensures deleted == |Picked(old(rows), UploadRows(upload))|
      ensures Tracks(old(counters), old(rows), counters, rows) <==>
        forall id | id in old(rows) && Picks(UploadRows(upload), id, old(rows)[id]) ::
          !Counted(old(rows)[id])
    {
      QuietDeleteExact(rows, UploadRows(upload));
      deleted := DeleteMany(UploadRows(upload));
    }

    /** `bulk_restore_deletions`: right exactly when it restores nothing. */
    method BulkRestoreDeletions(ids: set<Id>) returns (updated: nat)
      modifies this
      ensures rows == UpdateWhere(old(rows), Asked(ids), CLEAR_DELETION, {}) && counters == old(counters)
      ensures updated == |Modified(old(rows), Asked(ids), CLEAR_DELETION, {})|
      ensures Tracks(old(counters), old(rows), counters, rows) <==> Picked(old(rows), Asked(ids)) == {}
    {
      QuietRestoreDeletions(rows, ids);
      updated := UpdateMany(Asked(ids), CLEAR_DELETION, {});
    }

    /** `bulk_request_restore_from_trash`: right exactly when it asks for nothing. */
    method BulkRequestRestore(ids: set<Id>, actor: Value, now: int) returns (updated: nat)
      modifies this
      ensures rows == UpdateWhere(old(rows), BulkRestoreAsk(ids, actor), AskRestoreSet(actor, now), {})
      ensures updated == |Modified(old(rows), BulkRestoreAsk(ids, actor), AskRestoreSet(actor, now), {})|
      ensures counters == old(counters)
      ensures Tracks(old(counters), old(rows), counters, rows) <==>
        Picked(old(rows), BulkRestoreAsk(ids, actor)) == {}
    {
      QuietRequestRestore(rows, ids, actor, now);
      updated := UpdateMany(BulkRestoreAsk(ids, actor), AskRestoreSet(actor, now), {});
    }

    /** `bulk_confirm_deletions`: right exactly when it deletes no counted clone and
        trashes nothing. */
    method BulkConfirmDeletions(ids: seq<Id>, actor: Value, now: int) returns (updated: nat)
      modifies this
      ensures rows == BulkConfirmed(old(rows), ids, actor, now) && counters == old(counters)
      ensures updated ==
        |Modified(DeleteWhere(old(rows), ClonesOfAny(ids)), Asked(Among(ids)), TrashSet(actor, now), {})|
      ensures Tracks(old(counters), old(rows), counters, rows) <==>
        && (forall id | id in old(rows) && Picks(ClonesOfAny(ids), id, old(rows)[id]) :: !Counted(old(rows)[id]))
        && Picked(DeleteWhere(old(rows), ClonesOfAny(ids)), Asked(Among(ids))) == {}
    {
      QuietConfirmExact(rows, ids, actor, now);
      var _ := DeleteMany(ClonesOfAny(ids));
      updated := UpdateMany(Asked(Among(ids)), TrashSet(actor, now), {});
    }

    // -------------------------------------------------------------- creating rows

    /** `find_one` by (cashier_id, client_row_id). */
    method FindByClientRow(key: (Value, Value)) returns (found: Option<Id>)
      ensures found.Some? ==> found.value in SameClientRow(rows, key)
      ensures found.None? ==> SameClientRow(rows, key) == {}
    {
      var hits := SameClientRow(rows, key);
      if hits == {} { return None; }
      var id :| id in hits;
      found := Some(id);
    }

    /** `_create_one_transaction_doc`; `Failed` is a raised DuplicateKeyError. */
    method CreateOne(id: Id, doc: Doc) returns (slot: Slot)
      requires id !in rows && RegisterDoc(doc)
      modifies this
      ensures rows == CreateRow(old(rows), id, doc)
      ensures rows == if slot.outcome == Created then old(rows)[id := doc] else old(rows)
      ensures AnswersLike(slot, old(rows), doc)
      ensures Retryable(doc) ==> slot.outcome == if StoredPair(old(rows), doc) then AlreadyExists else Created
      ensures slot.outcome == AlreadyExists ==>
        exists found | found in rows :: SamePair(rows[found], doc) && slot.saved == Some(rows[found])
      ensures Tracks(old(counters), old(rows), counters, rows)
    {
      ClashMeansSameClientRow(rows, doc);
      if Retryable(doc) { RetryIsRecognised(rows, doc); } else { OtherCreatesFail(rows, doc); }
      var key := ClientRowKey(doc);
      if key.Some? {
        var existing := FindByClientRow(key.value);
        if existing.Some? { return Slot(AlreadyExists, Some(rows[existing.value])); }
      }
      if Clashes(rows, doc) { return Slot(Failed, None); }
      StoreAndNote(id, Some(doc));
      slot := Slot(Created, Some(doc));
    }

    method InsertOne(ins: Insertion) returns (clash: bool)
      modifies this`rows
      ensures rows == InsertRow(old(rows), ins) && clash == Clashes(old(rows), ins.doc)
    {
      clash := Clashes(rows, ins.doc);
      if !clash { rows := rows[ins.id := ins.doc]; }
    }

    method InsertMany(list: seq<Insertion>) returns (failed: seq<bool>)
      modifies this`rows
      ensures rows == InsertAll(old(rows), list)
      ensures |failed| == |list| && FailuresRight(old(rows), list, failed)
    {
      ghost var was := rows;
      failed := [];
      for j := 0 to |list|
        invariant rows == InsertAll(was, list[..j])
        invariant |failed| == j && FailuresRight(was, list, failed)
      {
        InsertNext(was, list, j);
        var clash := InsertOne(list[j]);
        OneMoreFailure(was, list, failed, clash);
        failed := failed + [clash];
      }
      assert list[..|list|] == list;
    }

    /** One lookup per requested key before anything is written. */
    method Prefetch(items: seq<NewRow>) returns (found: map<(Value, Value), Id>)
      ensures forall key | key in found :: found[key] in SameClientRow(rows, key)
      ensures forall i | 0 <= i < |items| && items[i].doc.Some? && ClientRowKey(items[i].doc.value).Some? ::
        var key := ClientRowKey(items[i].doc.value).value;
        key in found <==> SameClientRow(rows, key) != {}
    {
      found := map[];
      for i := 0 to |items|
        invariant forall key | key in found :: found[key] in SameClientRow(rows, key)
        invariant forall j | 0 <= j < i && items[j].doc.Some? && ClientRowKey(items[j].doc.value).Some? ::
          var key := ClientRowKey(items[j].doc.value).value;
          key in found <==> SameClientRow(rows, key) != {}
      {
        if items[i].doc.Some? && ClientRowKey(items[i].doc.value).Some? {
          var key := ClientRowKey(items[i].doc.value).value;
          var hit := FindByClientRow(key);
          if hit.Some? { found := found[key := hit.value]; }
        }
      }
    }

    /** Errors and prefetched rows are answered at once; the rest is planned for insertion. */
    method PlanInserts(items: seq<NewRow>) returns (slots: seq<Option<Slot>>, list: seq<Insertion>)
      requires FreshItems(rows, items)
      ensures |slots| == |items| && Drafted(rows, items, slots, list)
    {
      var found := Prefetch(items);
      slots, list := [], [];
      for i := 0 to |items|
        invariant |slots| == i && Drafted(rows, items, slots, list)
      {
        if items[i].doc.None? {
          PlanSkip(rows, items, i, list);
          DraftAnswer(rows, items, slots, list, Slot(Failed, None));
          slots := slots + [Some(Slot(Failed, None))];
        } else {
          var d := items[i].doc.value;
          var key := ClientRowKey(d);
          PlanNext(rows, items, i, list);
          if key.Some? && key.value in found {
            var slot := Slot(AlreadyExists, Some(rows[found[key.value]]));
            DraftAnswer(rows, items, slots, list, slot);
            slots := slots + [Some(slot)];
          } else {
            DraftOpen(rows, items, slots, list, Insertion(i, items[i].id, d));
            slots, list := slots + [None], list + [Insertion(i, items[i].id, d)];
          }
        }
      }
    }

    /** `_resolve_duplicate`: the row that holds the key now, or an error. */
    method ResolveDuplicate(doc: Doc) returns (slot: Slot, ghost found: Option<Id>)
      ensures Resolves(rows, doc, found) && slot == ResolvedSlot(rows, found)
    {
      var hit := None;
      if ClientRowKey(doc).Some? { hit := FindByClientRow(ClientRowKey(doc).value); }
      found := hit;
      slot := if hit.Some? then Slot(AlreadyExists, Some(rows[hit.value])) else Slot(Failed, None);
    }

    /** The answers of one `insert_many`: created rows and resolved duplicates. */
    method AnswerBatch(ghost was: Rows, items: seq<NewRow>, list: seq<Insertion>, failed: seq<bool>,
        partial: seq<Option<Slot>>)
      returns (slots: seq<Option<Slot>>, created: seq<Insertion>)
      requires FreshItems(was, items) && Planned(was, items, |items|, list) && IndexesHold(was)
      requires rows == InsertAll(was, list) && |failed| == |list| && FailuresRight(was, list, failed)
      requires Filling(was, items, list, 0, partial)
      ensures |slots| == |items|
      ensures forall i | 0 <= i < |items| :: slots[i].Some? && SlotRight(slots[i].value, was, items, i)
      ensures Added(was, rows, created)
    {
      PlannedIsFresh(was, items, |items|, list);
      slots, created := partial, [];
      for j := 0 to |list|
        invariant Filling(was, items, list, j, slots)
        invariant Added(was, InsertAll(was, list[..j]), created)
      {
        AddedStep(was, list, j, created);
        var slot: Slot;
        if !failed[j] {
          CreatedRight(was, items, list, j);
          slot, created := Slot(Created, Some(list[j].doc)), created + [list[j]];
        } else {
          ghost var found;
          slot, found := ResolveDuplicate(list[j].doc);
          ResolvedRight(was, items, list, j, rows, found);
        }
        FillStep(was, items, list, j, slots, slot);
        slots := slots[list[j].index := Some(slot)];
      }
      assert list[..|list|] == list;
      FilledUp(was, items, list, slots);
    }

    /** `bulk_create_transactions`: the same rows, answers and badge movement as
        creating the items one request at a time. */
    method BulkCreate(items: seq<NewRow>) returns (slots: seq<Slot>)
      requires FreshItems(rows, items) && IndexesHold(rows)
      modifies this
      ensures rows == CreateAll(old(rows), items)
      ensures |slots| == |items|
      ensures forall i | 0 <= i < |items| :: SlotRight(slots[i], old(rows), items, i)
      ensures forall i, j | Repeats(items, i, j) ::
        slots[j].outcome == AlreadyExists && slots[j].saved.Some? && SamePair(slots[j].saved.value, items[j].doc.value)
      ensures IndexesHold(rows)
      ensures Tracks(old(counters), old(rows), counters, rows)
    {
      ghost var was := rows;
      var partial, list := PlanInserts(items);
      assert items[..|items|] == items;
      InsertAllKeepsIndexes(was, list);
      var failed := InsertMany(list);
      var full, created := AnswerBatch(was, items, list, failed, partial);
      slots := seq(|items|, i requires 0 <= i < |items| => full[i].value);
      forall i, j | Repeats(items, i, j)
        ensures slots[j].outcome == AlreadyExists && slots[j].saved.Some?
          && SamePair(slots[j].saved.value, items[j].doc.value)
      {
        SecondIsRecognised(was, items, i, j, slots[j]);
      }
      forall k ensures Noted(CreateNotes(created), k) == Tally(rows, k) - Tally(was, k) {
        CreateNotesFollow(was, rows, created, k);
      }
      NoteMany(CreateNotes(created));
    }
  }
}
