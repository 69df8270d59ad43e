/** Why a remembered change may stand for the real write: `modified == 0` skips
    nothing, projected documents count like whole ones, and each handler's short
    list of changes covers everything it writes that is counted. */
module Coverage {
  import opened Mongo
  import opened Badges
  import opened Lifecycle

  /** The stored counters equal the recount. */
  ghost predicate Faithful(c: Counters, rows: Rows) {
    forall k :: Read(c, k) == Tally(rows, k)
  }

  /** Between two states every counter moved exactly as its recount did. */
  ghost predicate Tracks(c0: Counters, r0: Rows, c1: Counters, r1: Rows) {
    forall k :: Read(c1, k) - Read(c0, k) == Tally(r1, k) - Tally(r0, k)
  }

  lemma EveryBadgeHasAKey(b: Badge)
    ensures b in BADGE_KEYS
  {
    match b { case Verify => case Edited => case Drafts => case Parked =>
      case DeletionRequests => case RestoreRequests => }
  }

  /** `note_mutations`, or the deletion form when `changes` is None. */
  function Remembered(docs: seq<Doc>, changes: Option<Doc>): seq<Change> {
    seq(|docs|, i requires 0 <= i < |docs| =>
      Change(Some(docs[i]), if changes.Some? then Some(docs[i] + changes.value) else None))
  }

  /** The skip in `apply_remembered` is sound: an update that modified no row changed nothing. */
  lemma NothingModified(rows: Rows, sel: Selector, set_: Doc, unset: set<Field>)
    requires |Modified(rows, sel, set_, unset)| == 0
    ensures UpdateWhere(rows, sel, set_, unset) == rows
  {
    assert Modified(rows, sel, set_, unset) == {};
    forall id | id in rows
      ensures UpdateWhere(rows, sel, set_, unset)[id] == rows[id]
    {
      assert id !in Modified(rows, sel, set_, unset);
    }
  }

  /** Noting all picked rows follows the recount, whether or not each was modified. */
  lemma RememberedUpdateTracks(
      rows: Rows, sel: Selector, set_: Doc, unset: set<Field>, noted: Doc, ids: seq<Id>, docs: seq<Doc>)
    requires Covers(set_, unset, noted)
    requires NoDup(ids) && |ids| == |docs|
    requires forall id :: id in ids <==> id in Picked(rows, sel)
    requires forall i | 0 <= i < |ids| :: ids[i] in rows && docs[i] == Project(rows[ids[i]])
    ensures forall k :: (Noted(Remembered(docs, Some(noted)), k) ==
      Tally(UpdateWhere(rows, sel, set_, unset), k) - Tally(rows, k))
  {
    var after, cs := UpdateWhere(rows, sel, set_, unset), Remembered(docs, Some(noted));
    forall i | 0 <= i < |ids| ensures SpeaksFor(cs[i], At(rows, ids[i]), At(after, ids[i])) {
      assert ids[i] in Picked(rows, sel);
      ProjectionKeepsHits(rows[ids[i]]);
    }
    forall k { NotedFollowsRecount(rows, after, ids, cs, k); }
  }

  lemma RememberedDeleteTracks(rows: Rows, sel: Selector, ids: seq<Id>, docs: seq<Doc>)
    requires NoDup(ids) && |ids| == |docs|
    requires forall id :: id in ids <==> id in Picked(rows, sel)
    requires forall i | 0 <= i < |ids| :: ids[i] in rows && docs[i] == Project(rows[ids[i]])
    ensures forall k :: (Noted(Remembered(docs, None), k) ==
      Tally(DeleteWhere(rows, sel), k) - Tally(rows, k))
  {
    var after, cs := DeleteWhere(rows, sel), Remembered(docs, None);
    forall i | 0 <= i < |ids| ensures SpeaksFor(cs[i], At(rows, ids[i]), At(after, ids[i])) {
      assert ids[i] in Picked(rows, sel);
      ProjectionKeepsHits(rows[ids[i]]);
    }
    forall k { NotedFollowsRecount(rows, after, ids, cs, k); }
  }

  /** Changes that repeat every counted field of the write cover it. */
  lemma SameCountedCovers(set_: Doc, unset: set<Field>, noted: Doc)
    requires SameCounted(set_, noted)
    requires forall f | f in unset :: !IsCounted(f)
    ensures Covers(set_, unset, noted)
  {
    forall d: Doc
      ensures forall k :: Hit(k, Project(d) + noted) <==> Hit(k, Modify(d, set_, unset))
    {
      var x, y := Project(d) + noted, Modify(d, set_, unset);
      forall f | IsCounted(f) && Get(set_, f) == Get(noted, f) ensures Get(x, f) == Get(y, f) {
      }
      SameCountedSameHits(x, y);
    }
  }

  const APPROVE_NOTE: Doc := map[Verified := YES]
  const REJECT_NOTE: Doc := map[Verified := NO, Rejected := YES, Discarded := NO]
  const INBOX_NOTE: Doc := map[Rejected := NO, Discarded := NO]
  const DELETION_NOTE: Doc := map[DeletionRequested := NO]
  const TRASH_NOTE: Doc := map[Trashed := NO, RestoreRequested := NO]
  const ASK_RESTORE_NOTE: Doc := map[RestoreRequested := YES]
  const CANCEL_RESTORE_NOTE: Doc := map[RestoreRequested := NO]

  lemma ApprovalCovers(actor: Value, now: int)
    ensures Covers(ApproveSet(actor, now), {DuplicateOfId}, APPROVE_NOTE)
  {
    SameCountedCovers(ApproveSet(actor, now), {DuplicateOfId}, APPROVE_NOTE);
  }

  lemma RejectionCovers(reason: string)
    ensures Covers(RejectSet(reason), {}, REJECT_NOTE)
  {
    SameCountedCovers(RejectSet(reason), {}, REJECT_NOTE);
  }

  lemma InboxMovesCover()
    ensures Covers(STAGE_SET, {}, STAGE_SET)
    ensures Covers(INBOX_SET, {}, INBOX_NOTE)
    ensures Covers(CLEAR_DELETION, {}, DELETION_NOTE)
  {
    SameCountedCovers(STAGE_SET, {}, STAGE_SET);
    SameCountedCovers(INBOX_SET, {}, INBOX_NOTE);
    SameCountedCovers(CLEAR_DELETION, {}, DELETION_NOTE);
  }

  lemma TrashMovesCover(actor: Value, now: int)
    ensures Covers(CLEAR_TRASH, {}, TRASH_NOTE)
    ensures Covers(CLEAR_TRASH, {}, CLEAR_TRASH)
    ensures Covers(AskRestoreSet(actor, now), {}, ASK_RESTORE_NOTE)
    ensures Covers(CLEAR_RESTORE, {}, CANCEL_RESTORE_NOTE)
    ensures Covers(CLEAR_RESTORE, {}, CLEAR_RESTORE)
  {
    SameCountedCovers(CLEAR_TRASH, {}, TRASH_NOTE);
    SameCountedCovers(CLEAR_TRASH, {}, CLEAR_TRASH);
    SameCountedCovers(AskRestoreSet(actor, now), {}, ASK_RESTORE_NOTE);
    SameCountedCovers(CLEAR_RESTORE, {}, CANCEL_RESTORE_NOTE);
    SameCountedCovers(CLEAR_RESTORE, {}, CLEAR_RESTORE);
  }
}
