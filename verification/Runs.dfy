/** Whole runs: any sequence of handler calls keeps the stored badges equal to the
    recount, and every workflow step keeps the laws that this rests on. */
module Runs {
  import opened Mongo
  import opened Badges
  import opened Lifecycle
  import opened Coverage
  import opened Composite
  import opened Creation
  import opened Patching
  import opened Indexes
  import opened Register

  // ---------------------------------------------------------------- laws of stored rows

  /** Discarded rows are closed, and no row is its own original. */
  predicate RowLaw(id: Id, d: Doc) {
    DiscardLaw(d) && !SelfOriginal(d, id)
  }

  predicate Lawful(rows: Rows) {
    forall id | id in rows :: RowLaw(id, rows[id])
  }

  /** A write that reopens no discarded row and moves no link. */
  predicate KeepsLaw(set_: Doc, unset: set<Field>) {
    && OriginalTransactionId !in set_
    && Discarded !in unset && Rejected !in unset && Verified !in unset
    && (IsFalse(set_, Discarded) || IsTrue(set_, Verified)
        || (Discarded !in set_ && Rejected !in set_ && Verified !in set_))
  }

  lemma ModifyKeepsLaw(id: Id, d: Doc, set_: Doc, unset: set<Field>)
    requires RowLaw(id, d) && KeepsLaw(set_, unset)
    ensures RowLaw(id, Modify(d, set_, unset))
  {
    var x := Modify(d, set_, unset);
    assert OriginalTransactionId in x ==> Get(x, OriginalTransactionId) == Get(d, OriginalTransactionId);
    assert Get(x, Discarded) == if Discarded in set_ then Get(set_, Discarded) else Get(d, Discarded);
    assert Get(x, Verified) == if Verified in set_ then Get(set_, Verified) else Get(d, Verified);
    assert Get(x, Rejected) == if Rejected in set_ then Get(set_, Rejected) else Get(d, Rejected);
  }

  lemma UpdateKeepsLaw(rows: Rows, sel: Selector, set_: Doc, unset: set<Field>)
    requires Lawful(rows) && KeepsLaw(set_, unset)
    ensures Lawful(UpdateWhere(rows, sel, set_, unset))
  {
    forall id | id in rows ensures RowLaw(id, UpdateWhere(rows, sel, set_, unset)[id]) {
      ModifyKeepsLaw(id, rows[id], set_, unset);
    }
  }

  lemma DeleteKeepsLaw(rows: Rows, sel: Selector)
    requires Lawful(rows)
    ensures Lawful(DeleteWhere(rows, sel))
  {
  }

  /** Only rejected rows can be discarded. */
  lemma DiscardKeepsLaw(rows: Rows, ids: set<Id>, scope: Value)
    requires Lawful(rows)
    ensures Lawful(UpdateWhere(rows, RejectedOf(ids, scope), map[Discarded := YES], {}))
  {
    var sel := RejectedOf(ids, scope);
    forall id | id in rows ensures RowLaw(id, UpdateWhere(rows, sel, map[Discarded := YES], {})[id]) {
      if Picks(sel, id, rows[id]) {
        assert Holds(sel.query.fields[Rejected], Get(rows[id], Rejected));
      }
    }
  }

  /** The open clone that an edit finds, or the clone it makes, is lawful. */
  lemma EditedCloneIsLawful(source: Doc, original: Id, updates: Doc, cashier: Value, now: int, target: Id)
    requires target != original
    ensures RowLaw(target, EditedClone(source, original, updates, cashier, now))
    ensures RowLaw(target, source + (updates + EditMeta(original, cashier, now)))
  {
    var meta := EditMeta(original, cashier, now);
    var clone, edited := EditedClone(source, original, updates, cashier, now), source + (updates + meta);
    assert Get(clone, Discarded) == Get(edited, Discarded) == Get(meta, Discarded) == Some(NO);
    assert Get(clone, OriginalTransactionId) == Get(edited, OriginalTransactionId)
      == Get(meta, OriginalTransactionId) == Some(Oid(original));
  }

  lemma PendingEditKeepsLaw(
      rows: Rows, original: Id, updates: Doc, cashier: Value, now: int, target: Id)
    requires Lawful(rows) && EditTarget(rows, original, target)
    ensures Lawful(PendingEditRows(rows, original, updates, cashier, now, target))
  {
    if original in rows {
      if target in rows {
        var q := OpenCloneQuery(original).fields;
        assert Holds(q[OriginalTransactionId], Get(rows[target], OriginalTransactionId));
        EditedCloneIsLawful(rows[target], original, updates, cashier, now, target);
      } else {
        EditedCloneIsLawful(rows[original], original, updates, cashier, now, target);
      }
    }
  }

  lemma ReApprovedRowIsVerified(rows: Rows, id: Id, actor: Value, now: int, i: Id)
    requires i in ReApproved(rows, id, actor, now) && i in rows
    ensures ReApproved(rows, id, actor, now)[i] == rows[i]
      || IsTrue(ReApproved(rows, id, actor, now)[i], Verified)
  {
    if id in rows {
      CascadeLeavesTheRest(rows[i], rows[id], actor, now, Verified);
    }
  }

  lemma ReApprovalKeepsLaw(rows: Rows, id: Id, actor: Value, now: int)
    requires Lawful(rows)
    ensures Lawful(ReApproved(rows, id, actor, now))
  {
    var after := ReApproved(rows, id, actor, now);
    forall i | i in after ensures RowLaw(i, after[i]) {
      ReApprovalKeepsLinks(rows, id, actor, now, i);
      ReApprovedRowIsVerified(rows, id, actor, now, i);
      assert RowLaw(i, rows[i]);
    }
  }

  lemma {:induction false} ReApprovedAllKeepsLaw(rows: Rows, ids: seq<Id>, actor: Value, now: int)
    requires Lawful(rows)
    ensures Lawful(ReApprovedAll(rows, ids, actor, now))
    decreases |ids|
  {
    if ids != [] {
      ReApprovedAllKeepsLaw(rows, ids[..|ids| - 1], actor, now);
      ReApprovalKeepsLaw(ReApprovedAll(rows, ids[..|ids| - 1], actor, now), ids[|ids| - 1], actor, now);
    }
  }

  lemma BulkReApprovalKeepsLaw(rows: Rows, ids: set<Id>, listing: seq<Id>, actor: Value, now: int)
    requires Lawful(rows)
    ensures Lawful(BulkReApproved(rows, ids, listing, actor, now))
  {
    var order := CascadesIn(rows, listing);
    ReApprovedAllKeepsLaw(rows, order, actor, now);
    UpdateKeepsLaw(ReApprovedAll(rows, order, actor, now), UnverifiedIn(SimpleIn(rows, listing)),
      ReApproveSet(actor, now), {});
  }

  lemma {:induction false} ResubmitKeepsLaw(rows: Rows, scope: Value, now: int, edits: seq<Edit>)
    requires Lawful(rows)
    requires forall i | 0 <= i < |edits| :: OriginalTransactionId !in edits[i].values
    ensures Lawful(ResubmitAll(rows, scope, now, edits))
    decreases |edits|
  {
    if edits != [] {
      var n := |edits| - 1;
      ResubmitKeepsLaw(rows, scope, now, edits[..n]);
      var e := edits[n];
      assert IsFalse(e.values + ResubmitMeta(scope, now), Discarded);
      UpdateKeepsLaw(ResubmitAll(rows, scope, now, edits[..n]), RejectedOf({e.id}, scope),
        e.values + ResubmitMeta(scope, now), {});
    }
  }

  /** Calls that store fields of the caller's choosing. */
  predicate FreeForm(call: Call) {
    call.Create? || call.BulkCreate? || call.Patch? || call.BulkPatch?
    || (call.Resubmit? && exists i | 0 <= i < |call.edits| :: OriginalTransactionId in call.edits[i].values)
  }

  predicate Deletes(call: Call) {
    call.Delete? || call.DiscardDrafts? || call.DiscardDay? || call.PurgeTrash? || call.PurgeOwnTrash?
  }

  predicate ClearsTrash(call: Call) {
    call.RestoreFromTrash? || call.RestoreOwnTrash? || call.ConfirmRestore?
  }

  predicate RestoreRequestStep(call: Call) {
    call.RequestRestore? || call.CancelRestore? || call.RejectRestore?
  }

  predicate TrashStep(call: Call) { ClearsTrash(call) || RestoreRequestStep(call) }

  /** Verdicts that write one set of fields to the rows of a selector. */
  predicate PlainVerdict(call: Call) { call.SubmitDay? || call.Approve? || call.Reject? }

  predicate ReopensOrDiscards(call: Call) { call.ReturnToInbox? || call.Discard? }

  predicate DeletionStep(call: Call) {
    call.RequestDelete? || call.ConfirmDeletion? || call.RestoreDeletion?
  }

  lemma DeletesKeepLaw(rows: Rows, call: Call)
    requires Lawful(rows) && Deletes(call)
    ensures Lawful(Apply(rows, call))
  {
  }

  lemma ClearingTrashKeepsLaw(rows: Rows, sel: Selector)
    requires Lawful(rows)
    ensures Lawful(UpdateWhere(rows, sel, CLEAR_TRASH, {}))
  {
    UpdateKeepsLaw(rows, sel, CLEAR_TRASH, {});
  }

  lemma ClearingRequestsKeepsLaw(rows: Rows, sel: Selector)
    requires Lawful(rows)
    ensures Lawful(UpdateWhere(rows, sel, CLEAR_RESTORE, {}))
    ensures Lawful(UpdateWhere(rows, sel, CLEAR_DELETION, {}))
  {
    UpdateKeepsLaw(rows, sel, CLEAR_RESTORE, {});
    UpdateKeepsLaw(rows, sel, CLEAR_DELETION, {});
  }

  lemma RequestRestoreKeepsLaw(rows: Rows, id: Id, actor: Value, now: int)
    requires Lawful(rows)
    ensures Lawful(RequestRestoreRows(rows, id, actor, now))
  {
    UpdateKeepsLaw(rows, RequestRestoreSelector(id, actor), AskRestoreSet(actor, now), {});
  }

  lemma ClearsTrashKeepsLaw(rows: Rows, call: Call)
    requires Lawful(rows) && ClearsTrash(call)
    ensures Lawful(Apply(rows, call))
  {
    match call {
      case RestoreFromTrash(ids) => ClearingTrashKeepsLaw(rows, TrashedIn(ids));
      case RestoreOwnTrash(ids, actor) => ClearingTrashKeepsLaw(rows, OwnUnverified(ids, actor));
      case ConfirmRestore(ids) => ClearingTrashKeepsLaw(rows, RestoreAsked(ids));
    }
  }

  lemma RestoreRequestsKeepLaw(rows: Rows, call: Call)
    requires Lawful(rows) && RestoreRequestStep(call)
    ensures Lawful(Apply(rows, call))
  {
    match call {
      case RequestRestore(id, actor, now) => RequestRestoreKeepsLaw(rows, id, actor, now);
      case CancelRestore(id, actor) => ClearingRequestsKeepsLaw(rows, OwnRestoreAsked(id, actor));
      case RejectRestore(ids) => ClearingRequestsKeepsLaw(rows, RestoreAsked(ids));
    }
  }

  lemma DeletionStepsKeepLaw(rows: Rows, call: Call)
    requires Lawful(rows) && DeletionStep(call)
    ensures Lawful(Apply(rows, call))
  {
    match call {
      case RestoreDeletion(id) => ClearingRequestsKeepsLaw(rows, DeletionAsked(id));
      case RequestDelete(id, actor, now) => RequestDeleteKeepsLaw(rows, id, actor, now);
      case ConfirmDeletion(id, actor, now) =>
        ConfirmDeletionKeepsLaw(rows, id, actor, now);
    }
  }

  lemma ConfirmDeletionKeepsLaw(rows: Rows, id: Id, actor: Value, now: int)
    requires Lawful(rows)
    ensures Lawful(ConfirmDeletionRows(rows, id, actor, now))
  {
    DeleteKeepsLaw(rows, ClonesOf(id));
    UpdateKeepsLaw(DeleteWhere(rows, ClonesOf(id)), DeletionAsked(id), TrashSet(actor, now), {});
  }

  lemma RequestDeleteKeepsLaw(rows: Rows, id: Id, actor: Value, now: int)
    requires Lawful(rows)
    ensures Lawful(RequestDeleteRows(rows, id, actor, now))
  {
    if id in rows {
      StoringKeepsLaw(id, rows[id], SoftTrashSet(actor, now));
      StoringKeepsLaw(id, rows[id], AskDeletionSet(actor, now));
    }
  }

  lemma StoringKeepsLaw(id: Id, d: Doc, set_: Doc)
    requires RowLaw(id, d) && KeepsLaw(set_, {})
    ensures RowLaw(id, d + set_)
  {
    ModifyKeepsLaw(id, d, set_, {});
    assert Modify(d, set_, {}) == d + set_;
  }

  /** Every workflow step keeps "discarded implies rejected or verified" and makes no
      row its own original; only arbitrary-field writes can break either. */
  lemma WorkflowKeepsLaw(rows: Rows, call: Call)
    requires Lawful(rows) && !FreeForm(call)
    requires call.PendingEdit? ==> EditTarget(rows, call.id, call.target)
    ensures Lawful(Apply(rows, call))
  {
    if Deletes(call) {
      DeletesKeepLaw(rows, call);
    } else if TrashStep(call) {
      if ClearsTrash(call) { ClearsTrashKeepsLaw(rows, call); } else { RestoreRequestsKeepLaw(rows, call); }
    } else if DeletionStep(call) {
      DeletionStepsKeepLaw(rows, call);
    } else {
      VerdictsKeepLaw(rows, call);
    }
  }

  lemma VerdictSetsKeepLaw(actor: Value, now: int, reason: string)
    ensures KeepsLaw(STAGE_SET, {}) && KeepsLaw(ApproveSet(actor, now), {DuplicateOfId})
    ensures KeepsLaw(RejectSet(reason), {}) && KeepsLaw(INBOX_SET, {}) && KeepsLaw(map[Discarded := NO], {})
  {
  }

  lemma PlainVerdictsKeepLaw(rows: Rows, call: Call)
    requires Lawful(rows) && PlainVerdict(call)
    ensures Lawful(Apply(rows, call))
  {
    match call {
      case SubmitDay(start, end) =>
        VerdictSetsKeepLaw(Null, 0, "");
        UpdateKeepsLaw(rows, SubmitSelector(start, end), STAGE_SET, {});
      case Approve(ids, actor, now) =>
        VerdictSetsKeepLaw(actor, now, "");
        UpdateKeepsLaw(rows, UnverifiedIn(ids), ApproveSet(actor, now), {DuplicateOfId});
      case Reject(ids, reason) =>
        VerdictSetsKeepLaw(Null, 0, reason);
        UpdateKeepsLaw(rows, WithIds(ids, map[]), RejectSet(reason), {});
    }
  }

  lemma ReopensOrDiscardsKeepLaw(rows: Rows, call: Call)
    requires Lawful(rows) && ReopensOrDiscards(call)
    ensures Lawful(Apply(rows, call))
  {
    match call {
      case ReturnToInbox(id) => UpdateKeepsLaw(rows, RejectedRow(id), INBOX_SET, {});
      case Discard(ids, actor) => DiscardKeepsLaw(rows, ids, actor);
    }
  }

  lemma VerdictsKeepLaw(rows: Rows, call: Call)
    requires Lawful(rows) && !FreeForm(call) && !Deletes(call) && !TrashStep(call) && !DeletionStep(call)
    requires call.PendingEdit? ==> EditTarget(rows, call.id, call.target)
    ensures Lawful(Apply(rows, call))
  {
    if PlainVerdict(call) {
      PlainVerdictsKeepLaw(rows, call);
    } else if ReopensOrDiscards(call) {
      ReopensOrDiscardsKeepLaw(rows, call);
    } else {
      match call {
        case PendingEdit(id, values, actor, now, target) =>
          PendingEditKeepsLaw(rows, id, values, actor, now, target);
        case Resubmit(actor, now, edits) => ResubmitKeepsLaw(rows, actor, now, edits);
        case ReApprove(id, actor, now) => ReApprovalKeepsLaw(rows, id, actor, now);
        case BulkReApprove(ids, listing, actor, now) =>
          BulkReApprovalKeepsLaw(rows, ids, listing, actor, now);
        case RestoreDiscarded(ids, actor) =>
          UpdateKeepsLaw(rows, DiscardedOf(ids, actor), map[Discarded := NO], {});
      }
    }
  }

  // ---------------------------------------------------------------- runs

  /** What the environment owes each call: fresh ids and documents without import keys. */
  ghost predicate Allowed(rows: Rows, call: Call) {
    match call
    case Create(id, doc) => id !in rows && RegisterDoc(doc)
    case BulkCreate(items) => FreshItems(rows, items)
    case PendingEdit(id, values, actor, now, target) => EditTarget(rows, id, target)
    case BulkPatch(edits) => NotedOncePerRow(edits) || (DistinctIds(edits) && NoSilentArrivals(rows, edits))
    case BulkReApprove(ids, listing, actor, now) => Lists(rows, UnverifiedIn(ids), listing)
    case _ => true
  }

  /** Along the run, arbitrary-field writes leave rows that obey the laws, and writes of
      indexed fields are ones that MongoDB accepts. */
  ghost predicate AllowedRun(rows: Rows, calls: seq<Call>)
    decreases |calls|
  {
    calls == [] ||
    (Allowed(rows, calls[0]) && (FreeForm(calls[0]) ==> Lawful(Apply(rows, calls[0])))
     && (WritesKeys(calls[0]) ==> IndexesHold(Apply(rows, calls[0])))
     && AllowedRun(Apply(rows, calls[0]), calls[1..]))
  }

  method ExecuteTrashStep(reg: Register, call: Call)
    requires ClearsTrash(call)
    modifies reg
    ensures reg.rows == Apply(old(reg.rows), call)
    ensures Tracks(old(reg.counters), old(reg.rows), reg.counters, reg.rows)
  {
    match call {
      case RestoreFromTrash(ids) => var _ := reg.RestoreFromTrash(ids);
      case RestoreOwnTrash(ids, actor) => var _ := reg.RestoreOwnTrash(ids, actor);
      case ConfirmRestore(ids) => var _ := reg.ConfirmRestore(ids);
    }
  }

  method ExecuteRestoreRequest(reg: Register, call: Call)
    requires RestoreRequestStep(call)
    modifies reg
    ensures reg.rows == Apply(old(reg.rows), call)
    ensures Tracks(old(reg.counters), old(reg.rows), reg.counters, reg.rows)
  {
    match call {
      case RequestRestore(id, actor, now) => reg.RequestRestore(id, actor, now);
      case CancelRestore(id, actor) => var _ := reg.CancelRestore(id, actor);
      case RejectRestore(ids) => var _ := reg.RejectRestore(ids);
    }
  }

  method ExecuteDeletionStep(reg: Register, call: Call)
    requires DeletionStep(call)
    modifies reg
    ensures reg.rows == Apply(old(reg.rows), call)
    ensures Tracks(old(reg.counters), old(reg.rows), reg.counters, reg.rows)
  {
    match call {
      case RestoreDeletion(id) => var _ := reg.RestoreDeletion(id);
      case RequestDelete(id, actor, now) => reg.RequestDelete(id, actor, now);
      case ConfirmDeletion(id, actor, now) => var _ := reg.ConfirmDeletion(id, actor, now);
    }
  }

  method ExecuteDelete(reg: Register, call: Call)
    requires Deletes(call)
    modifies reg
    ensures reg.rows == Apply(old(reg.rows), call)
    ensures Tracks(old(reg.counters), old(reg.rows), reg.counters, reg.rows)
  {
    match call {
      case Delete(id) => var _ := reg.Delete(id);
      case DiscardDrafts(ids, scope) => var _ := reg.DiscardDrafts(ids, scope);
      case DiscardDay(start, end, scope) => var _ := reg.DiscardDay(start, end, scope);
      case PurgeTrash(ids) => var _ := reg.PurgeTrash(ids);
      case PurgeOwnTrash(ids, actor) => var _ := reg.PurgeOwnTrash(ids, actor);
    }
  }

  method ExecuteFreeForm(reg: Register, call: Call)
    requires FreeForm(call) && !call.Resubmit? && Allowed(reg.rows, call) && IndexesHold(reg.rows)
    modifies reg
    ensures reg.rows == Apply(old(reg.rows), call)
    ensures Tracks(old(reg.counters), old(reg.rows), reg.counters, reg.rows)
  {
    match call {
      case Create(id, doc) => var _ := reg.CreateOne(id, doc);
      case BulkCreate(items) => var _ := reg.BulkCreate(items);
      case Patch(id, values) => var _ := reg.Patch(id, values);
      case BulkPatch(edits) =>
        reg.BulkPatch(edits);
    }
  }

  method ExecutePlainVerdict(reg: Register, call: Call)
    requires PlainVerdict(call)
    modifies reg
    ensures reg.rows == Apply(old(reg.rows), call)
    ensures Tracks(old(reg.counters), old(reg.rows), reg.counters, reg.rows)
  {
    match call {
      case SubmitDay(start, end) => var _ := reg.SubmitDay(start, end);
      case Approve(ids, actor, now) => var _ := reg.Approve(ids, actor, now);
      case Reject(ids, reason) => var _ := reg.Reject(ids, reason);
    }
  }

  method ExecuteReopening(reg: Register, call: Call)
    requires ReopensOrDiscards(call)
    modifies reg
    ensures reg.rows == Apply(old(reg.rows), call)
    ensures Tracks(old(reg.counters), old(reg.rows), reg.counters, reg.rows)
  {
    match call {
      case ReturnToInbox(id) => var _ := reg.ReturnToInbox(id);
      case Discard(ids, actor) => var _ := reg.Discard(ids, actor);
    }
  }

  lemma LawfulDiscards(rows: Rows)
    requires Lawful(rows)
    ensures DiscardLawHolds(rows)
  {
  }

  method ExecuteRestoreDiscarded(reg: Register, call: Call)
    requires call.RestoreDiscarded? && Lawful(reg.rows)
    modifies reg
    ensures reg.rows == Apply(old(reg.rows), call)
    ensures Tracks(old(reg.counters), old(reg.rows), reg.counters, reg.rows)
  {
    LawfulDiscards(reg.rows);
    var _ := reg.RestoreDiscarded(call.ids, call.actor);
  }

  method ExecuteVerdict(reg: Register, call: Call)
    requires call.PendingEdit? || call.Resubmit? || call.ReApprove? || call.BulkReApprove?
    requires Lawful(reg.rows) && Allowed(reg.rows, call)
    modifies reg
    ensures reg.rows == Apply(old(reg.rows), call)
    ensures Tracks(old(reg.counters), old(reg.rows), reg.counters, reg.rows)
  {
    match call {
      case PendingEdit(id, values, actor, now, target) =>
        var _ := reg.PendingEdit(id, values, actor, now, target);
      case Resubmit(actor, now, edits) => var _ := reg.Resubmit(actor, now, edits, false);
      case ReApprove(id, actor, now) => var _ := reg.ReApprove(id, actor, now);
      case BulkReApprove(ids, listing, actor, now) => reg.BulkReApprove(ids, listing, actor, now);
    }
  }

  method Execute(reg: Register, call: Call)
    requires Lawful(reg.rows) && Allowed(reg.rows, call) && IndexesHold(reg.rows)
    modifies reg
    ensures reg.rows == Apply(old(reg.rows), call)
    ensures Tracks(old(reg.counters), old(reg.rows), reg.counters, reg.rows)
  {
    if ClearsTrash(call) {
      ExecuteTrashStep(reg, call);
    } else if RestoreRequestStep(call) {
      ExecuteRestoreRequest(reg, call);
    } else if PlainVerdict(call) {
      ExecutePlainVerdict(reg, call);
    } else if ReopensOrDiscards(call) {
      ExecuteReopening(reg, call);
    } else if call.RestoreDiscarded? {
      ExecuteRestoreDiscarded(reg, call);
    } else if DeletionStep(call) {
      ExecuteDeletionStep(reg, call);
    } else if Deletes(call) {
      ExecuteDelete(reg, call);
    } else if call.Create? || call.BulkCreate? || call.Patch? || call.BulkPatch? {
      ExecuteFreeForm(reg, call);
    } else {
      ExecuteVerdict(reg, call);
    }
  }

  /** The whole-run theorem: from any lawful register, after any number of calls, each
      stored counter has moved exactly as its recount; a repaired document stays exact, and
      the unique indexes hold throughout. */
  method Run(reg: Register, calls: seq<Call>)
    requires Lawful(reg.rows) && IndexesHold(reg.rows) && AllowedRun(reg.rows, calls)
    modifies reg
    ensures reg.rows == ApplyAll(old(reg.rows), calls) && Lawful(reg.rows) && IndexesHold(reg.rows)
    ensures Tracks(old(reg.counters), old(reg.rows), reg.counters, reg.rows)
    ensures Faithful(old(reg.counters), old(reg.rows)) ==>
      Faithful(reg.counters, reg.rows) && forall k :: Read(reg.counters, k) >= 0
  {
    ghost var r0, c0 := reg.rows, reg.counters;
    for i := 0 to |calls|
      invariant Lawful(reg.rows) && IndexesHold(reg.rows) && AllowedRun(reg.rows, calls[i..])
      invariant ApplyAll(reg.rows, calls[i..]) == ApplyAll(r0, calls)
      invariant Tracks(c0, r0, reg.counters, reg.rows)
    {
      ghost var r1, c1 := reg.rows, reg.counters;
      assert calls[i..][0] == calls[i] && calls[i..][1..] == calls[i + 1..];
      if !FreeForm(calls[i]) { WorkflowKeepsLaw(reg.rows, calls[i]); }
      if !WritesKeys(calls[i]) { StepKeepsIndexes(reg.rows, calls[i]); }
      Execute(reg, calls[i]);
      TracksTransitive(c0, r0, c1, r1, reg.counters, reg.rows);
    }
    assert calls[|calls|..] == [];
  }

  // ---------------------------------------------------------------- what the badges say

  datatype Notification = Notification(verify: int, inbox: int, newRows: int, edited: int,
    drafts: int, deletions: int, restores: int)

  /** `notification_payload` and `drafts_badge_total`. */
  function NotificationPayload(c: Counters): Notification {
    var inbox, edited := Read(c, Total(Verify)), Read(c, Total(Edited));
    var deletions, restores := Read(c, Total(DeletionRequests)), Read(c, Total(RestoreRequests));
    Notification(inbox + deletions + restores, inbox, if inbox - edited > 0 then inbox - edited else 0,
      edited, Read(c, Total(Drafts)) + Read(c, Total(Parked)), deletions, restores)
  }

  function CashierDrafts(c: Counters, cashier: Value): int {
    Read(c, PerCashier(cashier, DraftShelf)) + Read(c, PerCashier(cashier, ParkedShelf))
  }

  lemma DisjointTallies(rows: Rows, k: CounterKey, l: CounterKey)
    requires forall id | id in rows :: !(Hit(k, rows[id]) && Hit(l, rows[id]))
    ensures Tally(rows, k) + Tally(rows, l) == |Hits(rows, k) + Hits(rows, l)|
  {
    assert Hits(rows, k) !! Hits(rows, l);
  }

  function Where(rows: Rows, p: Doc -> bool): set<Id> {
    set id | id in rows && p(rows[id])
  }

  lemma WhereSplits(rows: Rows, p: Doc -> bool, q: Doc -> bool, either: Doc -> bool)
    requires forall d :: either(d) == (p(d) || q(d)) && !(p(d) && q(d))
    ensures |Where(rows, either)| == |Where(rows, p)| + |Where(rows, q)|
  {
    assert Where(rows, either) == Where(rows, p) + Where(rows, q);
    assert Where(rows, p) !! Where(rows, q);
  }

  predicate Unedited(d: Doc) { InVerify(d) && !InEdited(d) }

  predicate InboxOrDeletion(d: Doc) { InVerify(d) || InDeletionRequests(d) }

  predicate AwaitsAccountant(d: Doc) {
    InVerify(d) || InDeletionRequests(d) || InRestoreRequests(d)
  }

  lemma TallyIsWhere(rows: Rows, b: Badge)
    ensures Tally(rows, Total(b)) == |Where(rows, d => Member(b, d))|
  {
    assert Hits(rows, Total(b)) == Where(rows, d => Member(b, d));
  }

  /** With an exact document the Verify badge counts distinct rows. */
  lemma VerifyBadgeCountsRows(c: Counters, rows: Rows)
    requires Faithful(c, rows)
    ensures NotificationPayload(c).verify == |Where(rows, AwaitsAccountant)|
  {
    WhereSplits(rows, d => Member(Verify, d), d => Member(DeletionRequests, d), InboxOrDeletion);
    WhereSplits(rows, InboxOrDeletion, d => Member(RestoreRequests, d), AwaitsAccountant);
    TallyIsWhere(rows, Verify);
    TallyIsWhere(rows, DeletionRequests);
    TallyIsWhere(rows, RestoreRequests);
  }

  /** "new" is exactly the unedited inbox, so its `max(0, ...)` never clamps. */
  lemma NewBadgeCountsUnedited(c: Counters, rows: Rows)
    requires Faithful(c, rows)
    ensures NotificationPayload(c).newRows == |Where(rows, Unedited)| ==
      Read(c, Total(Verify)) - Read(c, Total(Edited))
  {
    WhereSplits(rows, Unedited, d => Member(Edited, d), d => Member(Verify, d));
    TallyIsWhere(rows, Verify);
    TallyIsWhere(rows, Edited);
  }

  lemma DraftBadgeCountsRows(c: Counters, rows: Rows)
    requires Faithful(c, rows)
    ensures NotificationPayload(c).drafts ==
      |set id | id in rows && (InDrafts(rows[id]) || InParked(rows[id]))|
  {
    DisjointTallies(rows, Total(Drafts), Total(Parked));
    assert (set id | id in rows && (InDrafts(rows[id]) || InParked(rows[id]))) ==
      Hits(rows, Total(Drafts)) + Hits(rows, Total(Parked));
  }

  lemma CashierBadgeCountsRows(c: Counters, rows: Rows, cashier: Value)
    requires Faithful(c, rows)
    ensures CashierDrafts(c, cashier) == |set id | id in rows && OpenRowOf(rows[id], cashier)|
  {
    var k, l := PerCashier(cashier, DraftShelf), PerCashier(cashier, ParkedShelf);
    DisjointTallies(rows, k, l);
    ShelvesOfCashier(rows, cashier);
    assert Read(c, k) == Tally(rows, k) && Read(c, l) == Tally(rows, l);
  }

  /** A draft or parked row that names the cashier; the null account has none. */
  predicate OpenRowOf(d: Doc, cashier: Value) {
    (InDrafts(d) || InParked(d)) && CashierId in d && d[CashierId] == cashier && cashier != Null
  }

  lemma ShelvesOfCashier(rows: Rows, cashier: Value)
    ensures (set id | id in rows && OpenRowOf(rows[id], cashier)) ==
      Hits(rows, PerCashier(cashier, DraftShelf)) + Hits(rows, PerCashier(cashier, ParkedShelf))
  {
    forall id | id in rows { ShelfMeans(cashier, rows[id]); }
  }
}
