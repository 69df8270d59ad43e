/** Rows on their way through several handlers: the lists a row is counted in at each
    stop of a run, and where it ends. */
module Journeys {
  import opened Mongo
  import opened Badges
  import opened Lifecycle
  import opened Composite
  import opened Moves
  import opened Unadjusted

  lemma ApplyOne(rows: Rows, a: Call)
    ensures ApplyAll(rows, [a]) == Apply(rows, a)
  {
    assert [a][1..] == [];
  }

  lemma ApplyTwo(rows: Rows, a: Call, b: Call)
    ensures ApplyAll(rows, [a, b]) == Apply(Apply(rows, a), b)
  {
    assert [a, b][1..] == [b];
    ApplyOne(Apply(rows, a), b);
  }

  lemma ApplyFour(rows: Rows, a: Call, b: Call, c: Call, e: Call)
    ensures ApplyAll(rows, [a, b, c, e]) == ApplyAll(ApplyAll(rows, [a, b]), [c, e])
  {
    assert [a, b, c, e][1..] == [b, c, e] && [b, c, e][1..] == [c, e];
    ApplyTwo(rows, a, b);
  }

  // ---------------------------------------------------------------- one call each

  lemma ApplySubmit(rows: Rows, start: int, end: int)
    ensures Apply(rows, SubmitDay(start, end)) == UpdateWhere(rows, SubmitSelector(start, end), STAGE_SET, {})
  {
  }

  lemma ApplyApprove(rows: Rows, ids: set<Id>, actor: Value, now: int)
    ensures Apply(rows, Approve(ids, actor, now)) ==
      if Refused(rows, ids) then rows
      else UpdateWhere(rows, UnverifiedIn(ids), ApproveSet(actor, now), {DuplicateOfId})
  {
  }

  lemma ApplyReject(rows: Rows, id: Id, reason: string)
    ensures Apply(rows, Reject({id}, reason)) == RejectOne(rows, id, reason)
  {
  }

  lemma ResubmitAllOne(rows: Rows, scope: Value, now: int, e: Edit)
    ensures ResubmitAll(rows, scope, now, [e]) == ResubmitOne(rows, scope, now, e)
  {
    assert [e][..|[e]| - 1] == [] && ResubmitAll(rows, scope, now, []) == rows;
  }

  lemma ApplyResubmit(rows: Rows, scope: Value, now: int, edits: seq<Edit>)
    ensures Apply(rows, Resubmit(scope, now, edits)) == ResubmitAll(rows, scope, now, edits)
  {
  }

  lemma ApplyDeletion(rows: Rows, id: Id, actor: Value, now: int)
    ensures Apply(rows, RequestDelete(id, actor, now)) == RequestDeleteRows(rows, id, actor, now)
    ensures Apply(rows, ConfirmDeletion(id, actor, now)) == ConfirmDeletionRows(rows, id, actor, now)
  {
  }

  lemma ApplyRestoreRequest(rows: Rows, id: Id, actor: Value, now: int)
    ensures Apply(rows, RequestRestore(id, actor, now)) == RequestRestoreRows(rows, id, actor, now)
  {
  }

  lemma ApplyRestore(rows: Rows, id: Id)
    ensures Apply(rows, ConfirmRestore({id})) == UpdateWhere(rows, RestoreAsked({id}), CLEAR_TRASH, {})
  {
  }

  // ---------------------------------------------------------------- journeys

  /** A complete draft of the day: submitting the day moves it from the drafts to the inbox,
      approving it takes it out of every list. */
  lemma DraftIsApproved(rows: Rows, start: int, end: int, id: Id, actor: Value, now: int)
    requires id in rows && InDrafts(rows[id]) && IsFalse(rows[id], Verified)
    requires OnRegisterDay(rows[id], start, end) && !Incomplete(rows[id])
    requires !IsTrue(rows[id], RestoreRequested)
    ensures
      var submitted := Apply(rows, SubmitDay(start, end));
      && id in submitted && InVerify(submitted[id]) && !InDrafts(submitted[id])
    ensures
      var approved := ApplyAll(rows, [SubmitDay(start, end), Approve({id}, actor, now)]);
      id in approved && IsTrue(approved[id], Verified) && !Counted(approved[id])
  {
    ApplyTwo(rows, SubmitDay(start, end), Approve({id}, actor, now));
    ApplySubmit(rows, start, end);
    SubmitMoves(rows, start, end, id);
    SubmitKeepsTheRest(rows, start, end, id);
    var submitted := UpdateWhere(rows, SubmitSelector(start, end), STAGE_SET, {});
    ApplyApprove(submitted, {id}, actor, now);
    ApproveMoves(submitted, {id}, actor, now, id);
    InVerifyIsUnqueued(submitted[id]);
  }

  lemma SubmitKeepsTheRest(rows: Rows, start: int, end: int, id: Id)
    requires id in rows
    ensures var e := UpdateWhere(rows, SubmitSelector(start, end), STAGE_SET, {})[id];
      (Incomplete(e) <==> Incomplete(rows[id])) && Get(e, RestoreRequested) == Get(rows[id], RestoreRequested)
  {
    StagedKeepsTheRest(rows[id]);
  }

  lemma StagedKeepsTheRest(d: Doc)
    ensures var e := Modify(d, STAGE_SET, {});
      (Incomplete(e) <==> Incomplete(d)) && Get(e, RestoreRequested) == Get(d, RestoreRequested)
  {
    var e := Modify(d, STAGE_SET, {});
    assert Get(e, Item) == Get(d, Item) && Get(e, CategoryName) == Get(d, CategoryName)
      && Get(e, Payee) == Get(d, Payee);
    SameTextsSameGate(d, e);
  }

  /** The approval gate reads three fields. */
  lemma SameTextsSameGate(d: Doc, e: Doc)
    requires Get(e, Item) == Get(d, Item) && Get(e, CategoryName) == Get(d, CategoryName)
      && Get(e, Payee) == Get(d, Payee)
    ensures Incomplete(e) <==> Incomplete(d)
  {
    assert Truthy(e, Item) <==> Truthy(d, Item);
  }

  lemma InVerifyIsUnqueued(d: Doc)
    ensures InVerify(d) ==> !InDeletionRequests(d) && !InRestoreRequests(d)
  {
  }

  /** A rejected inbox row that its cashier corrects and resubmits is back in the inbox. */
  lemma RejectedComesBack(rows: Rows, e: Edit, scope: Value, reason: string, now: int)
    requires e.id in rows && InVerify(rows[e.id]) && Owned(rows[e.id], scope) && !TouchesBadges(e.values)
    ensures !InVerify(Apply(rows, Reject({e.id}, reason))[e.id])
    ensures var back := ApplyAll(rows, [Reject({e.id}, reason), Resubmit(scope, now, [e])]);
      e.id in back && InVerify(back[e.id]) && back.Keys == rows.Keys
  {
    ApplyTwo(rows, Reject({e.id}, reason), Resubmit(scope, now, [e]));
    ApplyReject(rows, e.id, reason);
    RejectThenReturn(rows, e.id, reason);
    var rejected := RejectOne(rows, e.id, reason);
    ApplyResubmit(rejected, scope, now, [e]);
    ResubmitAllOne(rejected, scope, now, e);
    RejectedIsResubmitted(rejected, rows[e.id], e, scope, reason, now);
  }

  lemma RejectedIsResubmitted(rejected: Rows, d: Doc, e: Edit, scope: Value, reason: string, now: int)
    requires InVerify(d) && Owned(d, scope) && !TouchesBadges(e.values)
    requires e.id in rejected && rejected[e.id] == d + RejectSet(reason)
    ensures var back := ResubmitOne(rejected, scope, now, e);
      back.Keys == rejected.Keys && InVerify(back[e.id])
  {
    RejectedDocFields(d, scope, reason);
    RejectedOfMeans({e.id}, scope, e.id, rejected[e.id]);
    ResubmitOneRow(rejected, scope, now, e);
    ResubmitMoves(rejected, scope, now, e);
  }

  lemma RejectedDocFields(d: Doc, scope: Value, reason: string)
    requires InVerify(d) && Owned(d, scope)
    ensures var e := d + RejectSet(reason);
      && Owned(e, scope) && IsTrue(e, Rejected) && IsFalse(e, Discarded) && IsFalse(e, Verified)
      && Get(e, RegisterStatus) == Some(Status(AsSubmitted)) && !IsTrue(e, Trashed) && !IsTrue(e, DeletionRequested)
  {
    assert Get(d + RejectSet(reason), CashierId) == Get(d, CashierId);
  }

  /** Asking for and confirming a deletion puts a verified row in trash, clones gone. */
  lemma DeletedToTrash(rows: Rows, id: Id, cashier: Value, accountant: Value, now: int)
    requires id in rows && IsTrue(rows[id], Verified) && Owned(rows[id], cashier)
    requires !IsTrue(rows[id], Trashed) && !IsTrue(rows[id], DeletionRequested)
    requires !Truthy(rows[id], RestoreRequested) && !SelfOriginal(rows[id], id)
    ensures
      var trashed := ApplyAll(rows, [RequestDelete(id, cashier, now), ConfirmDeletion(id, accountant, now)]);
      && id in trashed && IsTrue(trashed[id], Verified) && InOwnTrash(trashed[id], cashier)
      && !Truthy(trashed[id], RestoreRequested) && IsFalse(trashed[id], DeletionRequested)
      && OnlyClonesGone(rows, trashed, id)
  {
    ApplyTwo(rows, RequestDelete(id, cashier, now), ConfirmDeletion(id, accountant, now));
    ApplyDeletion(rows, id, cashier, now);
    ApplyDeletion(RequestDeleteRows(rows, id, cashier, now), id, accountant, now);
    AskedThenTrashed(rows, id, cashier, accountant, now);
  }

  lemma AskedThenTrashed(rows: Rows, id: Id, cashier: Value, accountant: Value, now: int)
    requires id in rows && IsTrue(rows[id], Verified) && Owned(rows[id], cashier)
    requires !IsTrue(rows[id], Trashed) && !IsTrue(rows[id], DeletionRequested)
    requires !Truthy(rows[id], RestoreRequested) && !SelfOriginal(rows[id], id)
    ensures var trashed := ConfirmDeletionRows(RequestDeleteRows(rows, id, cashier, now), id, accountant, now);
      && id in trashed && IsTrue(trashed[id], Verified) && InOwnTrash(trashed[id], cashier)
      && !Truthy(trashed[id], RestoreRequested) && IsFalse(trashed[id], DeletionRequested)
      && OnlyClonesGone(rows, trashed, id)
  {
    AskThenTakeBack(rows, id, cashier, now);
    AskedFields(rows[id], cashier, now);
    var asked := rows[id] + AskDeletionSet(cashier, now);
    ConfirmedToTrash(rows[id := asked], id, cashier, accountant, now);
    GoneAfterStore(rows, id, asked, ConfirmDeletionRows(rows[id := asked], id, accountant, now));
  }

  lemma ConfirmedToTrash(rows: Rows, id: Id, cashier: Value, accountant: Value, now: int)
    requires id in rows && InDeletionRequests(rows[id]) && !SelfOriginal(rows[id], id)
    requires IsTrue(rows[id], Verified) && Owned(rows[id], cashier) && !Truthy(rows[id], RestoreRequested)
    ensures var trashed := ConfirmDeletionRows(rows, id, accountant, now);
      && id in trashed && IsTrue(trashed[id], Verified) && InOwnTrash(trashed[id], cashier)
      && !Truthy(trashed[id], RestoreRequested) && IsFalse(trashed[id], DeletionRequested)
      && OnlyClonesGone(rows, trashed, id)
  {
    ConfirmMoves(rows, id, accountant, now);
    TrashedFields(rows[id], cashier, accountant, now);
  }

  lemma GoneAfterStore(rows: Rows, id: Id, d: Doc, after: Rows)
    requires OnlyClonesGone(rows[id := d], after, id)
    ensures OnlyClonesGone(rows, after, id)
  {
    forall i | i != id ensures At(after, i) == if i in rows && IsCloneOf(rows[i], id) then None else At(rows, i) {
      assert At(rows[id := d], i) == At(rows, i);
    }
  }

  /** A granted restore request brings a verified row of own trash back, counted nowhere. */
  lemma RestoredFromTrash(rows: Rows, id: Id, cashier: Value, now: int)
    requires id in rows && InOwnTrash(rows[id], cashier) && IsTrue(rows[id], Verified)
    requires !Truthy(rows[id], RestoreRequested) && IsFalse(rows[id], DeletionRequested)
    ensures
      var after := ApplyAll(rows, [RequestRestore(id, cashier, now), ConfirmRestore({id})]);
      && after == rows[id := rows[id] + CLEAR_TRASH]
      && IsTrue(after[id], Verified) && !IsTrue(after[id], Trashed) && !Counted(after[id])
  {
    ApplyTwo(rows, RequestRestore(id, cashier, now), ConfirmRestore({id}));
    ApplyRestoreRequest(rows, id, cashier, now);
    RestoreRequestAnswered(rows, id, cashier, now, CLEAR_TRASH);
    ApplyRestore(RequestRestoreRows(rows, id, cashier, now), id);
    RestoredFields(rows[id]);
  }

  /** A verified row whose deletion is asked for and confirmed, and whose restore is asked
      for by its cashier and granted, ends live, verified and counted nowhere. */
  lemma DeletedAndRestored(rows: Rows, id: Id, cashier: Value, accountant: Value, now: int)
    requires id in rows && IsTrue(rows[id], Verified) && Owned(rows[id], cashier)
    requires !IsTrue(rows[id], Trashed) && !IsTrue(rows[id], DeletionRequested)
    requires !Truthy(rows[id], RestoreRequested) && !SelfOriginal(rows[id], id)
    ensures
      var after := ApplyAll(rows, [RequestDelete(id, cashier, now), ConfirmDeletion(id, accountant, now),
        RequestRestore(id, cashier, now), ConfirmRestore({id})]);
      && id in after && IsTrue(after[id], Verified) && !IsTrue(after[id], Trashed) && !Counted(after[id])
      && forall i | i in after && i != id :: i in rows && after[i] == rows[i] && !IsCloneOf(rows[i], id)
  {
    ApplyFour(rows, RequestDelete(id, cashier, now), ConfirmDeletion(id, accountant, now),
      RequestRestore(id, cashier, now), ConfirmRestore({id}));
    DeletedToTrash(rows, id, cashier, accountant, now);
    var trashed := ApplyAll(rows, [RequestDelete(id, cashier, now), ConfirmDeletion(id, accountant, now)]);
    RestoredFromTrash(trashed, id, cashier, now);
    OthersUntouched(rows, trashed, id, trashed[id] + CLEAR_TRASH);
  }

  lemma OthersUntouched(rows: Rows, trashed: Rows, id: Id, done: Doc)
    requires OnlyClonesGone(rows, trashed, id)
    ensures forall i | i in trashed[id := done] && i != id ::
      i in rows && trashed[i] == rows[i] && !IsCloneOf(rows[i], id)
  {
    forall i | i in trashed && i != id ensures i in rows && trashed[i] == rows[i] && !IsCloneOf(rows[i], id) {
      assert At(trashed, i) == Some(trashed[i]);
    }
  }

  lemma AskedFields(d: Doc, actor: Value, now: int)
    ensures var e := d + AskDeletionSet(actor, now);
      && Get(e, Verified) == Get(d, Verified) && Get(e, CashierId) == Get(d, CashierId)
      && Get(e, RestoreRequested) == Get(d, RestoreRequested)
      && Get(e, OriginalTransactionId) == Get(d, OriginalTransactionId)
  {
  }

  lemma TrashedFields(d: Doc, cashier: Value, actor: Value, now: int)
    requires IsTrue(d, Verified) && Owned(d, cashier) && !Truthy(d, RestoreRequested)
    ensures var e := d + TrashSet(actor, now);
      && IsTrue(e, Verified) && InOwnTrash(e, cashier) && !Truthy(e, RestoreRequested)
      && IsFalse(e, DeletionRequested)
  {
    var e := d + TrashSet(actor, now);
    assert Get(e, CashierId) == Get(d, CashierId) && Get(e, RestoreRequested) == Get(d, RestoreRequested);
  }

  lemma RestoredFields(d: Doc)
    requires IsTrue(d, Verified) && IsFalse(d, DeletionRequested)
    ensures var e := d + CLEAR_TRASH;
      IsTrue(e, Verified) && IsFalse(e, Trashed) && !Counted(e)
  {
    var e := d + CLEAR_TRASH;
    assert Get(e, Verified) == Get(d, Verified) && Get(e, DeletionRequested) == Get(d, DeletionRequested);
    VerifiedUnqueued(e, e);
    CountedMeansHit(e);
  }

  /** An accountant who confirms a deletion and then takes the row out of trash leaves it
      live, verified and counted nowhere. */
  lemma ConfirmedAndTakenBack(rows: Rows, id: Id, actor: Value, now: int)
    requires id in rows && IsTrue(rows[id], Verified) && InDeletionRequests(rows[id])
    requires !SelfOriginal(rows[id], id)
    ensures
      var after := ApplyAll(rows, [ConfirmDeletion(id, actor, now), RestoreFromTrash({id})]);
      && id in after && after[id] == rows[id] + TrashSet(actor, now) + CLEAR_TRASH
      && IsTrue(after[id], Verified) && !Counted(after[id])
  {
    ApplyTwo(rows, ConfirmDeletion(id, actor, now), RestoreFromTrash({id}));
    ApplyDeletion(rows, id, actor, now);
    ConfirmMoves(rows, id, actor, now);
    ApplyFromTrash(ConfirmDeletionRows(rows, id, actor, now), id);
    TakenFromTrash(ConfirmDeletionRows(rows, id, actor, now), id);
    BackFromTrash(rows[id], actor, now);
    VerifiedAfterTrash(rows[id], actor, now);
    CountedMeansHit(rows[id] + TrashSet(actor, now) + CLEAR_TRASH);
  }

  lemma ApplyFromTrash(rows: Rows, id: Id)
    ensures Apply(rows, RestoreFromTrash({id})) == UpdateWhere(rows, TrashedIn({id}), CLEAR_TRASH, {})
  {
  }

  lemma TakenFromTrash(rows: Rows, id: Id)
    requires id in rows && IsTrue(rows[id], Trashed)
    ensures UpdateWhere(rows, TrashedIn({id}), CLEAR_TRASH, {}) == rows[id := rows[id] + CLEAR_TRASH]
  {
    forall i | i in rows ensures Picks(TrashedIn({id}), i, rows[i]) <==> i == id {
      SimpleSelectorsMean({id}, i, rows[i]);
    }
    OnlyRow(rows, TrashedIn({id}), CLEAR_TRASH, id);
  }

  lemma VerifiedAfterTrash(d: Doc, actor: Value, now: int)
    requires IsTrue(d, Verified)
    ensures IsTrue(d + TrashSet(actor, now) + CLEAR_TRASH, Verified)
  {
  }

  /** A rejected inbox row that is no clone and complete can be re-approved at once: it ends
      verified, no longer rejected, counted nowhere. */
  lemma RejectedIsReApproved(rows: Rows, id: Id, reason: string, actor: Value, now: int)
    requires id in rows && InVerify(rows[id]) && !Truthy(rows[id], OriginalTransactionId)
    requires !Incomplete(rows[id])
    ensures
      var after := ApplyAll(rows, [Reject({id}, reason), ReApprove(id, actor, now)]);
      && after == rows[id := rows[id] + RejectSet(reason) + ReApproveSet(actor, now)]
      && IsTrue(after[id], Verified) && IsFalse(after[id], Rejected) && !CountedAsOpen(after[id])
  {
    ApplyTwo(rows, Reject({id}, reason), ReApprove(id, actor, now));
    ApplyReject(rows, id, reason);
    RejectedThenReApproved(rows, id, reason, actor, now);
    ApplyReApprove(RejectOne(rows, id, reason), id, actor, now);
  }

  lemma RejectedThenReApproved(rows: Rows, id: Id, reason: string, actor: Value, now: int)
    requires id in rows && InVerify(rows[id]) && !Truthy(rows[id], OriginalTransactionId)
    requires !Incomplete(rows[id])
    ensures var rejected, done := RejectOne(rows, id, reason), rows[id] + RejectSet(reason) + ReApproveSet(actor, now);
      && id in rejected && !Incomplete(rejected[id])
      && ReApproved(rejected, id, actor, now) == rows[id := done]
      && IsTrue(done, Verified) && IsFalse(done, Rejected) && !CountedAsOpen(done)
  {
    RejectThenReturn(rows, id, reason);
    RejectKeepsTheRest(rows[id], reason);
    ReApprovedAlone(rows, id, rows[id] + RejectSet(reason), actor, now);
  }

  lemma ReApprovedAlone(rows: Rows, id: Id, d: Doc, actor: Value, now: int)
    requires IsFalse(d, Verified) && !Truthy(d, OriginalTransactionId)
    ensures var done := d + ReApproveSet(actor, now);
      && ReApproved(rows[id := d], id, actor, now) == rows[id := done]
      && IsTrue(done, Verified) && IsFalse(done, Rejected) && !CountedAsOpen(done)
  {
    SimpleReApprovalMoves(rows[id := d], id, actor, now);
    StoredTwice(rows, id, d, d + ReApproveSet(actor, now));
  }

  lemma StoredTwice(rows: Rows, id: Id, d: Doc, e: Doc)
    ensures rows[id := d][id := e] == rows[id := e]
  {
  }

  lemma RejectKeepsTheRest(d: Doc, reason: string)
    ensures var e := d + RejectSet(reason);
      && IsFalse(e, Verified) && (Incomplete(e) <==> Incomplete(d))
      && (Truthy(e, OriginalTransactionId) <==> Truthy(d, OriginalTransactionId))
  {
    var e := d + RejectSet(reason);
    assert Get(e, Item) == Get(d, Item) && Get(e, CategoryName) == Get(d, CategoryName)
      && Get(e, Payee) == Get(d, Payee);
    SameTextsSameGate(d, e);
    assert Get(e, OriginalTransactionId) == Get(d, OriginalTransactionId);
  }

  lemma ApplyReApprove(rows: Rows, id: Id, actor: Value, now: int)
    requires id in rows && !Incomplete(rows[id])
    ensures Apply(rows, ReApprove(id, actor, now)) == ReApproved(rows, id, actor, now)
  {
  }
}
