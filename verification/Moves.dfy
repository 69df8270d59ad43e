/** What the selectors of the handlers mean for a row, where each verb takes a row,
    and which verbs undo each other. */
module Moves {
  import opened Mongo
  import opened Badges
  import opened Lifecycle
  import opened Composite

  // ---------------------------------------------------------------- selectors

  predicate NullOrMissing(d: Doc, f: Field) { f !in d || d[f] == Null }

  /** A row belongs to its import's primary day, or to its own date when it has none. */
  predicate OnRegisterDay(d: Doc, start: int, end: int) {
    InSpan(d, ImportPrimaryDate, start, end)
    || (InSpan(d, Date, start, end) && NullOrMissing(d, ImportPrimaryDate))
  }

  predicate Owned(d: Doc, scope: Value) { Holds(Is(scope), Get(d, CashierId)) }

  lemma EitherMeans(a: Query, b: Query, d: Doc)
    ensures Matches(AnyOf([a, b]), d) <==> Matches(a, d) || Matches(b, d)
    ensures Matches(AllOf([a, b]), d) <==> Matches(a, d) && Matches(b, d)
  {
    assert a in [a, b] && b in [a, b];
  }

  lemma OwnDateMeans(span: Cond, d: Doc)
    ensures Matches(AllOf([One(Date, span), One(ImportPrimaryDate, Is(Null))]), d) <==>
      Holds(span, Get(d, Date)) && NullOrMissing(d, ImportPrimaryDate)
  {
    OneMeans(Date, span, d);
    OneMeans(ImportPrimaryDate, Is(Null), d);
    EitherMeans(One(Date, span), One(ImportPrimaryDate, Is(Null)), d);
  }

  lemma RegisterDayMeans(start: int, end: int, d: Doc)
    ensures Matches(RegisterDay(start, end), d) <==> OnRegisterDay(d, start, end)
  {
    var span := Between(Some(start), Some(end));
    OneMeans(ImportPrimaryDate, span, d);
    OwnDateMeans(span, d);
    EitherMeans(One(ImportPrimaryDate, span), AllOf([One(Date, span), One(ImportPrimaryDate, Is(Null))]), d);
  }

  /** Rows that `submit_day_for_verify` submits. */
  predicate Submits(d: Doc, start: int, end: int) {
    && OnRegisterDay(d, start, end)
    && !IsTrue(d, Verified) && !IsTrue(d, Rejected) && !IsTrue(d, Discarded)
    && (Get(d, RegisterStatus) == Some(Status(AsDraft)) || RegisterStatus !in d)
  }

  lemma SubmitSelectorMeans(start: int, end: int, id: Id, d: Doc)
    ensures Picks(SubmitSelector(start, end), id, d) <==> Submits(d, start, end)
  {
    RegisterDayMeans(start, end, d);
    OpenRowMeans(d);
    UnsentMeans(d);
    var day, verified, rejected, discarded, unsent := RegisterDay(start, end), One(Verified, IsNot(YES)),
      One(Rejected, IsNot(YES)), One(Discarded, IsNot(YES)), Unsent();
    FiveMean(day, verified, rejected, discarded, unsent, d);
    assert SubmitSelector(start, end).query == AllOf([day, verified, rejected, discarded, unsent]);
  }

  lemma FiveMean(a: Query, b: Query, c: Query, e: Query, f: Query, d: Doc)
    ensures Matches(AllOf([a, b, c, e, f]), d) <==>
      Matches(a, d) && Matches(b, d) && Matches(c, d) && Matches(e, d) && Matches(f, d)
  {
    var list := [a, b, c, e, f];
    assert a in list && b in list && c in list && e in list && f in list;
  }

  lemma OpenRowMeans(d: Doc)
    ensures Matches(One(Verified, IsNot(YES)), d) <==> !IsTrue(d, Verified)
    ensures Matches(One(Rejected, IsNot(YES)), d) <==> !IsTrue(d, Rejected)
    ensures Matches(One(Discarded, IsNot(YES)), d) <==> !IsTrue(d, Discarded)
  {
    OneMeans(Verified, IsNot(YES), d);
    OneMeans(Rejected, IsNot(YES), d);
    OneMeans(Discarded, IsNot(YES), d);
  }

  /** Draft, or older than the status field. */
  function Unsent(): Query {
    AnyOf([One(RegisterStatus, Is(Status(AsDraft))), One(RegisterStatus, Exists(false))])
  }

  lemma UnsentMeans(d: Doc)
    ensures Matches(Unsent(), d) <==>
      Get(d, RegisterStatus) == Some(Status(AsDraft)) || RegisterStatus !in d
  {
    OneMeans(RegisterStatus, Is(Status(AsDraft)), d);
    OneMeans(RegisterStatus, Exists(false), d);
    EitherMeans(One(RegisterStatus, Is(Status(AsDraft))), One(RegisterStatus, Exists(false)), d);
  }

  /** Entries added to a dictionary are added conjuncts. */
  lemma FieldsConcat(a: map<Field, Cond>, f: Field, c: Cond, d: Doc)
    requires f !in a
    ensures Matches(Fields(a + map[f := c]), d) <==> Matches(Fields(a), d) && Holds(c, Get(d, f))
  {
    var q := a + map[f := c];
    assert q[f] == c && forall g | g in a :: q[g] == a[g];
  }

  predicate ScopeHolds(d: Doc, scope: Option<Value>) {
    scope.Some? ==> Owned(d, scope.value)
  }

  lemma ScopedDraftsMean(scope: Option<Value>, d: Doc)
    ensures Matches(Fields(DraftBaseMatch().fields + ScopeEntry(scope)), d) <==>
      InDrafts(d) && ScopeHolds(d, scope)
  {
    MembershipIsCountQuery(Drafts, d);
    assert DraftBaseMatch() == Fields(DraftBaseMatch().fields);
    if scope.Some? {
      FieldsConcat(DraftBaseMatch().fields, CashierId, Is(scope.value), d);
    } else {
      assert DraftBaseMatch().fields + map[] == DraftBaseMatch().fields;
    }
  }

  /** Both draft discards delete exactly counted drafts, in scope, by id or by day. */
  lemma DraftSelectorsMean(ids: set<Id>, start: int, end: int, scope: Option<Value>, id: Id, d: Doc)
    ensures Picks(DraftsIn(ids, scope), id, d) <==> id in ids && InDrafts(d) && ScopeHolds(d, scope)
    ensures Picks(DraftsOn(start, end, scope), id, d) <==>
      OnRegisterDay(d, start, end) && InDrafts(d) && ScopeHolds(d, scope)
  {
    ScopedDraftsMean(scope, d);
    RegisterDayMeans(start, end, d);
    var fields := DraftBaseMatch().fields + ScopeEntry(scope);
    var q := RegisterDay(start, end).(fields := fields);
    assert Matches(q, d) <==> Matches(Fields(fields), d) && Matches(RegisterDay(start, end), d);
  }

  /** The cashier's own trash: rows they own or put there. */
  predicate InOwnTrash(d: Doc, cashier: Value) {
    IsTrue(d, Trashed) && (Owned(d, cashier) || Holds(Is(cashier), Get(d, TrashedBy)))
  }

  lemma OwnTrashMeans(ids: set<Id>, f: Field, c: Cond, cashier: Value, id: Id, d: Doc)
    requires f != Trashed
    ensures Picks(OwnTrash(ids, map[Trashed := Is(YES), f := c], cashier), id, d) <==>
      id in ids && InOwnTrash(d, cashier) && Holds(c, Get(d, f))
  {
    var fields := map[Trashed := Is(YES), f := c];
    TwoFields(f, c, d);
    TrashScopeMeans(cashier, d);
    assert Matches(OwnTrash(ids, fields, cashier).query, d) <==>
      Matches(Fields(fields), d) && Matches(Query(map[], Absent, TrashScope(cashier), NoExpr), d);
  }

  lemma TwoFields(f: Field, c: Cond, d: Doc)
    requires f != Trashed
    ensures Matches(Fields(map[Trashed := Is(YES), f := c]), d) <==> IsTrue(d, Trashed) && Holds(c, Get(d, f))
  {
    FieldsConcat(map[Trashed := Is(YES)], f, c, d);
    OneMeans(Trashed, Is(YES), d);
    assert map[Trashed := Is(YES)] + map[f := c] == map[Trashed := Is(YES), f := c];
  }

  lemma TrashScopeMeans(cashier: Value, d: Doc)
    ensures Matches(Query(map[], Absent, TrashScope(cashier), NoExpr), d) <==>
      Owned(d, cashier) || Holds(Is(cashier), Get(d, TrashedBy))
  {
    OneMeans(CashierId, Is(cashier), d);
    OneMeans(TrashedBy, Is(cashier), d);
    EitherMeans(One(CashierId, Is(cashier)), One(TrashedBy, Is(cashier)), d);
  }

  lemma OwnUnverifiedMeans(ids: set<Id>, cashier: Value, id: Id, d: Doc)
    ensures Picks(OwnUnverified(ids, cashier), id, d) <==>
      id in ids && InOwnTrash(d, cashier) && !IsTrue(d, Verified)
  {
    OwnTrashMeans(ids, Verified, IsNot(YES), cashier, id, d);
  }

  lemma RequestRestoreMeans(target: Id, cashier: Value, id: Id, d: Doc)
    ensures Picks(RequestRestoreSelector(target, cashier), id, d) <==>
      id == target && InOwnTrash(d, cashier) && IsTrue(d, Verified)
  {
    OwnTrashMeans({target}, Verified, Is(YES), cashier, id, d);
  }

  lemma OwnRestoreAskedMeans(target: Id, cashier: Value, id: Id, d: Doc)
    ensures Picks(OwnRestoreAsked(target, cashier), id, d) <==>
      id == target && InOwnTrash(d, cashier) && InRestoreRequests(d)
  {
    OwnTrashMeans({target}, RestoreRequested, Is(YES), cashier, id, d);
  }

  lemma RestoreSelectorsMean(target: Id, cashier: Value, id: Id, d: Doc)
    ensures Picks(RequestRestoreSelector(target, cashier), id, d) <==>
      id == target && InOwnTrash(d, cashier) && IsTrue(d, Verified)
    ensures Picks(OwnRestoreAsked(target, cashier), id, d) <==>
      id == target && InOwnTrash(d, cashier) && InRestoreRequests(d)
  {
    RequestRestoreMeans(target, cashier, id, d);
    OwnRestoreAskedMeans(target, cashier, id, d);
  }

  lemma RejectedOfMeans(ids: set<Id>, scope: Value, id: Id, d: Doc)
    ensures Picks(RejectedOf(ids, scope), id, d) <==>
      id in ids && Owned(d, scope) && IsTrue(d, Rejected) && !IsTrue(d, Discarded)
  {
    var q := RejectedOf(ids, scope).query.fields;
    assert q.Keys == {CashierId, Rejected, Discarded};
    assert Matches(RejectedOf(ids, scope).query, d) <==>
      Holds(q[CashierId], Get(d, CashierId)) && Holds(q[Rejected], Get(d, Rejected))
      && Holds(q[Discarded], Get(d, Discarded));
  }

  lemma DiscardedOfMeans(ids: set<Id>, scope: Value, id: Id, d: Doc)
    ensures Picks(DiscardedOf(ids, scope), id, d) <==> id in ids && Owned(d, scope) && IsTrue(d, Discarded)
  {
    var q := DiscardedOf(ids, scope).query.fields;
    assert q.Keys == {CashierId, Discarded};
    assert Matches(DiscardedOf(ids, scope).query, d) <==>
      Holds(q[CashierId], Get(d, CashierId)) && Holds(q[Discarded], Get(d, Discarded));
  }

  lemma SimpleSelectorsMean(ids: set<Id>, id: Id, d: Doc)
    ensures Picks(UnverifiedIn(ids), id, d) <==> id in ids && IsFalse(d, Verified)
    ensures Picks(TrashedIn(ids), id, d) <==> id in ids && IsTrue(d, Trashed)
    ensures Picks(RestoreAsked(ids), id, d) <==> id in ids && InRestoreRequests(d)
  {
    OneMeans(Verified, Is(NO), d);
    OneMeans(Trashed, Is(YES), d);
    RequestMeaning(d);
  }

  lemma SingleSelectorsMean(target: Id, id: Id, d: Doc)
    ensures Picks(RejectedRow(target), id, d) <==> id == target && IsTrue(d, Rejected)
    ensures Picks(DeletionAsked(target), id, d) <==> id == target && InDeletionRequests(d)
    ensures Picks(ClonesOf(target), id, d) <==> Get(d, OriginalTransactionId) == Some(Oid(target))
  {
    OneMeans(Rejected, Is(YES), d);
    OneMeans(OriginalTransactionId, Is(Oid(target)), d);
    RequestMeaning(d);
  }

  // ---------------------------------------------------------------- where verbs take a row

  /** Submitting a day moves exactly its drafts, and rows that never had a status, on to
      the accountant; everything else stays as it is. */
  lemma SubmitMoves(rows: Rows, start: int, end: int, id: Id)
    requires id in rows
    ensures var d, e := rows[id], UpdateWhere(rows, SubmitSelector(start, end), STAGE_SET, {})[id];
      if Submits(d, start, end)
      then !InDrafts(e) && (InVerify(e) <==>
        IsFalse(d, Verified) && !IsTrue(d, Trashed) && !IsTrue(d, DeletionRequested))
      else e == d
  {
    SubmitSelectorMeans(start, end, id, rows[id]);
    if Submits(rows[id], start, end) { StagedDoc(rows[id]); }
  }

  lemma StagedDoc(d: Doc)
    requires !IsTrue(d, Rejected)
    ensures var e := Modify(d, STAGE_SET, {});
      !InDrafts(e) && (InVerify(e) <==>
        IsFalse(d, Verified) && !IsTrue(d, Trashed) && !IsTrue(d, DeletionRequested))
  {
  }

  /** Approval takes exactly unverified rows, out of every open list and into none. */
  lemma ApproveMoves(rows: Rows, ids: set<Id>, actor: Value, now: int, id: Id)
    requires id in rows
    ensures
      var d, e := rows[id], UpdateWhere(rows, UnverifiedIn(ids), ApproveSet(actor, now), {DuplicateOfId})[id];
      if id in ids && IsFalse(d, Verified)
      then IsTrue(e, Verified) && !CountedAsOpen(e) && DuplicateOfId !in e
        && (InDeletionRequests(e) <==> InDeletionRequests(d))
        && (InRestoreRequests(e) <==> InRestoreRequests(d))
      else e == d
  {
    SimpleSelectorsMean(ids, id, rows[id]);
    ApprovedDoc(rows[id], actor, now);
  }

  lemma ApprovedDoc(d: Doc, actor: Value, now: int)
    ensures var e := Modify(d, ApproveSet(actor, now), {DuplicateOfId});
      IsTrue(e, Verified) && !CountedAsOpen(e) && DuplicateOfId !in e
      && (InDeletionRequests(e) <==> InDeletionRequests(d))
      && (InRestoreRequests(e) <==> InRestoreRequests(d))
  {
    var e := Modify(d, ApproveSet(actor, now), {DuplicateOfId});
    assert Get(e, Trashed) == Get(d, Trashed) && Get(e, DeletionRequested) == Get(d, DeletionRequested)
      && Get(e, RestoreRequested) == Get(d, RestoreRequested);
  }

  lemma OnlyRow(rows: Rows, sel: Selector, set_: Doc, id: Id)
    requires id in rows
    requires forall i | i in rows :: Picks(sel, i, rows[i]) <==> i == id
    ensures UpdateWhere(rows, sel, set_, {}) == rows[id := rows[id] + set_]
  {
    assert rows[id] + set_ - {} == rows[id] + set_;
  }

  function RejectOne(rows: Rows, id: Id, reason: string): Rows {
    UpdateWhere(rows, WithIds({id}, map[]), RejectSet(reason), {})
  }

  /** Rejecting an inbox row closes it, and returning it to the inbox undoes that up to
      the cleared reason. */
  lemma RejectThenReturn(rows: Rows, id: Id, reason: string)
    requires id in rows && InVerify(rows[id])
    ensures RejectOne(rows, id, reason) == rows[id := rows[id] + RejectSet(reason)]
    ensures !CountedAsOpen(rows[id] + RejectSet(reason))
    ensures UpdateWhere(RejectOne(rows, id, reason), RejectedRow(id), INBOX_SET, {}) ==
      rows[id := rows[id] + (RejectSet(reason) + INBOX_SET)]
    ensures InVerify(rows[id] + (RejectSet(reason) + INBOX_SET))
  {
    OnlyRow(rows, WithIds({id}, map[]), RejectSet(reason), id);
    var mid := rows[id := rows[id] + RejectSet(reason)];
    RejectedDoc(rows[id], reason);
    forall i | i in mid ensures Picks(RejectedRow(id), i, mid[i]) <==> i == id {
      SingleSelectorsMean(id, i, mid[i]);
    }
    OnlyRow(mid, RejectedRow(id), INBOX_SET, id);
    PlusIsAssociative(rows[id], RejectSet(reason), INBOX_SET);
  }

  lemma RejectedDoc(d: Doc, reason: string)
    requires InVerify(d)
    ensures IsTrue(d + RejectSet(reason), Rejected) && !CountedAsOpen(d + RejectSet(reason))
    ensures InVerify(d + (RejectSet(reason) + INBOX_SET))
  {
  }

  /** Asking for the deletion of a verified row queues it, and taking the request back
      leaves the row counted as before. */
  lemma AskThenTakeBack(rows: Rows, id: Id, actor: Value, now: int)
    requires id in rows && IsTrue(rows[id], Verified)
    requires !IsTrue(rows[id], Trashed) && !IsTrue(rows[id], DeletionRequested)
    ensures RequestDeleteRows(rows, id, actor, now) == rows[id := rows[id] + AskDeletionSet(actor, now)]
    ensures InDeletionRequests(rows[id] + AskDeletionSet(actor, now))
    ensures UpdateWhere(RequestDeleteRows(rows, id, actor, now), DeletionAsked(id), CLEAR_DELETION, {}) ==
      rows[id := rows[id] + CLEAR_DELETION]
    ensures forall k :: Hit(k, rows[id] + CLEAR_DELETION) <==> Hit(k, rows[id])
  {
    AskedDoc(rows[id], actor, now);
    var asked := rows[id := rows[id] + AskDeletionSet(actor, now)];
    assert RequestDeleteRows(rows, id, actor, now) == asked;
    forall i | i in asked ensures Picks(DeletionAsked(id), i, asked[i]) <==> i == id {
      SingleSelectorsMean(id, i, asked[i]);
    }
    OnlyRow(asked, DeletionAsked(id), CLEAR_DELETION, id);
  }

  lemma AskedDoc(d: Doc, actor: Value, now: int)
    requires IsTrue(d, Verified) && !IsTrue(d, Trashed) && !IsTrue(d, DeletionRequested)
    ensures Truthy(d, Verified) && !IsPendingClone(d) && InDeletionRequests(d + AskDeletionSet(actor, now))
    ensures d + AskDeletionSet(actor, now) + CLEAR_DELETION == d + CLEAR_DELETION
    ensures forall k :: Hit(k, d + CLEAR_DELETION) <==> Hit(k, d)
  {
    VerifiedUnqueued(d, d + CLEAR_DELETION);
  }

  /** A verified live row is counted nowhere, whatever its other flags. */
  lemma VerifiedUnqueued(d: Doc, e: Doc)
    requires IsTrue(d, Verified) && !IsTrue(d, Trashed) && !IsTrue(d, DeletionRequested)
    requires IsTrue(e, Verified) && !IsTrue(e, Trashed) && !IsTrue(e, DeletionRequested)
    ensures forall k :: !Hit(k, d) && !Hit(k, e)
  {
    forall b: Badge ensures !Member(b, d) && !Member(b, e) {
    }
  }

  /** The document names row `id` as its original. */
  predicate IsCloneOf(d: Doc, id: Id) {
    Get(d, OriginalTransactionId) == Some(Oid(id))
  }

  /** The clones of `id` are gone and every other row but `id` is as it was. */
  ghost predicate OnlyClonesGone(rows: Rows, after: Rows, id: Id) {
    forall i | i != id :: At(after, i) == if i in rows && IsCloneOf(rows[i], id) then None else At(rows, i)
  }

  lemma ClonesDeleted(rows: Rows, id: Id)
    ensures OnlyClonesGone(rows, DeleteWhere(rows, ClonesOf(id)), id)
    ensures id in rows && !SelfOriginal(rows[id], id) ==>
      id in DeleteWhere(rows, ClonesOf(id)) && DeleteWhere(rows, ClonesOf(id))[id] == rows[id]
  {
    forall i | i in rows ensures Picks(ClonesOf(id), i, rows[i]) <==> IsCloneOf(rows[i], id) {
      SingleSelectorsMean(id, i, rows[i]);
    }
  }

  lemma TrashedAlone(rows: Rows, id: Id, set_: Doc)
    requires id in rows && InDeletionRequests(rows[id])
    ensures UpdateWhere(rows, DeletionAsked(id), set_, {}) == rows[id := rows[id] + set_]
  {
    forall i | i in rows ensures Picks(DeletionAsked(id), i, rows[i]) <==> i == id {
      SingleSelectorsMean(id, i, rows[i]);
    }
    OnlyRow(rows, DeletionAsked(id), set_, id);
  }

  lemma TrashedDoc(d: Doc, actor: Value, now: int)
    ensures IsTrue(d + TrashSet(actor, now), Trashed) && !InDeletionRequests(d + TrashSet(actor, now))
  {
  }

  /** A confirmed deletion removes the row's clones, puts the row itself in trash without
      its request, and touches nothing else. */
  lemma ConfirmMoves(rows: Rows, id: Id, actor: Value, now: int)
    requires id in rows && InDeletionRequests(rows[id]) && !SelfOriginal(rows[id], id)
    ensures var trashed := ConfirmDeletionRows(rows, id, actor, now);
      && id in trashed && trashed[id] == rows[id] + TrashSet(actor, now) && OnlyClonesGone(rows, trashed, id)
    ensures IsTrue(rows[id] + TrashSet(actor, now), Trashed)
      && !InDeletionRequests(rows[id] + TrashSet(actor, now))
  {
    SingleSelectorsMean(id, id, rows[id]);
    ClonesDeleted(rows, id);
    TrashedAlone(DeleteWhere(rows, ClonesOf(id)), id, TrashSet(actor, now));
    TrashedDoc(rows[id], actor, now);
  }

  /** A verified row that goes through trash and back is counted nowhere again. */
  lemma BackFromTrash(d: Doc, actor: Value, now: int)
    requires IsTrue(d, Verified)
    ensures forall k :: !Hit(k, d + TrashSet(actor, now) + CLEAR_TRASH)
  {
    var e := d + TrashSet(actor, now) + CLEAR_TRASH;
    assert IsTrue(e, Verified) && IsFalse(e, Trashed) && IsFalse(e, DeletionRequested);
    VerifiedUnqueued(e, e);
  }

  /** A cashier's restore request on a verified row of their own trash is queued; the
      accountant's answer takes it out of the queue, back live or still in trash. */
  lemma RestoreRequestAnswered(rows: Rows, id: Id, cashier: Value, now: int, answer: Doc)
    requires id in rows && InOwnTrash(rows[id], cashier) && IsTrue(rows[id], Verified)
    requires !Truthy(rows[id], RestoreRequested)
    requires answer == CLEAR_TRASH || answer == CLEAR_RESTORE
    ensures RequestRestoreRows(rows, id, cashier, now) == rows[id := rows[id] + AskRestoreSet(cashier, now)]
    ensures InRestoreRequests(rows[id] + AskRestoreSet(cashier, now))
    ensures UpdateWhere(RequestRestoreRows(rows, id, cashier, now), RestoreAsked({id}), answer, {}) ==
      rows[id := rows[id] + answer]
    ensures !InRestoreRequests(rows[id] + answer)
      && (IsTrue(rows[id] + answer, Trashed) <==> answer == CLEAR_RESTORE)
  {
    RestoreAskedRows(rows, id, cashier, now);
    AnsweredDoc(rows[id], cashier, now, answer);
    AskedAndAnswered(rows, id, AskRestoreSet(cashier, now), answer);
  }

  lemma RestoreAskedRows(rows: Rows, id: Id, cashier: Value, now: int)
    requires id in rows && InOwnTrash(rows[id], cashier) && IsTrue(rows[id], Verified)
    requires !Truthy(rows[id], RestoreRequested)
    ensures RequestRestoreRows(rows, id, cashier, now) == rows[id := rows[id] + AskRestoreSet(cashier, now)]
  {
    forall i | i in rows ensures Picks(RequestRestoreSelector(id, cashier), i, rows[i]) <==> i == id {
      RequestRestoreMeans(id, cashier, i, rows[i]);
    }
    OnlyRow(rows, RequestRestoreSelector(id, cashier), AskRestoreSet(cashier, now), id);
  }

  lemma AskedAndAnswered(rows: Rows, id: Id, ask: Doc, answer: Doc)
    requires id in rows && InRestoreRequests(rows[id] + ask) && rows[id] + ask + answer == rows[id] + answer
    ensures UpdateWhere(rows[id := rows[id] + ask], RestoreAsked({id}), answer, {}) == rows[id := rows[id] + answer]
  {
    var asked := rows[id := rows[id] + ask];
    forall i | i in asked ensures Picks(RestoreAsked({id}), i, asked[i]) <==> i == id {
      SimpleSelectorsMean({id}, i, asked[i]);
    }
    OnlyRow(asked, RestoreAsked({id}), answer, id);
  }

  lemma AnsweredDoc(d: Doc, cashier: Value, now: int, answer: Doc)
    requires IsTrue(d, Trashed) && (answer == CLEAR_TRASH || answer == CLEAR_RESTORE)
    ensures InRestoreRequests(d + AskRestoreSet(cashier, now))
    ensures d + AskRestoreSet(cashier, now) + answer == d + answer
    ensures !InRestoreRequests(d + answer) && (IsTrue(d + answer, Trashed) <==> answer == CLEAR_RESTORE)
  {
    assert CLEAR_TRASH[Trashed] == NO && Trashed !in CLEAR_RESTORE;
    assert AskRestoreSet(cashier, now).Keys == {RestoreRequested, RestoreRequestedAt, RestoreRequestedBy};
    assert AskRestoreSet(cashier, now).Keys <= answer.Keys;
    assert d + AskRestoreSet(cashier, now) + answer == d + answer;
  }

  /** Discarding takes exactly the cashier's rejected rows, and restoring them undoes it. */
  lemma DiscardThenRestore(rows: Rows, ids: set<Id>, cashier: Value, id: Id)
    requires id in rows
    ensures
      var mid := UpdateWhere(rows, RejectedOf(ids, cashier), map[Discarded := YES], {});
      var d, e := rows[id], UpdateWhere(mid, DiscardedOf(ids, cashier), map[Discarded := NO], {})[id];
      if id in ids && Owned(d, cashier) && (IsTrue(d, Rejected) || IsTrue(d, Discarded))
      then e == d[Discarded := NO] else e == d
  {
    var d := rows[id];
    var mid := UpdateWhere(rows, RejectedOf(ids, cashier), map[Discarded := YES], {});
    RejectedOfMeans(ids, cashier, id, d);
    DiscardedOfMeans(ids, cashier, id, mid[id]);
    FlagTwice(d);
    assert Modify(mid[id], map[Discarded := NO], {}) == mid[id][Discarded := NO];
  }

  lemma FlagTwice(d: Doc)
    ensures Modify(d, map[Discarded := YES], {}) == d[Discarded := YES]
    ensures d[Discarded := YES][Discarded := NO] == d[Discarded := NO]
    ensures Get(d[Discarded := YES], Rejected) == Get(d, Rejected)
      && Get(d[Discarded := YES], CashierId) == Get(d, CashierId)
  {
  }

  // ---------------------------------------------------------------- unverified rows

  /** Deleting an unverified row that is no clone puts it in trash, counted nowhere;
      restoring it brings it back counted as before. */
  lemma TrashThenRestoreOwn(rows: Rows, id: Id, actor: Value, now: int)
    requires id in rows && !Truthy(rows[id], Verified) && !Truthy(rows[id], Trashed)
    requires !Truthy(rows[id], OriginalTransactionId) && !IsTrue(rows[id], DeletionRequested)
    ensures RequestDeleteRows(rows, id, actor, now) == rows[id := rows[id] + SoftTrashSet(actor, now)]
    ensures forall k :: !Hit(k, rows[id] + SoftTrashSet(actor, now))
    ensures UpdateWhere(RequestDeleteRows(rows, id, actor, now), OwnUnverified({id}, actor), CLEAR_TRASH, {}) ==
      rows[id := rows[id] + (SoftTrashSet(actor, now) + CLEAR_TRASH)]
    ensures forall k :: Hit(k, rows[id] + (SoftTrashSet(actor, now) + CLEAR_TRASH)) <==> Hit(k, rows[id])
  {
    SoftTrashedDoc(rows[id], actor, now);
    TakenBackAlone(rows[id := rows[id] + SoftTrashSet(actor, now)], id, actor);
    PlusIsAssociative(rows[id], SoftTrashSet(actor, now), CLEAR_TRASH);
    RestoredDoc(rows[id], actor, now);
  }

  lemma TakenBackAlone(rows: Rows, id: Id, actor: Value)
    requires id in rows && InOwnTrash(rows[id], actor) && !IsTrue(rows[id], Verified)
    ensures UpdateWhere(rows, OwnUnverified({id}, actor), CLEAR_TRASH, {}) == rows[id := rows[id] + CLEAR_TRASH]
  {
    forall i | i in rows ensures Picks(OwnUnverified({id}, actor), i, rows[i]) <==> i == id {
      OwnUnverifiedMeans({id}, actor, i, rows[i]);
    }
    OnlyRow(rows, OwnUnverified({id}, actor), CLEAR_TRASH, id);
  }

  lemma SoftTrashedDoc(d: Doc, actor: Value, now: int)
    requires !Truthy(d, Verified)
    ensures var e := d + SoftTrashSet(actor, now);
      && IsTrue(e, Trashed) && InOwnTrash(e, actor) && !IsTrue(e, Verified)
      && forall k :: !Hit(k, e)
  {
    var e := d + SoftTrashSet(actor, now);
    assert IsTrue(e, Trashed) && IsFalse(e, RestoreRequested);
    assert Get(e, TrashedBy) == Some(actor) && Get(e, Verified) == Get(d, Verified);
    forall b: Badge ensures !Member(b, e) {
    }
  }

  lemma TrashedAndBack(actor: Value, now: int)
    ensures var back := SoftTrashSet(actor, now) + CLEAR_TRASH;
      && Get(back, Trashed) == Some(NO) && Get(back, DeletionRequested) == Some(NO)
      && RegisterStatus !in back && Verified !in back && Rejected !in back && Discarded !in back
      && EditedAfterVerification !in back && CashierId !in back
  {
  }

  lemma RestoredDoc(d: Doc, actor: Value, now: int)
    requires !Truthy(d, Trashed) && !IsTrue(d, DeletionRequested)
    ensures forall k :: Hit(k, d + (SoftTrashSet(actor, now) + CLEAR_TRASH)) <==> Hit(k, d)
  {
    TrashedAndBack(actor, now);
    LiveCountsAs(d, d + (SoftTrashSet(actor, now) + CLEAR_TRASH));
  }

  /** Live rows without requests are counted by the remaining flags and their cashier. */
  lemma LiveCountsAs(d: Doc, e: Doc)
    requires !IsTrue(d, Trashed) && !IsTrue(d, DeletionRequested)
    requires !IsTrue(e, Trashed) && !IsTrue(e, DeletionRequested)
    requires Get(e, RegisterStatus) == Get(d, RegisterStatus) && Get(e, Verified) == Get(d, Verified)
    requires Get(e, Rejected) == Get(d, Rejected) && Get(e, Discarded) == Get(d, Discarded)
    requires Get(e, EditedAfterVerification) == Get(d, EditedAfterVerification)
    requires Get(e, CashierId) == Get(d, CashierId)
    ensures forall k :: Hit(k, e) <==> Hit(k, d)
  {
    assert CashierKey(e) == CashierKey(d);
    forall b: Badge ensures Member(b, e) <==> Member(b, d) {
    }
  }

  /** A resubmitted row is no longer rejected; it enters the inbox exactly when it was a
      live, submitted, unverified row waiting for its cashier. */
  lemma ResubmitMoves(rows: Rows, scope: Value, now: int, e: Edit)
    requires Resubmits(rows, scope, e) && !TouchesBadges(e.values)
    ensures var d, after := rows[e.id], ResubmitOne(rows, scope, now, e)[e.id];
      && IsTrue(d, Rejected) && IsFalse(after, Rejected)
      && (InVerify(after) <==>
            IsFalse(d, Verified) && Get(d, RegisterStatus) == Some(Status(AsSubmitted))
            && !IsTrue(d, Trashed) && !IsTrue(d, DeletionRequested))
  {
    ResubmitOneRow(rows, scope, now, e);
    ResubmittedFields(rows[e.id], scope, now, e.values);
  }

  lemma ResubmittedFields(d: Doc, scope: Value, now: int, values: Doc)
    requires !TouchesBadges(values)
    ensures var after := d + (values + ResubmitMeta(scope, now));
      && IsFalse(after, Rejected) && Get(after, Verified) == Get(d, Verified)
      && Get(after, RegisterStatus) == Get(d, RegisterStatus)
      && Get(after, Trashed) == Get(d, Trashed) && Get(after, DeletionRequested) == Get(d, DeletionRequested)
  {
  }

  /** Simple re-approval verifies exactly an unverified row that is no clone, clears its
      edit mark and its rejection, and leaves the deletion and restore queues alone. */
  lemma SimpleReApprovalMoves(rows: Rows, id: Id, actor: Value, now: int)
    requires id in rows && !Truthy(rows[id], OriginalTransactionId)
    ensures var d, after := rows[id], ReApproved(rows, id, actor, now);
      if IsFalse(d, Verified)
      then after == rows[id := d + ReApproveSet(actor, now)]
        && IsTrue(after[id], Verified) && !CountedAsOpen(after[id])
        && IsFalse(after[id], EditedAfterVerification) && IsFalse(after[id], Rejected)
        && (InDeletionRequests(after[id]) <==> InDeletionRequests(d))
        && (InRestoreRequests(after[id]) <==> InRestoreRequests(d))
      else after == rows
  {
    var e := rows[id] + ReApproveSet(actor, now);
    assert Get(e, Trashed) == Get(rows[id], Trashed)
      && Get(e, DeletionRequested) == Get(rows[id], DeletionRequested)
      && Get(e, RestoreRequested) == Get(rows[id], RestoreRequested);
  }
}
