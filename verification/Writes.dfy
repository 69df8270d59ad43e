/** What the handlers of backend/app/transactions_api.py and the accountant_*_api.py
    modules store, row by row: which rows a call picks, said of their fields, and the value
    of every field afterwards. */
module Writes {
  import opened Mongo
  import opened Badges
  import opened Lifecycle
  import opened Moves
  import opened Unadjusted

  predicate Yes(d: Doc, f: Field) { f in d && d[f] == Bool(true) }

  predicate No(d: Doc, f: Field) { f in d && d[f] == Bool(false) }

  /** The value itself, or nothing at all when the value asked for is null. */
  predicate Bears(d: Doc, f: Field, v: Value) { if f in d then d[f] == v else v == Null }

  /** Python truth, field by field. */
  lemma TruthyMeans(d: Doc, f: Field)
    ensures Truthy(d, f) <==>
      f in d && d[f] != Null && d[f] != Bool(false) && d[f] != Num(0) && d[f] != Text("")
  {
  }

  /** The row has the new values, lacks the fields dropped, and is otherwise as it was. */
  ghost predicate Wrote(was: Doc, now: Doc, values: Doc, dropped: set<Field>) {
    forall f :: Get(now, f) ==
      if f in dropped then None else if f in values then Some(values[f]) else Get(was, f)
  }

  /** The rows picked are written and all others stay. */
  ghost predicate Rewrites(rows: Rows, after: Rows, pick: (Id, Doc) -> bool, values: Doc, dropped: set<Field>) {
    && (forall id :: id in after <==> id in rows)
    && forall id | id in rows ::
         if pick(id, rows[id]) then Wrote(rows[id], after[id], values, dropped) else after[id] == rows[id]
  }

  /** The rows picked are gone and all others stay. */
  ghost predicate Removes(rows: Rows, after: Rows, pick: (Id, Doc) -> bool) {
    && (forall id :: id in after <==> id in rows && !pick(id, rows[id]))
    && forall id | id in after :: after[id] == rows[id]
  }

  lemma UpdateRewrites(rows: Rows, sel: Selector, values: Doc, dropped: set<Field>, pick: (Id, Doc) -> bool)
    requires forall id | id in rows :: Picks(sel, id, rows[id]) <==> pick(id, rows[id])
    ensures Rewrites(rows, UpdateWhere(rows, sel, values, dropped), pick, values, dropped)
  {
  }

  lemma DeleteRemoves(rows: Rows, sel: Selector, pick: (Id, Doc) -> bool)
    requires forall id | id in rows :: Picks(sel, id, rows[id]) <==> pick(id, rows[id])
    ensures Removes(rows, DeleteWhere(rows, sel), pick)
  {
  }

  // ---------------------------------------------------------------- the inbox

  lemma SubmitWrites(rows: Rows, start: int, end: int)
    ensures Rewrites(rows, UpdateWhere(rows, SubmitSelector(start, end), STAGE_SET, {}),
      (id: Id, d: Doc) => Submits(d, start, end), map[RegisterStatus := Str("submitted")], {})
  {
    SubmitPicks(rows, start, end);
    UpdateRewrites(rows, SubmitSelector(start, end), STAGE_SET, {}, (id: Id, d: Doc) => Submits(d, start, end));
  }

  lemma SubmitPicks(rows: Rows, start: int, end: int)
    ensures forall id | id in rows :: Picks(SubmitSelector(start, end), id, rows[id]) <==> Submits(rows[id], start, end)
  {
    forall id | id in rows ensures Picks(SubmitSelector(start, end), id, rows[id]) <==> Submits(rows[id], start, end) {
      SubmitSelectorMeans(start, end, id, rows[id]);
    }
  }

  /** Approval verifies rows stored as not verified and drops the mark of a duplicate. */
  lemma ApproveWrites(rows: Rows, ids: set<Id>, actor: Value, now: int)
    ensures Rewrites(rows, UpdateWhere(rows, UnverifiedIn(ids), ApproveSet(actor, now), {DuplicateOfId}),
      (id: Id, d: Doc) => id in ids && No(d, Verified),
      map[Verified := Bool(true), VerifiedBy := actor, VerifiedAt := Time(now), RejectionReason := Null,
          PossibleDuplicate := Bool(false), DateDiscrepancy := Bool(false)],
      {DuplicateOfId})
  {
    forall id | id in rows ensures Picks(UnverifiedIn(ids), id, rows[id]) <==> id in ids && No(rows[id], Verified) {
      SimpleSelectorsMean(ids, id, rows[id]);
    }
    UpdateRewrites(rows, UnverifiedIn(ids), ApproveSet(actor, now), {DuplicateOfId},
      (id: Id, d: Doc) => id in ids && No(d, Verified));
  }

  /** Rejection takes whatever rows are asked for. */
  lemma RejectWrites(rows: Rows, ids: set<Id>, reason: string)
    ensures Rewrites(rows, UpdateWhere(rows, WithIds(ids, map[]), RejectSet(reason), {}),
      (id: Id, d: Doc) => id in ids,
      map[Verified := Bool(false), RejectionReason := Text(reason), Rejected := Bool(true),
        Discarded := Bool(false)], {})
  {
    UpdateRewrites(rows, WithIds(ids, map[]), RejectSet(reason), {}, (id: Id, d: Doc) => id in ids);
  }

  lemma ReturnWrites(rows: Rows, target: Id)
    ensures Rewrites(rows, UpdateWhere(rows, RejectedRow(target), INBOX_SET, {}),
      (id: Id, d: Doc) => id == target && Yes(d, Rejected),
      map[Rejected := Bool(false), RejectionReason := Null, Discarded := Bool(false)], {})
  {
    forall id | id in rows
      ensures Picks(RejectedRow(target), id, rows[id]) <==> id == target && Yes(rows[id], Rejected)
    {
      SingleSelectorsMean(target, id, rows[id]);
    }
    UpdateRewrites(rows, RejectedRow(target), INBOX_SET, {}, (id: Id, d: Doc) => id == target && Yes(d, Rejected));
  }

  predicate OwnRejected(d: Doc, scope: Value) {
    Bears(d, CashierId, scope) && Yes(d, Rejected) && !Yes(d, Discarded)
  }

  /** One entry of a resubmit: its own values, then the marks of an open row. */
  lemma ResubmitWrites(rows: Rows, scope: Value, now: int, e: Edit)
    ensures Rewrites(rows, ResubmitOne(rows, scope, now, e), (id: Id, d: Doc) => id == e.id && OwnRejected(d, scope),
      e.values + map[Rejected := Bool(false), RejectionReason := Null, Discarded := Bool(false),
        LastEditedAt := Time(now), LastEditedBy := scope], {})
  {
    forall id | id in rows
      ensures Picks(RejectedOf({e.id}, scope), id, rows[id]) <==> id == e.id && OwnRejected(rows[id], scope)
    {
      RejectedOfMeans({e.id}, scope, id, rows[id]);
    }
    UpdateRewrites(rows, RejectedOf({e.id}, scope), e.values + ResubmitMeta(scope, now), {},
      (id: Id, d: Doc) => id == e.id && OwnRejected(d, scope));
  }

  lemma DiscardWrites(rows: Rows, ids: set<Id>, scope: Value)
    ensures Rewrites(rows, UpdateWhere(rows, RejectedOf(ids, scope), map[Discarded := YES], {}),
      (id: Id, d: Doc) => id in ids && OwnRejected(d, scope), map[Discarded := Bool(true)], {})
  {
    forall id | id in rows
      ensures Picks(RejectedOf(ids, scope), id, rows[id]) <==> id in ids && OwnRejected(rows[id], scope)
    {
      RejectedOfMeans(ids, scope, id, rows[id]);
    }
    UpdateRewrites(rows, RejectedOf(ids, scope), map[Discarded := YES], {},
      (id: Id, d: Doc) => id in ids && OwnRejected(d, scope));
  }

  predicate OwnDiscarded(d: Doc, scope: Value) { Bears(d, CashierId, scope) && Yes(d, Discarded) }

  lemma DiscardedPicks(rows: Rows, ids: set<Id>, scope: Value, id: Id)
    requires id in rows
    ensures Picks(DiscardedOf(ids, scope), id, rows[id]) <==> id in ids && OwnDiscarded(rows[id], scope)
  {
    DiscardedOfMeans(ids, scope, id, rows[id]);
  }

  /** Discarded rows come back, or go for good. */
  lemma DiscardedWrites(rows: Rows, ids: set<Id>, scope: Value)
    ensures Rewrites(rows, UpdateWhere(rows, DiscardedOf(ids, scope), map[Discarded := NO], {}),
      (id: Id, d: Doc) => id in ids && OwnDiscarded(d, scope), map[Discarded := Bool(false)], {})
    ensures Removes(rows, DeleteWhere(rows, DiscardedOf(ids, scope)),
      (id: Id, d: Doc) => id in ids && OwnDiscarded(d, scope))
  {
    forall id | id in rows
      ensures Picks(DiscardedOf(ids, scope), id, rows[id]) <==> id in ids && OwnDiscarded(rows[id], scope)
    {
      DiscardedPicks(rows, ids, scope, id);
    }
    UpdateRewrites(rows, DiscardedOf(ids, scope), map[Discarded := NO], {},
      (id: Id, d: Doc) => id in ids && OwnDiscarded(d, scope));
    DeleteRemoves(rows, DiscardedOf(ids, scope), (id: Id, d: Doc) => id in ids && OwnDiscarded(d, scope));
  }

  // ---------------------------------------------------------------- deletion

  /** Asking to delete: an edit of a verified row goes at once, an unverified row goes to
      trash unless it is there, and a verified one waits for the accountant. */
  lemma RequestDeleteWrites(rows: Rows, id: Id, actor: Value, now: int)
    requires id in rows
    ensures var d, after := rows[id], RequestDeleteRows(rows, id, actor, now);
      && (forall other | other != id :: other in after <==> other in rows)
      && (forall other | other in rows && other != id :: after[other] == rows[other])
      && (id !in after <==> Truthy(d, OriginalTransactionId) && !Truthy(d, Verified))
      && (id in after ==>
           if Truthy(d, Verified) then
             Wrote(d, after[id], map[DeletionRequested := Bool(true), DeletionRequestedAt := Time(now),
               DeletionRequestedBy := actor], {})
           else if Truthy(d, Trashed) then after[id] == d
           else
             Wrote(d, after[id], map[Trashed := Bool(true), TrashedAt := Time(now), TrashedBy := actor,
               DeletionRequested := Bool(false), DeletionRequestedAt := Null, DeletionRequestedBy := Null,
               RestoreRequested := Bool(false), RestoreRequestedAt := Null, RestoreRequestedBy := Null], {}))
  {
  }

  predicate DeletionDue(d: Doc) { Yes(d, DeletionRequested) && !Yes(d, Trashed) }

  function Trash(actor: Value, now: int): Doc {
    map[Trashed := Bool(true), TrashedAt := Time(now), TrashedBy := actor,
        DeletionRequested := Bool(false), DeletionRequestedAt := Null, DeletionRequestedBy := Null]
  }

  /** Confirming a deletion that was asked for removes the edits of the row, and trashes
      the row when it is not one of them itself; without a request nothing changes. */
  lemma ConfirmWrites(rows: Rows, id: Id, actor: Value, now: int)
    ensures var after := ConfirmDeletionRows(rows, id, actor, now);
      if id in rows && DeletionDue(rows[id])
      then
        && (forall i :: i in after <==> i in rows && Get(rows[i], OriginalTransactionId) != Some(Oid(id)))
        && (forall i | i in after ::
              if i == id then Wrote(rows[i], after[i], Trash(actor, now), {}) else after[i] == rows[i])
      else after == rows
  {
    forall i | i in rows ensures
      && (Picks(DeletionAsked(id), i, rows[i]) <==> i == id && DeletionDue(rows[i]))
      && (Picks(ClonesOf(id), i, rows[i]) <==> Get(rows[i], OriginalTransactionId) == Some(Oid(id)))
    {
      SingleSelectorsMean(id, i, rows[i]);
    }
    var mid := DeleteWhere(rows, ClonesOf(id));
    UpdateRewrites(mid, DeletionAsked(id), TrashSet(actor, now), {}, (i: Id, d: Doc) => i == id && DeletionDue(d));
  }

  lemma RestoreDeletionWrites(rows: Rows, target: Id)
    ensures Rewrites(rows, UpdateWhere(rows, DeletionAsked(target), CLEAR_DELETION, {}),
      (id: Id, d: Doc) => id == target && DeletionDue(d),
      map[DeletionRequested := Bool(false), DeletionRequestedAt := Null, DeletionRequestedBy := Null], {})
  {
    forall id | id in rows
      ensures Picks(DeletionAsked(target), id, rows[id]) <==> id == target && DeletionDue(rows[id])
    {
      SingleSelectorsMean(target, id, rows[id]);
    }
    UpdateRewrites(rows, DeletionAsked(target), CLEAR_DELETION, {}, (id: Id, d: Doc) => id == target && DeletionDue(d));
  }

  lemma AskedMeans(rows: Rows, ids: set<Id>)
    ensures forall id | id in rows :: Picks(Asked(ids), id, rows[id]) <==> id in ids && DeletionDue(rows[id])
  {
    forall id | id in rows ensures Picks(Asked(ids), id, rows[id]) <==> id in ids && DeletionDue(rows[id]) {
      RequestMeaning(rows[id]);
    }
  }

  /** The bulk forms: requests taken back, and requests granted after the edits of all the
      rows named are gone. */
  lemma BulkDeletionWrites(rows: Rows, ids: set<Id>, list: seq<Id>, actor: Value, now: int)
    ensures Rewrites(rows, UpdateWhere(rows, Asked(ids), CLEAR_DELETION, {}),
      (id: Id, d: Doc) => id in ids && DeletionDue(d),
      map[DeletionRequested := Bool(false), DeletionRequestedAt := Null, DeletionRequestedBy := Null], {})
    ensures var after := BulkConfirmed(rows, list, actor, now);
      && (forall i :: i in after <==> i in rows && !EditOfAny(rows[i], list))
      && (forall i | i in after ::
            if i in list && DeletionDue(rows[i])
            then Wrote(rows[i], after[i], Trash(actor, now), {}) else after[i] == rows[i])
  {
    AskedMeans(rows, ids);
    UpdateRewrites(rows, Asked(ids), CLEAR_DELETION, {}, (id: Id, d: Doc) => id in ids && DeletionDue(d));
    var mid := DeleteWhere(rows, ClonesOfAny(list));
    forall i | i in rows ensures Picks(ClonesOfAny(list), i, rows[i]) <==> EditOfAny(rows[i], list) {
      ClonesOfAnyMeans(list, i, rows[i]);
    }
    AskedMeans(mid, Among(list));
    UpdateRewrites(mid, Asked(Among(list)), TrashSet(actor, now), {},
      (id: Id, d: Doc) => id in Among(list) && DeletionDue(d));
  }

  /** The row is an edit of one of the rows named. */
  predicate EditOfAny(d: Doc, list: seq<Id>) {
    OriginalTransactionId in d && d[OriginalTransactionId].Oid? && d[OriginalTransactionId].oid in list
  }

  lemma ClonesOfAnyMeans(list: seq<Id>, id: Id, d: Doc)
    ensures Picks(ClonesOfAny(list), id, d) <==> EditOfAny(d, list)
  {
    var oids := seq(|list|, i requires 0 <= i < |list| => Oid(list[i]));
    OneMeans(OriginalTransactionId, OneOf(oids), d);
    if EditOfAny(d, list) {
      var i :| 0 <= i < |list| && list[i] == d[OriginalTransactionId].oid;
      assert oids[i] == d[OriginalTransactionId];
    }
  }

  lemma UploadRemoves(rows: Rows, upload: string)
    ensures Removes(rows, DeleteWhere(rows, UploadRows(upload)),
      (id: Id, d: Doc) => DailyImportId in d && d[DailyImportId] == Str(upload))
  {
    forall id | id in rows
      ensures Picks(UploadRows(upload), id, rows[id]) <==>
        DailyImportId in rows[id] && rows[id][DailyImportId] == Str(upload)
    {
      OneMeans(DailyImportId, Is(Str(upload)), rows[id]);
    }
    DeleteRemoves(rows, UploadRows(upload), (id: Id, d: Doc) => DailyImportId in d && d[DailyImportId] == Str(upload));
  }

  // ---------------------------------------------------------------- trash

  predicate MyTrash(d: Doc, cashier: Value) {
    Yes(d, Trashed) && (Bears(d, CashierId, cashier) || Bears(d, TrashedBy, cashier))
  }

  function Live(): Doc {
    map[Trashed := Bool(false), TrashedAt := Null, TrashedBy := Null,
        RestoreRequested := Bool(false), RestoreRequestedAt := Null, RestoreRequestedBy := Null]
  }

  function Unasked(): Doc {
    map[RestoreRequested := Bool(false), RestoreRequestedAt := Null, RestoreRequestedBy := Null]
  }

  function RestoreWanted(actor: Value, now: int): Doc {
    map[RestoreRequested := Bool(true), RestoreRequestedAt := Time(now), RestoreRequestedBy := actor]
  }

  /** The accountant brings trash back or removes it. */
  lemma TrashWrites(rows: Rows, ids: set<Id>)
    ensures Rewrites(rows, UpdateWhere(rows, TrashedIn(ids), CLEAR_TRASH, {}),
      (id: Id, d: Doc) => id in ids && Yes(d, Trashed), Live(), {})
    ensures Removes(rows, DeleteWhere(rows, TrashedIn(ids)), (id: Id, d: Doc) => id in ids && Yes(d, Trashed))
  {
    forall id | id in rows ensures Picks(TrashedIn(ids), id, rows[id]) <==> id in ids && Yes(rows[id], Trashed) {
      SimpleSelectorsMean(ids, id, rows[id]);
    }
    UpdateRewrites(rows, TrashedIn(ids), CLEAR_TRASH, {}, (id: Id, d: Doc) => id in ids && Yes(d, Trashed));
    DeleteRemoves(rows, TrashedIn(ids), (id: Id, d: Doc) => id in ids && Yes(d, Trashed));
  }

  /** A cashier does so with unverified rows of their own trash. */
  lemma OwnTrashWrites(rows: Rows, ids: set<Id>, cashier: Value)
    ensures Rewrites(rows, UpdateWhere(rows, OwnUnverified(ids, cashier), CLEAR_TRASH, {}),
      (id: Id, d: Doc) => id in ids && MyTrash(d, cashier) && !Yes(d, Verified), Live(), {})
    ensures Removes(rows, DeleteWhere(rows, OwnUnverified(ids, cashier)),
      (id: Id, d: Doc) => id in ids && MyTrash(d, cashier) && !Yes(d, Verified))
  {
    forall id | id in rows ensures Picks(OwnUnverified(ids, cashier), id, rows[id]) <==>
      id in ids && MyTrash(rows[id], cashier) && !Yes(rows[id], Verified)
    {
      OwnUnverifiedMeans(ids, cashier, id, rows[id]);
    }
    UpdateRewrites(rows, OwnUnverified(ids, cashier), CLEAR_TRASH, {},
      (id: Id, d: Doc) => id in ids && MyTrash(d, cashier) && !Yes(d, Verified));
    DeleteRemoves(rows, OwnUnverified(ids, cashier),
      (id: Id, d: Doc) => id in ids && MyTrash(d, cashier) && !Yes(d, Verified));
  }

  /** A cashier asks for verified rows of their own trash, once. */
  lemma AskRestoreWrites(rows: Rows, target: Id, cashier: Value, now: int)
    ensures Rewrites(rows, RequestRestoreRows(rows, target, cashier, now),
      (id: Id, d: Doc) => id == target && MyTrash(d, cashier) && Yes(d, Verified) && !Truthy(d, RestoreRequested),
      RestoreWanted(cashier, now), {})
  {
    forall id | id in rows ensures Picks(RequestRestoreSelector(target, cashier), id, rows[id]) <==>
      id == target && MyTrash(rows[id], cashier) && Yes(rows[id], Verified)
    {
      RequestRestoreMeans(target, cashier, id, rows[id]);
    }
    UpdateRewrites(rows, RequestRestoreSelector(target, cashier), AskRestoreSet(cashier, now), {},
      (id: Id, d: Doc) => id == target && MyTrash(d, cashier) && Yes(d, Verified));
  }

  lemma CancelRestoreWrites(rows: Rows, target: Id, cashier: Value)
    ensures Rewrites(rows, UpdateWhere(rows, OwnRestoreAsked(target, cashier), CLEAR_RESTORE, {}),
      (id: Id, d: Doc) => id == target && MyTrash(d, cashier) && Yes(d, RestoreRequested), Unasked(), {})
  {
    forall id | id in rows ensures Picks(OwnRestoreAsked(target, cashier), id, rows[id]) <==>
      id == target && MyTrash(rows[id], cashier) && Yes(rows[id], RestoreRequested)
    {
      OwnRestoreAskedMeans(target, cashier, id, rows[id]);
    }
    UpdateRewrites(rows, OwnRestoreAsked(target, cashier), CLEAR_RESTORE, {},
      (id: Id, d: Doc) => id == target && MyTrash(d, cashier) && Yes(d, RestoreRequested));
  }

  /** In bulk, rows already asked for are left alone. */
  lemma BulkAskWrites(rows: Rows, ids: set<Id>, cashier: Value, now: int)
    ensures Rewrites(rows, UpdateWhere(rows, BulkRestoreAsk(ids, cashier), AskRestoreSet(cashier, now), {}),
      (id: Id, d: Doc) => id in ids && MyTrash(d, cashier) && Yes(d, Verified) && !Yes(d, RestoreRequested),
      RestoreWanted(cashier, now), {})
  {
    forall id | id in rows ensures Picks(BulkRestoreAsk(ids, cashier), id, rows[id]) <==>
      id in ids && MyTrash(rows[id], cashier) && Yes(rows[id], Verified) && !Yes(rows[id], RestoreRequested)
    {
      BulkAskMeans(ids, cashier, id, rows[id]);
    }
    UpdateRewrites(rows, BulkRestoreAsk(ids, cashier), AskRestoreSet(cashier, now), {},
      (id: Id, d: Doc) => id in ids && MyTrash(d, cashier) && Yes(d, Verified) && !Yes(d, RestoreRequested));
  }

  lemma BulkAskMeans(ids: set<Id>, cashier: Value, id: Id, d: Doc)
    ensures Picks(BulkRestoreAsk(ids, cashier), id, d) <==>
      id in ids && MyTrash(d, cashier) && Yes(d, Verified) && !Yes(d, RestoreRequested)
  {
    var three := map[Trashed := Is(YES), Verified := Is(YES), RestoreRequested := IsNot(YES)];
    ThreeFields(d);
    TrashScopeMeans(cashier, d);
    assert Matches(OwnTrash(ids, three, cashier).query, d) <==>
      Matches(Fields(three), d) && Matches(Query(map[], Absent, TrashScope(cashier), NoExpr), d);
  }

  lemma ThreeFields(d: Doc)
    ensures Matches(Fields(map[Trashed := Is(YES), Verified := Is(YES), RestoreRequested := IsNot(YES)]), d) <==>
      Yes(d, Trashed) && Yes(d, Verified) && !Yes(d, RestoreRequested)
  {
    var two := map[Trashed := Is(YES), Verified := Is(YES)];
    TwoFields(Verified, Is(YES), d);
    FieldsConcat(two, RestoreRequested, IsNot(YES), d);
    assert two + map[RestoreRequested := IsNot(YES)] ==
      map[Trashed := Is(YES), Verified := Is(YES), RestoreRequested := IsNot(YES)];
  }

  /** The accountant grants or refuses what was asked for. */
  lemma AnswerRestoreWrites(rows: Rows, ids: set<Id>)
    ensures Rewrites(rows, UpdateWhere(rows, RestoreAsked(ids), CLEAR_TRASH, {}),
      (id: Id, d: Doc) => id in ids && Yes(d, Trashed) && Yes(d, RestoreRequested), Live(), {})
    ensures Rewrites(rows, UpdateWhere(rows, RestoreAsked(ids), CLEAR_RESTORE, {}),
      (id: Id, d: Doc) => id in ids && Yes(d, Trashed) && Yes(d, RestoreRequested), Unasked(), {})
  {
    forall id | id in rows ensures Picks(RestoreAsked(ids), id, rows[id]) <==>
      id in ids && Yes(rows[id], Trashed) && Yes(rows[id], RestoreRequested)
    {
      SimpleSelectorsMean(ids, id, rows[id]);
    }
    UpdateRewrites(rows, RestoreAsked(ids), CLEAR_TRASH, {},
      (id: Id, d: Doc) => id in ids && Yes(d, Trashed) && Yes(d, RestoreRequested));
    UpdateRewrites(rows, RestoreAsked(ids), CLEAR_RESTORE, {},
      (id: Id, d: Doc) => id in ids && Yes(d, Trashed) && Yes(d, RestoreRequested));
  }

  // ---------------------------------------------------------------- edits and re-approval

  function EditMarks(original: Id, cashier: Value, now: int): Doc {
    map[OriginalTransactionId := Oid(original), EditedAfterVerification := Bool(true), Verified := Bool(false),
        VerifiedBy := Null, VerifiedAt := Null, RejectionReason := Null, Rejected := Bool(false),
        Discarded := Bool(false), LastEditedAt := Time(now), LastEditedBy := cashier]
  }

  /** An edit of a verified row is stored on its open edit row, or on a new copy of it that
      has no key of an import or of a client, and a date of its own. */
  lemma PendingEditWrites(rows: Rows, original: Id, updates: Doc, cashier: Value, now: int, target: Id)
    requires original in rows
    ensures var after := PendingEditRows(rows, original, updates, cashier, now, target);
      && (forall id :: id in after <==> id in rows || id == target)
      && (forall id | id in rows && id != target :: after[id] == rows[id])
      && if target in rows
         then Wrote(rows[target], after[target], updates + EditMarks(original, cashier, now), {})
         else Wrote(rows[original], after[target],
           (updates + EditMarks(original, cashier, now))[CreatedAt := Time(now)],
           {ClientRowId, DailyImportId, ImportRowKey, MasterImportSource, MasterSerial})
  {
    MarksMean(original, cashier, now);
    if target in rows {
      StoredOnTop(rows[target], updates + EditMarks(original, cashier, now));
    } else {
      CopiedWithout(rows[original], updates, EditMarks(original, cashier, now), now);
    }
  }

  lemma MarksMean(original: Id, cashier: Value, now: int)
    ensures EditMeta(original, cashier, now) == EditMarks(original, cashier, now)
  {
  }

  lemma StoredOnTop(was: Doc, values: Doc)
    ensures Wrote(was, was + values, values, {})
  {
  }

  lemma CopiedWithout(source: Doc, updates: Doc, marks: Doc, now: int)
    ensures Wrote(source, (source + updates + marks - CLONE_DROPS)[CreatedAt := Time(now)],
      (updates + marks)[CreatedAt := Time(now)],
      {ClientRowId, DailyImportId, ImportRowKey, MasterImportSource, MasterSerial})
  {
  }

  /** The open edit of a row: an unverified row that points at it, is marked as an edit and
      is not rejected. */
  lemma OpenEdits(rows: Rows, original: Id, id: Id)
    ensures id in OpenClones(rows, original) <==>
      && id in rows && Get(rows[id], OriginalTransactionId) == Some(Oid(original))
      && No(rows[id], Verified) && Yes(rows[id], EditedAfterVerification) && !Yes(rows[id], Rejected)
  {
    if id in rows {
      var d, q := rows[id], OpenCloneQuery(original).fields;
      assert q.Keys == {OriginalTransactionId, Verified, EditedAfterVerification, Rejected};
      assert Matches(OpenCloneQuery(original), d) <==>
        && Holds(q[OriginalTransactionId], Get(d, OriginalTransactionId)) && Holds(q[Verified], Get(d, Verified))
        && Holds(q[EditedAfterVerification], Get(d, EditedAfterVerification)) && Holds(q[Rejected], Get(d, Rejected));
    }
  }

  function Verification(actor: Value, now: int): Doc {
    map[Verified := Bool(true), VerifiedBy := actor, VerifiedAt := Time(now), RejectionReason := Null,
        Rejected := Bool(false), EditedAfterVerification := Bool(false)]
  }

  /** The content of a row, which an approved edit hands to the row it is an edit of. */
  const CONTENT: set<Field> :=
    {Date, Description, TruckNumber, Amount, Currency, AmountUsd, LpoDo, DoNumber, Memo, ReceiptStatus, NotesFlag,
     RefFloat, Ownership, Approver, Payee, Cheque, ReportedDate, CategoryName, CategoryId, Item, CategoryConfidence,
     Month, Year}

  lemma ContentIsCascaded(f: Field)
    ensures f in CONTENT <==> IsCascadeField(f)
  {
  }

  /** The original has the content the edit has, is verified and says who edited it last;
      everything else on it is as it was. */
  ghost predicate TookOver(was: Doc, edit: Doc, now: Doc, actor: Value, at: int) {
    forall f :: Get(now, f) == Taken(was, edit, actor, at, f)
  }

  function Taken(was: Doc, edit: Doc, actor: Value, at: int, f: Field): Option<Value> {
    if f in Verification(actor, at) then Some(Verification(actor, at)[f])
    else if f == LastEditedAt || f == LastEditedBy then Some(if f in edit then edit[f] else Null)
    else if f in CONTENT && f in edit then Some(edit[f])
    else Get(was, f)
  }

  lemma MetaTakesOver(edit: Doc, actor: Value, at: int, f: Field)
    ensures Get(ReApprovalMeta(edit, actor, at), f) ==
      if f in Verification(actor, at) then Some(Verification(actor, at)[f])
      else if f == LastEditedAt || f == LastEditedBy then Some(if f in edit then edit[f] else Null)
      else None
  {
  }

  lemma CascadeTakesOver(was: Doc, edit: Doc, actor: Value, at: int)
    ensures TookOver(was, edit, was + CascadeUpdates(edit, actor, at), actor, at)
  {
    forall f ensures Get(was + CascadeUpdates(edit, actor, at), f) == Taken(was, edit, actor, at, f) {
      MetaTakesOver(edit, actor, at, f);
      ContentIsCascaded(f);
      TwoLayers(was, Cascaded(edit), ReApprovalMeta(edit, actor, at), f);
    }
  }

  lemma TwoLayers(was: Doc, a: Doc, b: Doc, f: Field)
    ensures Get(was + (a + b), f) == if f in b then Get(b, f) else if f in a then Get(a, f) else Get(was, f)
  {
  }

  /** Re-approval of a row that is no edit verifies it. */
  lemma ReApproveWrites(rows: Rows, id: Id, actor: Value, now: int)
    ensures var after := ReApproved(rows, id, actor, now);
      && (id !in rows || !No(rows[id], Verified) ==> after == rows)
      && (id in rows && No(rows[id], Verified) && !Truthy(rows[id], OriginalTransactionId) ==>
            Rewrites(rows, after, (i: Id, d: Doc) => i == id, Verification(actor, now), {}))
  {
    if id in rows {
      StoredOnTop(rows[id], ReApproveSet(actor, now));
      assert ReApproveSet(actor, now) == Verification(actor, now);
    }
  }

  /** The row that an edit points at, when it is there and the edit changes it. */
  ghost predicate Changes(rows: Rows, id: Id, to: Id, actor: Value, now: int) {
    && id in rows && to in rows && Get(rows[id], OriginalTransactionId) == Some(Oid(to))
    && !TookOver(rows[to], rows[id], rows[to], actor, now)
  }

  /** Re-approval of an edit hands its content to the row it points at and removes it;
      nothing happens when that row is gone or would stay as it is. */
  lemma EditReApproveWrites(rows: Rows, id: Id, to: Id, actor: Value, now: int)
    requires id in rows && No(rows[id], Verified) && Truthy(rows[id], OriginalTransactionId)
    ensures var after := ReApproved(rows, id, actor, now);
      && (Changes(rows, id, to, actor, now) ==>
            && (forall i :: i in after <==> i in rows && i != id)
            && (forall i | i in after ::
                  if i == to then TookOver(rows[i], rows[id], after[i], actor, now) else after[i] == rows[i]))
      && ((forall i :: !Changes(rows, id, i, actor, now)) ==> after == rows)
  {
    var target := OriginalOf(rows, rows[id]);
    if target.Some? {
      var was, updates := rows[target.value], CascadeUpdates(rows[id], actor, now);
      CascadeTakesOver(was, rows[id], actor, now);
      UnchangedTakesOver(was, rows[id], was + updates, actor, now);
      assert Changes(rows, id, target.value, actor, now) <==> was + updates != was;
      assert Changes(rows, id, to, actor, now) ==> to == target.value;
    } else {
      assert !Changes(rows, id, to, actor, now);
    }
  }

  /** The row would stay as it is exactly when it has all it would take over. */
  lemma UnchangedTakesOver(was: Doc, edit: Doc, now: Doc, actor: Value, at: int)
    requires TookOver(was, edit, now, actor, at)
    ensures TookOver(was, edit, was, actor, at) <==> now == was
  {
    if TookOver(was, edit, was, actor, at) {
      forall f ensures Get(now, f) == Get(was, f) {
        assert Get(now, f) == Taken(was, edit, actor, at, f);
      }
      SameFields(now, was);
    }
  }

  lemma SameFields(a: Doc, b: Doc)
    ensures a == b <==> forall f :: Get(a, f) == Get(b, f)
  {
    if forall f :: Get(a, f) == Get(b, f) {
      forall f ensures f in a <==> f in b { assert Get(a, f) == Get(b, f); }
      forall f | f in a ensures a[f] == b[f] { assert Get(a, f) == Get(b, f); }
    }
  }
}
