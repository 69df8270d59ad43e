/** Handlers that write more than once, or note changes they computed before
    writing: why their remembered changes still follow the recount, and the
    exact inputs for which they do not. */
module Composite {
  import opened Mongo
  import opened Badges
  import opened Lifecycle
  import opened Coverage

  lemma NotedOne(a: Change, k: CounterKey)
    ensures Noted([a], k) == Delta(a, k)
  {
    assert [a][..0] == [];
  }

  lemma NotedTwo(a: Change, b: Change, k: CounterKey)
    ensures Noted([a, b], k) == Delta(a, k) + Delta(b, k)
  {
    assert [a, b][..1] == [a];
    NotedOne(a, k);
  }

  lemma UpdateByIdStores(rows: Rows, id: Id, set_: Doc)
    requires id in rows
    ensures UpdateWhere(rows, ById(id), set_, {}) == rows[id := rows[id] + set_]
  {
    assert rows[id] + set_ - {} == rows[id] + set_;
  }

  // ---------------------------------------------------------------- re-approval

  /** `listing` is some order in which `find` can return the picked rows. */
  ghost predicate Lists(rows: Rows, sel: Selector, listing: seq<Id>) {
    NoDup(listing) && forall id :: id in listing <==> id in Picked(rows, sel)
  }

  predicate NoSelfOriginals(rows: Rows) {
    forall id | id in rows :: !SelfOriginal(rows[id], id)
  }

  /** Verified rows are counted by their trash and request flags alone. */
  lemma VerifiedCountsAs(x: Doc, y: Doc)
    requires IsTrue(x, Verified) && IsTrue(y, Verified)
    requires Get(x, Trashed) == Get(y, Trashed)
    requires Get(x, RestoreRequested) == Get(y, RestoreRequested)
    requires Get(x, DeletionRequested) == Get(y, DeletionRequested)
    ensures forall k :: Hit(k, x) <==> Hit(k, y)
  {
    forall b: Badge ensures Member(b, x) <==> Member(b, y) {
    }
  }

  /** A re-approved row counts the same with or without the fields the note leaves out. */
  lemma ReApproveCovers(actor: Value, now: int)
    ensures Covers(ReApproveSet(actor, now), {}, RE_APPROVE_NOTE)
  {
    forall d: Doc
      ensures forall k :: Hit(k, Project(d) + RE_APPROVE_NOTE) <==>
        Hit(k, Modify(d, ReApproveSet(actor, now), {}))
    {
      VerifiedCountsAs(Project(d) + RE_APPROVE_NOTE, Modify(d, ReApproveSet(actor, now), {}));
    }
  }

  lemma ReApprovalMetaFields(pending: Doc, actor: Value, now: int, f: Field)
    ensures f in ReApprovalMeta(pending, actor, now) ==> IsReApprovalMeta(f)
  {
  }

  lemma CascadeVerifies(d: Doc, pending: Doc, actor: Value, now: int)
    ensures IsTrue(d + CascadeUpdates(pending, actor, now), Verified)
  {
    assert ReApprovalMeta(pending, actor, now)[Verified] == YES;
  }

  lemma CascadeKeepsField(d: Doc, pending: Doc, actor: Value, now: int, f: Field)
    requires !IsCascadeField(f) && !IsReApprovalMeta(f)
    ensures Get(d + CascadeUpdates(pending, actor, now), f) == Get(d, f)
  {
    ReApprovalMetaFields(pending, actor, now, f);
  }

  /** The fields a cascade writes, and those it leaves alone. */
  lemma CascadeLeavesTheRest(d: Doc, pending: Doc, actor: Value, now: int, f: Field)
    ensures IsTrue(d + CascadeUpdates(pending, actor, now), Verified)
    ensures !IsCascadeField(f) && !IsReApprovalMeta(f)
      ==> Get(d + CascadeUpdates(pending, actor, now), f) == Get(d, f)
  {
    CascadeVerifies(d, pending, actor, now);
    if !IsCascadeField(f) && !IsReApprovalMeta(f) { CascadeKeepsField(d, pending, actor, now, f); }
  }

  /** The flags of the trash and of the two request queues. */
  predicate IsQueueField(f: Field) { f.Trashed? || f.RestoreRequested? || f.DeletionRequested? }

  lemma CascadeKeepsQueueField(d: Doc, pending: Doc, actor: Value, now: int, f: Field)
    requires IsQueueField(f)
    ensures Get(d + CascadeUpdates(pending, actor, now), f) == Get(d, f)
  {
    CascadeKeepsField(d, pending, actor, now, f);
  }

  lemma CascadeKeepsRequests(d: Doc, pending: Doc, actor: Value, now: int)
    ensures var done := d + CascadeUpdates(pending, actor, now);
      && IsTrue(done, Verified)
      && Get(done, Trashed) == Get(d, Trashed)
      && Get(done, RestoreRequested) == Get(d, RestoreRequested)
      && Get(done, DeletionRequested) == Get(d, DeletionRequested)
  {
    CascadeVerifies(d, pending, actor, now);
    CascadeKeepsQueueField(d, pending, actor, now, Trashed);
    CascadeKeepsQueueField(d, pending, actor, now, RestoreRequested);
    CascadeKeepsQueueField(d, pending, actor, now, DeletionRequested);
  }

  lemma CascadeFollows(rows: Rows, id: Id, updates: Doc, k: CounterKey)
    requires id in rows && !SelfOriginal(rows[id], id)
    ensures Noted(CascadeNotes(rows, id, updates), k) ==
      Tally(CascadeInto(rows, id, updates), k) - Tally(rows, k)
  {
    var notes, after := CascadeNotes(rows, id, updates), CascadeInto(rows, id, updates);
    if notes == [] {
      assert after == rows;
    } else {
      var o := OriginalOf(rows, rows[id]).value;
      assert o != id;
      NotedFollowsRecount(rows, after, [o, id], notes, k);
    }
  }

  lemma SimpleReApprovalFollows(rows: Rows, id: Id, actor: Value, now: int, k: CounterKey)
    requires id in rows
    ensures Noted([Change(Some(rows[id]), Some(rows[id] + RE_APPROVE_NOTE))], k) ==
      Tally(rows[id := rows[id] + ReApproveSet(actor, now)], k) - Tally(rows, k)
  {
    VerifiedCountsAs(rows[id] + RE_APPROVE_NOTE, rows[id] + ReApproveSet(actor, now));
    NotedOne(Change(Some(rows[id]), Some(rows[id] + RE_APPROVE_NOTE)), k);
    TallyChangesAtOneRow(rows, rows[id := rows[id] + ReApproveSet(actor, now)], id, k);
  }

  /** Re-approval of one row follows the recount unless the row is its own original. */
  lemma ReApproveFollows(rows: Rows, id: Id, actor: Value, now: int, k: CounterKey)
    requires id in rows ==> !SelfOriginal(rows[id], id)
    ensures Noted(ReApproveNotes(rows, id, actor, now), k) ==
      Tally(ReApproved(rows, id, actor, now), k) - Tally(rows, k)
  {
    if id !in rows || !IsFalse(rows[id], Verified) {
    } else if Truthy(rows[id], OriginalTransactionId) {
      CascadeFollows(rows, id, CascadeUpdates(rows[id], actor, now), k);
    } else {
      SimpleReApprovalFollows(rows, id, actor, now, k);
    }
  }

  predicate CountedAsOpen(d: Doc) { InVerify(d) || InDrafts(d) || InParked(d) }

  /** Every counter moves by what the notes say exactly as the recount moves. */
  ghost predicate NotesFollow(notes: seq<Change>, before: Rows, after: Rows) {
    forall k :: Noted(notes, k) == Tally(after, k) - Tally(before, k)
  }

  /** An unverified open row that names itself as its original: re-approval deducts it
      once for the original and once for the clone. */
  predicate DeductedTwice(rows: Rows, id: Id) {
    id in rows && IsFalse(rows[id], Verified) && SelfOriginal(rows[id], id) && CountedAsOpen(rows[id])
  }

  /** Re-approval keeps the counters following the recount exactly when it does not deduct
      a row twice. */
  lemma ReApproveExact(rows: Rows, id: Id, actor: Value, now: int)
    ensures NotesFollow(ReApproveNotes(rows, id, actor, now), rows, ReApproved(rows, id, actor, now))
      <==> !DeductedTwice(rows, id)
  {
    if id in rows && IsFalse(rows[id], Verified) && SelfOriginal(rows[id], id) {
      SelfReApproval(rows, id, actor, now);
    } else if id in rows && SelfOriginal(rows[id], id) {
      assert ReApproved(rows, id, actor, now) == rows;
    } else {
      forall k { ReApproveFollows(rows, id, actor, now, k); }
    }
  }

  lemma SelfCascadeShape(rows: Rows, id: Id, updates: Doc)
    requires id in rows && SelfOriginal(rows[id], id) && rows[id] + updates != rows[id]
    ensures CascadeInto(rows, id, updates) == rows - {id}
    ensures CascadeNotes(rows, id, updates) ==
      [Change(Some(rows[id]), Some(rows[id] + updates)), Change(Some(rows[id]), None)]
  {
    assert OriginalOf(rows, rows[id]) == Some(id);
    assert rows[id := rows[id] + updates] - {id} == rows - {id};
  }

  lemma DoubleDeduction(rows: Rows, id: Id, done: Doc, k: CounterKey)
    requires id in rows
    ensures Noted([Change(Some(rows[id]), Some(done)), Change(Some(rows[id]), None)], k) ==
      Tally(rows - {id}, k) - Tally(rows, k) + Bit(Hit(k, done)) - Bit(Hit(k, rows[id]))
  {
    NotedTwo(Change(Some(rows[id]), Some(done)), Change(Some(rows[id]), None), k);
    TallyWithoutRow(rows, id, k);
  }

  lemma DoubleDeductionFollows(rows: Rows, id: Id, done: Doc)
    requires id in rows
    ensures NotesFollow([Change(Some(rows[id]), Some(done)), Change(Some(rows[id]), None)], rows, rows - {id})
      <==> forall k :: Hit(k, done) <==> Hit(k, rows[id])
  {
    forall k ensures Noted([Change(Some(rows[id]), Some(done)), Change(Some(rows[id]), None)], k) ==
      Tally(rows - {id}, k) - Tally(rows, k) + Bit(Hit(k, done)) - Bit(Hit(k, rows[id]))
    {
      DoubleDeduction(rows, id, done, k);
    }
  }

  lemma SelfCascadeExact(rows: Rows, id: Id, updates: Doc)
    requires id in rows && SelfOriginal(rows[id], id)
    requires IsFalse(rows[id], Verified) && IsTrue(rows[id] + updates, Verified)
    requires Get(rows[id] + updates, Trashed) == Get(rows[id], Trashed)
    requires Get(rows[id] + updates, RestoreRequested) == Get(rows[id], RestoreRequested)
    requires Get(rows[id] + updates, DeletionRequested) == Get(rows[id], DeletionRequested)
    ensures NotesFollow(CascadeNotes(rows, id, updates), rows, CascadeInto(rows, id, updates))
      <==> !CountedAsOpen(rows[id])
  {
    SelfCascadeShape(rows, id, updates);
    DoubleDeductionFollows(rows, id, rows[id] + updates);
    DoneCountsUnlessOpen(rows[id], rows[id] + updates);
  }

  lemma SelfReApproval(rows: Rows, id: Id, actor: Value, now: int)
    requires id in rows && IsFalse(rows[id], Verified) && SelfOriginal(rows[id], id)
    ensures NotesFollow(ReApproveNotes(rows, id, actor, now), rows, ReApproved(rows, id, actor, now))
      <==> !CountedAsOpen(rows[id])
  {
    var updates := CascadeUpdates(rows[id], actor, now);
    assert ReApproveNotes(rows, id, actor, now) == CascadeNotes(rows, id, updates);
    assert ReApproved(rows, id, actor, now) == CascadeInto(rows, id, updates);
    CascadeKeepsRequests(rows[id], rows[id], actor, now);
    SelfCascadeExact(rows, id, updates);
  }

  lemma DoneCountsUnlessOpen(d: Doc, done: Doc)
    requires IsFalse(d, Verified) && IsTrue(done, Verified)
    requires Get(done, Trashed) == Get(d, Trashed)
    requires Get(done, RestoreRequested) == Get(d, RestoreRequested)
    requires Get(done, DeletionRequested) == Get(d, DeletionRequested)
    ensures (forall k :: Hit(k, done) <==> Hit(k, d)) <==> !CountedAsOpen(d)
  {
    if CountedAsOpen(d) {
      var b := if InVerify(d) then Verify else if InDrafts(d) then Drafts else Parked;
      assert Hit(Total(b), d) && !Hit(Total(b), done);
    } else {
      forall b: Badge ensures Member(b, done) <==> Member(b, d) {
      }
    }
  }

  lemma SimpleKeepsLink(d: Doc, actor: Value, now: int)
    ensures Get(d + ReApproveSet(actor, now), OriginalTransactionId) == Get(d, OriginalTransactionId)
  {
  }

  lemma ReApprovalKeepsLinks(rows: Rows, id: Id, actor: Value, now: int, i: Id)
    requires i in ReApproved(rows, id, actor, now)
    ensures i in rows
    ensures Get(ReApproved(rows, id, actor, now)[i], OriginalTransactionId) ==
      Get(rows[i], OriginalTransactionId)
  {
    if id in rows {
      SimpleKeepsLink(rows[id], actor, now);
      CascadeKeepsField(rows[i], rows[id], actor, now, OriginalTransactionId);
    }
  }

  lemma ReApprovalKeepsNoSelfOriginals(rows: Rows, id: Id, actor: Value, now: int)
    requires NoSelfOriginals(rows)
    ensures NoSelfOriginals(ReApproved(rows, id, actor, now))
  {
    forall i | i in ReApproved(rows, id, actor, now)
      ensures !SelfOriginal(ReApproved(rows, id, actor, now)[i], i)
    {
      ReApprovalKeepsLinks(rows, id, actor, now, i);
    }
  }

  // ---------------------------------------------------------------- bulk patch

  lemma {:induction false} NotedAppend(a: seq<Change>, b: seq<Change>, k: CounterKey)
    ensures Noted(a + b, k) == Noted(a, k) + Noted(b, k)
    decreases |b|
  {
    if b == [] {
      assert a + b == a;
    } else {
      var n := |b| - 1;
      assert (a + b)[..|a + b| - 1] == a + b[..n];
      NotedAppend(a, b[..n], k);
    }
  }

  predicate DistinctIds(edits: seq<Edit>) {
    forall i, j | 0 <= i < j < |edits| :: edits[i].id != edits[j].id
  }

  lemma {:induction false} PatchAllElsewhere(rows: Rows, edits: seq<Edit>, id: Id)
    requires forall i | 0 <= i < |edits| :: edits[i].id != id
    ensures At(PatchAll(rows, edits), id) == At(rows, id)
    decreases |edits|
  {
    if edits != [] {
      PatchAllElsewhere(rows, edits[..|edits| - 1], id);
    }
  }

  /** The edit moves a row's cashier without touching a counted flag, so the handler
      forgets to note it. */
  predicate MovesSilently(e: Edit) {
    !TouchesBadges(e.values) && CashierId in e.values
  }

  lemma QuietEditKeepsHits(d: Doc, e: Edit)
    requires !TouchesBadges(e.values) && CashierId !in e.values
    ensures forall k :: Hit(k, d + e.values) <==> Hit(k, d)
  {
    SameCountedSameHits(d + e.values, d);
  }

  lemma NotedEditKeepsHits(d: Doc, e: Edit)
    ensures forall k :: Hit(k, Project(d) + e.values) <==> Hit(k, d + e.values)
  {
    SameCountedSameHits(Project(d) + e.values, d + e.values);
  }

  lemma PatchedRow(now: Rows, e: Edit, k: CounterKey)
    ensures Tally(UpdateWhere(now, ById(e.id), e.values, {}), k) - Tally(now, k) ==
      if e.id in now then Bit(Hit(k, now[e.id] + e.values)) - Bit(Hit(k, now[e.id])) else 0
  {
    if e.id in now {
      UpdateByIdStores(now, e.id, e.values);
      TallyChangesAtOneRow(now, now[e.id := now[e.id] + e.values], e.id, k);
    } else {
      assert UpdateWhere(now, ById(e.id), e.values, {}) == now;
    }
  }

  lemma PatchNotesOne(rows: Rows, e: Edit, k: CounterKey)
    ensures Noted(PatchNotes(rows, [e]), k) ==
      if TouchesBadges(e.values) && e.id in rows
      then Delta(Change(Some(Project(rows[e.id])), Some(Project(rows[e.id]) + e.values)), k) else 0
  {
    assert [e][..0] == [];
    if TouchesBadges(e.values) && e.id in rows {
      NotedOne(Change(Some(Project(rows[e.id])), Some(Project(rows[e.id]) + e.values)), k);
    }
  }

  predicate OnShelf(d: Doc) { InDrafts(d) || InParked(d) }

  lemma SameFlagsSameMembers(d: Doc, values: Doc)
    requires !TouchesBadges(values)
    ensures forall b :: Member(b, d + values) <==> Member(b, d)
  {
    var x := d + values;
    assert forall f | IsTouchField(f) :: Get(x, f) == Get(d, f);
    assert Get(x, Verified) == Get(d, Verified) && Get(x, RegisterStatus) == Get(d, RegisterStatus);
    assert Get(x, Rejected) == Get(d, Rejected) && Get(x, Discarded) == Get(d, Discarded);
    assert Get(x, Trashed) == Get(d, Trashed) && Get(x, RestoreRequested) == Get(d, RestoreRequested);
    assert Get(x, DeletionRequested) == Get(d, DeletionRequested);
    assert Get(x, EditedAfterVerification) == Get(d, EditedAfterVerification);
    forall b: Badge ensures Member(b, x) <==> Member(b, d) {
    }
  }

  // ---------------------------------------------------------------- resubmit

  /** A resubmitted row leaves the rejected rows, so no later entry for it matches. */
  lemma ResubmitOneRow(rows: Rows, scope: Value, now: int, e: Edit)
    ensures var after := ResubmitOne(rows, scope, now, e);
      && after.Keys == rows.Keys
      && (forall id | id in rows && id != e.id :: after[id] == rows[id])
      && (e.id in rows ==>
        if Picks(RejectedOf({e.id}, scope), e.id, rows[e.id])
        then IsTrue(rows[e.id], Rejected)
          && after[e.id] == rows[e.id] + (e.values + ResubmitMeta(scope, now))
          && IsFalse(after[e.id], Rejected)
        else after[e.id] == rows[e.id])
  {
    var sel := RejectedOf({e.id}, scope);
    if e.id in rows && Picks(sel, e.id, rows[e.id]) {
      assert Holds(sel.query.fields[Rejected], Get(rows[e.id], Rejected));
    }
  }

  lemma PayloadKeepsHits(d: Doc, payload: Doc)
    ensures forall k :: Hit(k, Project(d) + payload) <==> Hit(k, d + payload)
  {
    SameCountedSameHits(Project(d) + payload, d + payload);
  }

  /** The rows resubmitted so far, each with the change remembered for it. */
  ghost predicate Accounted(was: Rows, rows: Rows, done: seq<Id>, pairs: seq<Change>) {
    && NoDup(done) && |done| == |pairs|
    && (forall id | id in done :: id in rows && IsFalse(rows[id], Rejected))
    && (forall id | id !in done :: At(was, id) == At(rows, id))
    && (forall j | 0 <= j < |done| :: SpeaksFor(pairs[j], At(was, done[j]), At(rows, done[j])))
  }

  lemma ResubmitNext(rows: Rows, scope: Value, now: int, edits: seq<Edit>, i: nat)
    requires i < |edits|
    ensures ResubmitAll(rows, scope, now, edits[..i + 1]) ==
      ResubmitOne(ResubmitAll(rows, scope, now, edits[..i]), scope, now, edits[i])
  {
    assert edits[..i + 1][..i] == edits[..i];
  }

  predicate Resubmits(rows: Rows, scope: Value, e: Edit) {
    e.id in rows && Picks(RejectedOf({e.id}, scope), e.id, rows[e.id])
  }

  lemma ResubmitModifies(rows: Rows, scope: Value, now: int, e: Edit)
    ensures Resubmits(rows, scope, e) <==>
      |Modified(rows, RejectedOf({e.id}, scope), e.values + ResubmitMeta(scope, now), {})| != 0
  {
    ResubmitOneRow(rows, scope, now, e);
    var changed := Modified(rows, RejectedOf({e.id}, scope), e.values + ResubmitMeta(scope, now), {});
    if Resubmits(rows, scope, e) {
      assert e.id in changed;
    } else {
      assert changed == {};
    }
  }

  /** The rows that a resubmit puts back: those of its entries that are rejected when it
      starts, each once. */
  function Reopened(rows: Rows, scope: Value, edits: seq<Edit>): set<Id> {
    set e | e in edits && Resubmits(rows, scope, e) :: e.id
  }

  lemma ReopenedMore(rows: Rows, scope: Value, edits: seq<Edit>, i: nat)
    requires i < |edits|
    ensures Reopened(rows, scope, edits[..i + 1]) ==
      Reopened(rows, scope, edits[..i]) + if Resubmits(rows, scope, edits[i]) then {edits[i].id} else {}
  {
    assert edits[..i + 1] == edits[..i] + [edits[i]];
  }

  lemma {:induction false} ReopenedRow(rows: Rows, scope: Value, now: int, edits: seq<Edit>, i: nat, id: Id)
    requires i <= |edits|
    ensures var mid := ResubmitAll(rows, scope, now, edits[..i]);
      && (id in mid <==> id in rows)
      && (id in rows ==>
            if id in Reopened(rows, scope, edits[..i]) then IsFalse(mid[id], Rejected) else mid[id] == rows[id])
    decreases i
  {
    if i > 0 {
      var mid, e := ResubmitAll(rows, scope, now, edits[..i - 1]), edits[i - 1];
      ReopenedRow(rows, scope, now, edits, i - 1, id);
      ResubmitNext(rows, scope, now, edits, i - 1);
      ReopenedMore(rows, scope, edits, i - 1);
      ResubmitOneRow(mid, scope, now, e);
      if e.id == id && id !in Reopened(rows, scope, edits[..i - 1]) { SameRowResubmits(rows, mid, scope, e); }
    }
  }

  lemma ResubmitsRejected(rows: Rows, scope: Value, e: Edit)
    requires Resubmits(rows, scope, e)
    ensures IsTrue(rows[e.id], Rejected)
  {
    ResubmitOneRow(rows, scope, 0, e);
  }

  lemma SameRowResubmits(rows: Rows, mid: Rows, scope: Value, e: Edit)
    requires At(rows, e.id) == At(mid, e.id)
    ensures Resubmits(rows, scope, e) <==> Resubmits(mid, scope, e)
  {
    assert e.id in rows <==> e.id in mid;
  }

  /** An entry finds its row exactly when it is the first one for a row to reopen. */
  lemma FirstReopens(rows: Rows, scope: Value, now: int, edits: seq<Edit>, i: nat)
    requires i < |edits|
    ensures Resubmits(ResubmitAll(rows, scope, now, edits[..i]), scope, edits[i]) <==>
      Resubmits(rows, scope, edits[i]) && edits[i].id !in Reopened(rows, scope, edits[..i])
  {
    var mid, e := ResubmitAll(rows, scope, now, edits[..i]), edits[i];
    ReopenedRow(rows, scope, now, edits, i, e.id);
    if e.id in rows && e.id in Reopened(rows, scope, edits[..i]) {
      if Resubmits(mid, scope, e) { ResubmitsRejected(mid, scope, e); }
    } else {
      SameRowResubmits(rows, mid, scope, e);
    }
  }

  lemma ReopenedNext(rows: Rows, scope: Value, now: int, edits: seq<Edit>, i: nat)
    requires i < |edits|
    ensures |Reopened(rows, scope, edits[..i + 1])| == |Reopened(rows, scope, edits[..i])|
      + (if Resubmits(ResubmitAll(rows, scope, now, edits[..i]), scope, edits[i]) then 1 else 0)
  {
    FirstReopens(rows, scope, now, edits, i);
    ReopenedMore(rows, scope, edits, i);
    OneIdMore(Reopened(rows, scope, edits[..i]), edits[i].id);
  }

  lemma OneIdMore(ids: set<Id>, id: Id)
    ensures |ids + {id}| == |ids| + (if id in ids then 0 else 1) && |ids + {}| == |ids|
  {
    if id in ids { assert ids + {id} == ids; }
    assert ids + {} == ids;
  }

  lemma AccountedOne(was: Rows, rows: Rows, done: seq<Id>, pairs: seq<Change>,
      after: Rows, id: Id, c: Change)
    requires Accounted(was, rows, done, pairs) && id !in done
    requires after.Keys == rows.Keys && id in after && IsFalse(after[id], Rejected)
    requires forall i | i in rows && i != id :: after[i] == rows[i]
    requires SpeaksFor(c, At(was, id), At(after, id))
    ensures Accounted(was, after, done + [id], pairs + [c])
  {
    forall i | i !in done + [id] ensures At(was, i) == At(after, i) {
      assert i !in done && i != id;
    }
  }

  lemma ResubmitStep(
      was: Rows, rows: Rows, done: seq<Id>, pairs: seq<Change>, scope: Value, now: int, e: Edit)
    requires Accounted(was, rows, done, pairs)
    ensures var after := ResubmitOne(rows, scope, now, e);
      if Resubmits(rows, scope, e) then
        var payload := e.values + ResubmitMeta(scope, now);
        && e.id in was && e.id !in done
        && Accounted(was, after, done + [e.id], pairs +
             [Change(Some(Project(was[e.id])), Some(Project(was[e.id]) + payload))])
      else after == rows
  {
    ResubmitOneRow(rows, scope, now, e);
    if Resubmits(rows, scope, e) {
      assert e.id !in done;
      assert At(was, e.id) == At(rows, e.id);
      var payload := e.values + ResubmitMeta(scope, now);
      ProjectionKeepsHits(was[e.id]);
      PayloadKeepsHits(was[e.id], payload);
      AccountedOne(was, rows, done, pairs, ResubmitOne(rows, scope, now, e), e.id,
        Change(Some(Project(was[e.id])), Some(Project(was[e.id]) + payload)));
    }
  }

  // ---------------------------------------------------------------- deletion

  const SOFT_TRASH_NOTE: Doc :=
    map[Trashed := YES, DeletionRequested := NO, RestoreRequested := NO]
  const TRASHED_NOTE: Doc := map[Trashed := YES, DeletionRequested := NO]
  const ASK_DELETION_NOTE: Doc := map[DeletionRequested := YES]

  lemma SoftTrashCovers(actor: Value, now: int)
    ensures Covers(SoftTrashSet(actor, now), {}, SOFT_TRASH_NOTE)
  {
    SameCountedCovers(SoftTrashSet(actor, now), {}, SOFT_TRASH_NOTE);
  }

  lemma TrashCovers(actor: Value, now: int)
    ensures Covers(TrashSet(actor, now), {}, TRASHED_NOTE)
  {
    SameCountedCovers(TrashSet(actor, now), {}, TRASHED_NOTE);
  }

  lemma AskDeletionCovers(actor: Value, now: int)
    ensures Covers(AskDeletionSet(actor, now), {}, ASK_DELETION_NOTE)
  {
    SameCountedCovers(AskDeletionSet(actor, now), {}, ASK_DELETION_NOTE);
  }

  lemma TracksTransitive(c0: Counters, r0: Rows, c1: Counters, r1: Rows, c2: Counters, r2: Rows)
    requires Tracks(c0, r0, c1, r1) && Tracks(c1, r1, c2, r2)
    ensures Tracks(c0, r0, c2, r2)
  {
  }

  // ---------------------------------------------------------------- discarding

  /** "Discarded" is only ever said of rejected or verified rows. */
  predicate DiscardLaw(d: Doc) {
    IsTrue(d, Discarded) ==> IsTrue(d, Rejected) || IsTrue(d, Verified)
  }

  predicate DiscardLawHolds(rows: Rows) {
    forall id | id in rows :: DiscardLaw(rows[id])
  }

  /** Setting `discarded` on closed rows changes no counter. */
  lemma ClosedRowsIgnoreDiscarded(d: Doc, flag: Value)
    requires IsTrue(d, Rejected) || IsTrue(d, Verified)
    ensures forall k :: Hit(k, d[Discarded := flag]) <==> Hit(k, d)
  {
    var x := d[Discarded := flag];
    assert CashierKey(x) == CashierKey(d);
    forall b: Badge ensures Member(b, x) <==> Member(b, d) {
    }
  }

  lemma UpdateKeepsTallies(rows: Rows, sel: Selector, set_: Doc)
    requires forall id, k | id in rows && Picks(sel, id, rows[id]) ::
      Hit(k, Modify(rows[id], set_, {})) <==> Hit(k, rows[id])
    ensures forall k :: Tally(UpdateWhere(rows, sel, set_, {}), k) == Tally(rows, k)
  {
    forall k ensures Hits(UpdateWhere(rows, sel, set_, {}), k) == Hits(rows, k) {
    }
  }

  /** `discard_transactions` never adjusts the counters, and never has to. */
  lemma DiscardKeepsTallies(rows: Rows, ids: set<Id>, scope: Value)
    ensures forall k ::
      Tally(UpdateWhere(rows, RejectedOf(ids, scope), map[Discarded := YES], {}), k) == Tally(rows, k)
  {
    var sel := RejectedOf(ids, scope);
    forall id, k | id in rows && Picks(sel, id, rows[id])
      ensures Hit(k, Modify(rows[id], map[Discarded := YES], {})) <==> Hit(k, rows[id])
    {
      assert Holds(sel.query.fields[Rejected], Get(rows[id], Rejected));
      ClosedRowsIgnoreDiscarded(rows[id], YES);
      assert Modify(rows[id], map[Discarded := YES], {}) == rows[id][Discarded := YES];
    }
    UpdateKeepsTallies(rows, sel, map[Discarded := YES]);
  }

  /** Restoring discarded rows is free of adjustment wherever the discard law holds. */
  lemma RestoreDiscardedKeepsTallies(rows: Rows, ids: set<Id>, scope: Value)
    requires forall id | id in rows && Picks(DiscardedOf(ids, scope), id, rows[id]) :: DiscardLaw(rows[id])
    ensures forall k ::
      Tally(UpdateWhere(rows, DiscardedOf(ids, scope), map[Discarded := NO], {}), k) == Tally(rows, k)
  {
    var sel := DiscardedOf(ids, scope);
    forall id, k | id in rows && Picks(sel, id, rows[id])
      ensures Hit(k, Modify(rows[id], map[Discarded := NO], {})) <==> Hit(k, rows[id])
    {
      assert Holds(sel.query.fields[Discarded], Get(rows[id], Discarded));
      ClosedRowsIgnoreDiscarded(rows[id], NO);
      assert Modify(rows[id], map[Discarded := NO], {}) == rows[id][Discarded := NO];
    }
    UpdateKeepsTallies(rows, sel, map[Discarded := NO]);
  }

  /** The row asked for is trashed by the one write meant for it, if it is still there. */
  lemma TrashesOne(rows: Rows, id: Id, actor: Value, now: int)
    ensures var changed := Modified(rows, DeletionAsked(id), TrashSet(actor, now), {});
      |changed| == 1 <==> id in rows && Picks(DeletionAsked(id), id, rows[id])
  {
    var changed := Modified(rows, DeletionAsked(id), TrashSet(actor, now), {});
    if id in rows && Picks(DeletionAsked(id), id, rows[id]) {
      RequestMeaning(rows[id]);
      assert IsTrue(Modify(rows[id], TrashSet(actor, now), {}), Trashed);
      assert changed == {id};
    } else {
      assert changed == {};
    }
  }
}
