/** Handlers that write counted rows and never touch the counters: exactly which
    inputs leave the stored document right. */
module Unadjusted {
  import opened Mongo
  import opened Badges
  import opened Lifecycle
  import opened Composite

  /** Some badge counts the document. */
  predicate Counted(d: Doc) {
    InVerify(d) || InDrafts(d) || InParked(d) || InDeletionRequests(d) || InRestoreRequests(d)
  }

  lemma CountedMeansHit(d: Doc)
    ensures Counted(d) <==> exists k :: Hit(k, d)
  {
    if Counted(d) {
      var b := if InVerify(d) then Verify else if InDrafts(d) then Drafts else if InParked(d) then Parked
        else if InDeletionRequests(d) then DeletionRequests else RestoreRequests;
      assert Hit(Total(b), d);
    }
  }

  lemma TallyOnSubset(rows: Rows, less: Rows, k: CounterKey)
    requires forall id | id in less :: id in rows && rows[id] == less[id]
    ensures Hits(less, k) <= Hits(rows, k)
    ensures Tally(less, k) <= Tally(rows, k)
  {
    SubsetSize(Hits(less, k), Hits(rows, k));
  }

  lemma SubsetSize<T>(a: set<T>, b: set<T>)
    requires a <= b
    ensures |a| <= |b|
    ensures |a| == |b| ==> a == b
  {
    assert b == a + (b - a);
  }

  /** Deleting without a note is right exactly when nothing counted was deleted
      (`delete_discarded_transactions`, `delete_daily_upload`). */
  lemma QuietDeleteExact(rows: Rows, sel: Selector)
    ensures NotesFollow([], rows, DeleteWhere(rows, sel)) <==>
      forall id | id in rows && Picks(sel, id, rows[id]) :: !Counted(rows[id])
  {
    var after := DeleteWhere(rows, sel);
    forall k ensures Tally(after, k) == Tally(rows, k) <==> Hits(after, k) == Hits(rows, k) {
      TallyOnSubset(rows, after, k);
      SubsetSize(Hits(after, k), Hits(rows, k));
    }
    forall id | id in rows { CountedMeansHit(rows[id]); }
    if id :| id in rows && Picks(sel, id, rows[id]) && Counted(rows[id]) {
      var k :| Hit(k, rows[id]);
      assert id in Hits(rows, k) && id !in Hits(after, k);
      assert Tally(after, k) != Tally(rows, k);
    } else {
      forall k ensures Tally(after, k) == Tally(rows, k) {
        assert Hits(after, k) == Hits(rows, k);
      }
    }
  }

  /** What every import stores: verified rows outside trash and deletion requests. */
  predicate Imported(d: Doc) {
    IsTrue(d, Verified) && IsFalse(d, DeletionRequested) && IsFalse(d, Trashed)
  }

  /** Imports never adjust the counters, and never have to. */
  lemma ImportsNeedNoNote(rows: Rows, more: Rows)
    requires forall id | id in more :: id !in rows && Imported(more[id])
    ensures NotesFollow([], rows, rows + more)
  {
    var after: Rows := rows + more;
    forall k ensures Tally(after, k) == Tally(rows, k) {
      forall id | id in more { CountedMeansHit(more[id]); }
      assert Hits(after, k) == Hits(rows, k);
    }
  }

  /** An update that takes every picked row out of one badge drifts that badge by the
      number of picked rows. */
  lemma LeavingDrift(rows: Rows, sel: Selector, set_: Doc, b: Badge)
    requires forall id | id in rows && Picks(sel, id, rows[id]) ::
      Member(b, rows[id]) && !Member(b, rows[id] + set_)
    ensures Tally(UpdateWhere(rows, sel, set_, {}), Total(b)) ==
      Tally(rows, Total(b)) - |Picked(rows, sel)|
  {
    var after, k, picked := UpdateWhere(rows, sel, set_, {}), Total(b), Picked(rows, sel);
    forall id | id in rows && Picks(sel, id, rows[id]) ensures !Hit(k, after[id]) {
      assert after[id] == rows[id] + set_;
    }
    assert Hits(rows, k) == Hits(after, k) + picked;
    assert Hits(after, k) !! picked;
  }

  lemma EnteringDrift(rows: Rows, sel: Selector, set_: Doc, b: Badge)
    requires forall id | id in rows && Picks(sel, id, rows[id]) ::
      !Member(b, rows[id]) && Member(b, rows[id] + set_)
    ensures Tally(UpdateWhere(rows, sel, set_, {}), Total(b)) ==
      Tally(rows, Total(b)) + |Picked(rows, sel)|
  {
    var after, k, picked := UpdateWhere(rows, sel, set_, {}), Total(b), Picked(rows, sel);
    forall id | id in rows && Picks(sel, id, rows[id]) ensures Hit(k, after[id]) {
      assert after[id] == rows[id] + set_;
    }
    assert Hits(after, k) == Hits(rows, k) + picked;
    assert Hits(rows, k) !! picked;
  }

  function Asked(ids: set<Id>): Selector {
    Selector(Some(ids), DeletionBaseMatch())
  }

  /** Answering deletion requests lowers their badge by one for every row answered. */
  lemma AnsweredDrift(rows: Rows, ids: set<Id>, set_: Doc)
    requires forall d: Doc :: !InDeletionRequests(d + set_)
    ensures Tally(UpdateWhere(rows, Asked(ids), set_, {}), Total(DeletionRequests)) ==
      Tally(rows, Total(DeletionRequests)) - |Picked(rows, Asked(ids))|
  {
    forall id | id in rows { RequestMeaning(rows[id]); }
    LeavingDrift(rows, Asked(ids), set_, DeletionRequests);
  }

  lemma AnsweredExact(rows: Rows, ids: set<Id>, set_: Doc)
    requires forall d: Doc :: !InDeletionRequests(d + set_)
    ensures NotesFollow([], rows, UpdateWhere(rows, Asked(ids), set_, {})) <==> Picked(rows, Asked(ids)) == {}
  {
    AnsweredDrift(rows, ids, set_);
    NothingPicked(rows, Asked(ids), set_);
    assert Noted([], Total(DeletionRequests)) == 0;
  }

  /** `bulk_restore_deletions`. */
  lemma QuietRestoreDeletions(rows: Rows, ids: set<Id>)
    ensures NotesFollow([], rows, UpdateWhere(rows, Asked(ids), CLEAR_DELETION, {}))
      <==> Picked(rows, Asked(ids)) == {}
  {
    AnsweredExact(rows, ids, CLEAR_DELETION);
  }

  lemma NothingPicked(rows: Rows, sel: Selector, set_: Doc)
    ensures Picked(rows, sel) == {} ==> UpdateWhere(rows, sel, set_, {}) == rows
  {
    if Picked(rows, sel) == {} {
      forall id | id in rows ensures UpdateWhere(rows, sel, set_, {})[id] == rows[id] {
        assert id !in Picked(rows, sel);
      }
    }
  }

  function BulkRestoreAsk(ids: set<Id>, actor: Value): Selector {
    OwnTrash(ids, map[Trashed := Is(YES), Verified := Is(YES), RestoreRequested := IsNot(YES)], actor)
  }

  /** `bulk_request_restore_from_trash`. */
  lemma QuietRequestRestore(rows: Rows, ids: set<Id>, actor: Value, now: int)
    ensures var sel := BulkRestoreAsk(ids, actor);
      && Tally(UpdateWhere(rows, sel, AskRestoreSet(actor, now), {}), Total(RestoreRequests)) ==
        Tally(rows, Total(RestoreRequests)) + |Picked(rows, sel)|
      && (NotesFollow([], rows, UpdateWhere(rows, sel, AskRestoreSet(actor, now), {}))
          <==> Picked(rows, sel) == {})
  {
    var sel := BulkRestoreAsk(ids, actor);
    forall id | id in rows && Picks(sel, id, rows[id])
      ensures !InRestoreRequests(rows[id]) && InRestoreRequests(rows[id] + AskRestoreSet(actor, now))
    {
      var q := sel.query.fields;
      assert Holds(q[Trashed], Get(rows[id], Trashed));
      assert Holds(q[RestoreRequested], Get(rows[id], RestoreRequested));
    }
    EnteringDrift(rows, sel, AskRestoreSet(actor, now), RestoreRequests);
    NothingPicked(rows, sel, AskRestoreSet(actor, now));
  }

  /** `{"original_transaction_id": {"$in": ids}}`. */
  function ClonesOfAny(ids: seq<Id>): Selector {
    Selector(None, Fields(map[OriginalTransactionId :=
      OneOf(seq(|ids|, i requires 0 <= i < |ids| => Oid(ids[i])))]))
  }

  function Among(ids: seq<Id>): set<Id> { set id | id in ids }

  /** `bulk_confirm_deletions`: clones deleted, requested rows trashed, nothing noted. */
  function BulkConfirmed(rows: Rows, ids: seq<Id>, actor: Value, now: int): Rows {
    UpdateWhere(DeleteWhere(rows, ClonesOfAny(ids)), Asked(Among(ids)), TrashSet(actor, now), {})
  }

  /** Right exactly when no counted clone was deleted and no remaining row was asked for. */
  lemma QuietConfirmExact(rows: Rows, ids: seq<Id>, actor: Value, now: int)
    ensures NotesFollow([], rows, BulkConfirmed(rows, ids, actor, now)) <==>
      && (forall id | id in rows && Picks(ClonesOfAny(ids), id, rows[id]) :: !Counted(rows[id]))
      && Picked(DeleteWhere(rows, ClonesOfAny(ids)), Asked(Among(ids))) == {}
  {
    var mid := DeleteWhere(rows, ClonesOfAny(ids));
    QuietDeleteExact(rows, ClonesOfAny(ids));
    DeleteThenAnswer(rows, mid, Among(ids), TrashSet(actor, now));
  }

  lemma DeleteThenAnswer(rows: Rows, mid: Rows, ids: set<Id>, set_: Doc)
    requires forall id | id in mid :: id in rows && rows[id] == mid[id]
    requires forall d: Doc :: !InDeletionRequests(d + set_)
    ensures NotesFollow([], rows, UpdateWhere(mid, Asked(ids), set_, {})) <==>
      NotesFollow([], rows, mid) && Picked(mid, Asked(ids)) == {}
  {
    AnsweredDrift(mid, ids, set_);
    NothingPicked(mid, Asked(ids), set_);
    TallyOnSubset(rows, mid, Total(DeletionRequests));
    assert Noted([], Total(DeletionRequests)) == 0;
  }

  // ---------------------------------------------------------------- aborted resubmit

  function Payload(scope: Value, now: int, e: Edit): Doc { e.values + ResubmitMeta(scope, now) }

  /** What one entry does to a counter's recount. */
  function EntryShift(rows: Rows, scope: Value, now: int, e: Edit, k: CounterKey): int {
    if Resubmits(rows, scope, e)
    then Bit(Hit(k, rows[e.id] + Payload(scope, now, e))) - Bit(Hit(k, rows[e.id])) else 0
  }

  /** Rows that enter a counter minus rows that leave it, entry by entry, each entry
      facing the rows that the earlier ones left. */
  function Shift(rows: Rows, scope: Value, now: int, edits: seq<Edit>, k: CounterKey): int {
    if edits == [] then 0
    else
      var rest := edits[..|edits| - 1];
      Shift(rows, scope, now, rest, k)
        + EntryShift(ResubmitAll(rows, scope, now, rest), scope, now, edits[|edits| - 1], k)
  }

  lemma EntryDrift(rows: Rows, scope: Value, now: int, e: Edit, k: CounterKey)
    ensures Tally(ResubmitOne(rows, scope, now, e), k) - Tally(rows, k) == EntryShift(rows, scope, now, e, k)
  {
    var after := ResubmitOne(rows, scope, now, e);
    ResubmitOneRow(rows, scope, now, e);
    if Resubmits(rows, scope, e) {
      assert rows - {e.id} == after - {e.id};
      TallyChangesAtOneRow(rows, after, e.id, k);
    } else {
      assert after == rows;
    }
  }

  /** The drift an aborted resubmit leaves in every counter, for any entries. */
  lemma {:induction false} ResubmitDrift(rows: Rows, scope: Value, now: int, edits: seq<Edit>, k: CounterKey)
    ensures Tally(ResubmitAll(rows, scope, now, edits), k) - Tally(rows, k) == Shift(rows, scope, now, edits, k)
    decreases |edits|
  {
    if edits != [] {
      var rest := edits[..|edits| - 1];
      ResubmitDrift(rows, scope, now, rest, k);
      EntryDrift(ResubmitAll(rows, scope, now, rest), scope, now, edits[|edits| - 1], k);
    }
  }

  /** Entry `i` resubmits a row that comes back to an open list. */
  predicate Reopens(rows: Rows, scope: Value, now: int, edits: seq<Edit>, i: nat)
    requires i < |edits|
  {
    var mid := ResubmitAll(rows, scope, now, edits[..i]);
    Resubmits(mid, scope, edits[i]) && CountedAsOpen(mid[edits[i].id] + Payload(scope, now, edits[i]))
  }

  /** Counters of open rows; rejected rows are in none of them. */
  predicate OpenKey(k: CounterKey) {
    k.PerCashier? || k.badge.Verify? || k.badge.Edited? || k.badge.Drafts? || k.badge.Parked?
  }

  lemma OpenKeyMeans(d: Doc, k: CounterKey)
    requires OpenKey(k)
    ensures Hit(k, d) ==> CountedAsOpen(d)
    ensures CountedAsOpen(d) ==> !IsTrue(d, Rejected)
  {
  }

  /** An entry never takes a row out of an open list, and brings none in unless it reopens. */
  lemma EntryOnlyOpens(rows: Rows, scope: Value, now: int, e: Edit, k: CounterKey)
    requires OpenKey(k)
    ensures EntryShift(rows, scope, now, e, k) >= 0
    ensures EntryShift(rows, scope, now, e, k) > 0 ==>
      Resubmits(rows, scope, e) && CountedAsOpen(rows[e.id] + Payload(scope, now, e))
  {
    ResubmitOneRow(rows, scope, now, e);
    if Resubmits(rows, scope, e) {
      OpenKeyMeans(rows[e.id], k);
      OpenKeyMeans(rows[e.id] + Payload(scope, now, e), k);
    }
  }

  ghost predicate NothingReopens(rows: Rows, scope: Value, now: int, edits: seq<Edit>) {
    forall i | 0 <= i < |edits| :: !Reopens(rows, scope, now, edits, i)
  }

  lemma NothingReopensBefore(rows: Rows, scope: Value, now: int, edits: seq<Edit>)
    requires edits != [] && NothingReopens(rows, scope, now, edits)
    ensures NothingReopens(rows, scope, now, edits[..|edits| - 1])
  {
    var n := |edits| - 1;
    forall i | 0 <= i < n ensures !Reopens(rows, scope, now, edits[..n], i) {
      assert edits[..n][..i] == edits[..i] && !Reopens(rows, scope, now, edits, i);
    }
  }

  lemma {:induction false} OpenShift(rows: Rows, scope: Value, now: int, edits: seq<Edit>, k: CounterKey)
    requires OpenKey(k)
    ensures Shift(rows, scope, now, edits, k) >= 0
    ensures NothingReopens(rows, scope, now, edits) ==> Shift(rows, scope, now, edits, k) == 0
    decreases |edits|
  {
    if edits != [] {
      var n := |edits| - 1;
      OpenShift(rows, scope, now, edits[..n], k);
      EntryOnlyOpens(ResubmitAll(rows, scope, now, edits[..n]), scope, now, edits[n], k);
      if NothingReopens(rows, scope, now, edits) {
        NothingReopensBefore(rows, scope, now, edits);
        assert !Reopens(rows, scope, now, edits, n);
      }
    }
  }

  /** The open list that a reopened row joins. */
  function JoinedBadge(d: Doc): Badge {
    if InVerify(d) then Verify else if InDrafts(d) then Drafts else Parked
  }

  lemma ReopenedShows(rows: Rows, scope: Value, now: int, edits: seq<Edit>, i: nat)
    requires i < |edits| && Reopens(rows, scope, now, edits, i)
    ensures exists b: Badge :: Shift(rows, scope, now, edits, Total(b)) > 0
    decreases |edits|
  {
    var mid, e := ResubmitAll(rows, scope, now, edits[..i]), edits[i];
    var k := Total(JoinedBadge(mid[e.id] + Payload(scope, now, e)));
    ResubmitOneRow(mid, scope, now, e);
    OpenKeyMeans(mid[e.id], k);
    assert EntryShift(mid, scope, now, e, k) == 1;
    assert edits[..i + 1][..i] == edits[..i];
    OpenShift(rows, scope, now, edits[..i], k);
    ShiftGrows(rows, scope, now, edits, i + 1, k);
  }

  lemma {:induction false} ShiftGrows(rows: Rows, scope: Value, now: int, edits: seq<Edit>, i: nat, k: CounterKey)
    requires i <= |edits| && OpenKey(k)
    ensures Shift(rows, scope, now, edits[..i], k) <= Shift(rows, scope, now, edits, k)
    decreases |edits|
  {
    if i == |edits| {
      assert edits[..i] == edits;
    } else {
      var rest := edits[..|edits| - 1];
      assert rest[..i] == edits[..i];
      ShiftGrows(rows, scope, now, rest, i, k);
      LastShiftGrows(rows, scope, now, edits, k);
    }
  }

  lemma LastShiftGrows(rows: Rows, scope: Value, now: int, edits: seq<Edit>, k: CounterKey)
    requires edits != [] && OpenKey(k)
    ensures Shift(rows, scope, now, edits[..|edits| - 1], k) <= Shift(rows, scope, now, edits, k)
  {
    EntryOnlyOpens(ResubmitAll(rows, scope, now, edits[..|edits| - 1]), scope, now, edits[|edits| - 1], k);
  }

  /** Losing the notes of these entries does no harm: none brings a row back to an open
      list, and in each request queue as many of the rows arrive as leave. */
  ghost predicate AbortIsHarmless(rows: Rows, scope: Value, now: int, edits: seq<Edit>) {
    && NothingReopens(rows, scope, now, edits)
    && Shift(rows, scope, now, edits, Total(DeletionRequests)) == 0
    && Shift(rows, scope, now, edits, Total(RestoreRequests)) == 0
  }

  ghost predicate NothingShifts(rows: Rows, scope: Value, now: int, edits: seq<Edit>) {
    forall k :: Shift(rows, scope, now, edits, k) == 0
  }

  lemma NoNotesNoShift(rows: Rows, scope: Value, now: int, edits: seq<Edit>)
    ensures NotesFollow([], rows, ResubmitAll(rows, scope, now, edits)) <==> NothingShifts(rows, scope, now, edits)
  {
    forall k ensures Noted([], k) == 0 && Tally(ResubmitAll(rows, scope, now, edits), k) - Tally(rows, k) ==
      Shift(rows, scope, now, edits, k)
    {
      ResubmitDrift(rows, scope, now, edits, k);
    }
  }

  lemma HarmlessKeepsCounter(rows: Rows, scope: Value, now: int, edits: seq<Edit>, k: CounterKey)
    requires AbortIsHarmless(rows, scope, now, edits)
    ensures Shift(rows, scope, now, edits, k) == 0
  {
    if OpenKey(k) {
      OpenShift(rows, scope, now, edits, k);
    } else {
      assert k == Total(DeletionRequests) || k == Total(RestoreRequests);
    }
  }

  lemma ReopeningShifts(rows: Rows, scope: Value, now: int, edits: seq<Edit>, i: nat)
    requires i < |edits| && Reopens(rows, scope, now, edits, i)
    ensures !NothingShifts(rows, scope, now, edits)
  {
    ReopenedShows(rows, scope, now, edits, i);
    var b: Badge :| Shift(rows, scope, now, edits, Total(b)) > 0;
    assert Shift(rows, scope, now, edits, Total(b)) != 0;
  }

  lemma HarmlessMeansNoShift(rows: Rows, scope: Value, now: int, edits: seq<Edit>)
    ensures NothingShifts(rows, scope, now, edits) <==> AbortIsHarmless(rows, scope, now, edits)
  {
    if AbortIsHarmless(rows, scope, now, edits) {
      forall k ensures Shift(rows, scope, now, edits, k) == 0 { HarmlessKeepsCounter(rows, scope, now, edits, k); }
    }
    if NothingShifts(rows, scope, now, edits) {
      forall i | 0 <= i < |edits| ensures !Reopens(rows, scope, now, edits, i) {
        if Reopens(rows, scope, now, edits, i) { ReopeningShifts(rows, scope, now, edits, i); }
      }
    }
  }

  /** A resubmit that raises after these entries were written leaves the counters right
      exactly when its abort is harmless, whatever fields the entries carry. */
  lemma LostResubmitExact(rows: Rows, scope: Value, now: int, edits: seq<Edit>)
    ensures NotesFollow([], rows, ResubmitAll(rows, scope, now, edits)) <==>
      AbortIsHarmless(rows, scope, now, edits)
  {
    NoNotesNoShift(rows, scope, now, edits);
    HarmlessMeansNoShift(rows, scope, now, edits);
  }

  /** Entries that carry no counted flag leave both request queues alone, so there the
      abort is harmless exactly when no row is reopened. */
  lemma QuietAbortExact(rows: Rows, scope: Value, now: int, edits: seq<Edit>)
    requires forall i | 0 <= i < |edits| :: !TouchesBadges(edits[i].values)
    ensures NotesFollow([], rows, ResubmitAll(rows, scope, now, edits)) <==>
      forall i | 0 <= i < |edits| :: !Reopens(rows, scope, now, edits, i)
  {
    LostResubmitExact(rows, scope, now, edits);
    QuietEntriesKeepQueues(rows, scope, now, edits);
  }

  lemma {:induction false} QuietEntriesKeepQueues(rows: Rows, scope: Value, now: int, edits: seq<Edit>)
    requires forall i | 0 <= i < |edits| :: !TouchesBadges(edits[i].values)
    ensures Shift(rows, scope, now, edits, Total(DeletionRequests)) == 0
    ensures Shift(rows, scope, now, edits, Total(RestoreRequests)) == 0
    decreases |edits|
  {
    if edits != [] {
      var n := |edits| - 1;
      QuietEntriesKeepQueues(rows, scope, now, edits[..n]);
      QuietEntryKeepsQueues(ResubmitAll(rows, scope, now, edits[..n]), scope, now, edits[n]);
    }
  }

  lemma QuietEntryKeepsQueues(rows: Rows, scope: Value, now: int, e: Edit)
    requires !TouchesBadges(e.values)
    ensures EntryShift(rows, scope, now, e, Total(DeletionRequests)) == 0
    ensures EntryShift(rows, scope, now, e, Total(RestoreRequests)) == 0
  {
    if Resubmits(rows, scope, e) {
      var d, d' := rows[e.id], rows[e.id] + Payload(scope, now, e);
      assert Get(d', Trashed) == Get(d, Trashed) && Get(d', DeletionRequested) == Get(d, DeletionRequested)
        && Get(d', RestoreRequested) == Get(d, RestoreRequested);
    }
  }

  // ---------------------------------------------------------------- restored discards

  /** `restore_discarded_transactions` never adjusts: right exactly when no row it restores
      comes back to a draft or parked shelf. (The inbox counts discarded rows too.) */
  lemma RestoreDiscardedExact(rows: Rows, ids: set<Id>, scope: Value)
    ensures NotesFollow([], rows, UpdateWhere(rows, DiscardedOf(ids, scope), map[Discarded := NO], {})) <==>
      forall id | id in rows && Picks(DiscardedOf(ids, scope), id, rows[id]) ::
        !OnShelf(rows[id][Discarded := NO])
  {
    var sel := DiscardedOf(ids, scope);
    var after: Rows := UpdateWhere(rows, sel, map[Discarded := NO], {});
    if id :| id in rows && Picks(sel, id, rows[id]) && OnShelf(rows[id][Discarded := NO]) {
      var k := Total(if InDrafts(rows[id][Discarded := NO]) then Drafts else Parked);
      RestoreOnlyShelves(rows, ids, scope, k);
      RestoredRow(rows, ids, scope, id, k);
      SubsetSize(Hits(rows, k), Hits(after, k));
      assert id in Hits(after, k) && id !in Hits(rows, k);
      assert Tally(after, k) != Tally(rows, k);
    } else {
      forall k ensures Tally(after, k) == Tally(rows, k) {
        RestoreOnlyShelves(rows, ids, scope, k);
      }
    }
  }

  lemma RestoredRow(rows: Rows, ids: set<Id>, scope: Value, id: Id, k: CounterKey)
    requires id in rows && Picks(DiscardedOf(ids, scope), id, rows[id])
    ensures UpdateWhere(rows, DiscardedOf(ids, scope), map[Discarded := NO], {})[id] == rows[id][Discarded := NO]
    ensures !OnShelf(rows[id])
    ensures Hit(k, rows[id]) ==> Hit(k, rows[id][Discarded := NO])
    ensures !OnShelf(rows[id][Discarded := NO]) ==> (Hit(k, rows[id][Discarded := NO]) <==> Hit(k, rows[id]))
  {
    assert Holds(DiscardedOf(ids, scope).query.fields[Discarded], Get(rows[id], Discarded));
    assert rows[id] + map[Discarded := NO] - {} == rows[id][Discarded := NO];
  }

  lemma RestoreOnlyShelves(rows: Rows, ids: set<Id>, scope: Value, k: CounterKey)
    ensures var after := UpdateWhere(rows, DiscardedOf(ids, scope), map[Discarded := NO], {});
      && Hits(rows, k) <= Hits(after, k)
      && ((forall id | id in rows && Picks(DiscardedOf(ids, scope), id, rows[id]) ::
             !OnShelf(rows[id][Discarded := NO])) ==> Hits(after, k) == Hits(rows, k))
  {
    forall id | id in rows && Picks(DiscardedOf(ids, scope), id, rows[id]) {
      RestoredRow(rows, ids, scope, id, k);
    }
  }
}
