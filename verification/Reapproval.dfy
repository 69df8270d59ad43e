/** Bulk re-approval: what the cascades of a list over-deduct, and exactly when they do not. */
module Reapproval {
  import opened Mongo
  import opened Badges
  import opened Lifecycle
  import opened Coverage
  import opened Composite
  import opened Unadjusted

  /** What the notes of one re-approval say beyond the recount. */
  function Overcount(rows: Rows, id: Id, actor: Value, now: int, k: CounterKey): int {
    Noted(ReApproveNotes(rows, id, actor, now), k) - Tally(ReApproved(rows, id, actor, now), k) + Tally(rows, k)
  }

  lemma OnceIsExact(rows: Rows, id: Id, actor: Value, now: int, k: CounterKey)
    requires !DeductedTwice(rows, id)
    ensures Overcount(rows, id, actor, now, k) == 0
  {
    ReApproveExact(rows, id, actor, now);
    assert NotesFollow(ReApproveNotes(rows, id, actor, now), rows, ReApproved(rows, id, actor, now));
  }

  /** A row deducted twice leaves the counters of open rows too low by what it counted. */
  lemma TwiceIsTooLow(rows: Rows, id: Id, actor: Value, now: int, k: CounterKey)
    requires DeductedTwice(rows, id) && OpenKey(k)
    ensures Overcount(rows, id, actor, now, k) == - Bit(Hit(k, rows[id]))
  {
    SelfReApprovalIsCascade(rows, id, actor, now);
    CascadeVerifies(rows[id], rows[id], actor, now);
    TwiceByCascade(rows, id, CascadeUpdates(rows[id], actor, now), k);
  }

  lemma SelfReApprovalIsCascade(rows: Rows, id: Id, actor: Value, now: int)
    requires DeductedTwice(rows, id)
    ensures ReApproveNotes(rows, id, actor, now) == CascadeNotes(rows, id, CascadeUpdates(rows[id], actor, now))
    ensures ReApproved(rows, id, actor, now) == CascadeInto(rows, id, CascadeUpdates(rows[id], actor, now))
  {
  }

  lemma TwiceByCascade(rows: Rows, id: Id, updates: Doc, k: CounterKey)
    requires DeductedTwice(rows, id) && OpenKey(k) && IsTrue(rows[id] + updates, Verified)
    ensures Noted(CascadeNotes(rows, id, updates), k) ==
      Tally(CascadeInto(rows, id, updates), k) - Tally(rows, k) - Bit(Hit(k, rows[id]))
  {
    SelfCascadeShape(rows, id, updates);
    DoubleDeduction(rows, id, rows[id] + updates, k);
    VerifiedIsNotOpen(rows[id] + updates, k);
  }

  lemma VerifiedIsNotOpen(d: Doc, k: CounterKey)
    requires IsTrue(d, Verified) && OpenKey(k)
    ensures !Hit(k, d)
  {
  }

  /** The same for a list, each entry facing the rows that the earlier ones left. */
  function OvercountAll(rows: Rows, ids: seq<Id>, actor: Value, now: int, k: CounterKey): int {
    if ids == [] then 0
    else
      var rest := ids[..|ids| - 1];
      OvercountAll(rows, rest, actor, now, k)
        + Overcount(ReApprovedAll(rows, rest, actor, now), ids[|ids| - 1], actor, now, k)
  }

  /** Entry `i` of the list is deducted twice when its turn comes. */
  predicate TwiceAt(rows: Rows, ids: seq<Id>, actor: Value, now: int, i: nat)
    requires i < |ids|
  {
    DeductedTwice(ReApprovedAll(rows, ids[..i], actor, now), ids[i])
  }

  ghost predicate NeverTwice(rows: Rows, ids: seq<Id>, actor: Value, now: int) {
    forall i | 0 <= i < |ids| :: !TwiceAt(rows, ids, actor, now, i)
  }

  lemma NeverTwiceBefore(rows: Rows, ids: seq<Id>, actor: Value, now: int)
    requires ids != []
    ensures NeverTwice(rows, ids, actor, now) <==>
      NeverTwice(rows, ids[..|ids| - 1], actor, now) && !TwiceAt(rows, ids, actor, now, |ids| - 1)
  {
    var n := |ids| - 1;
    forall i | 0 <= i < n
      ensures TwiceAt(rows, ids[..n], actor, now, i) <==> TwiceAt(rows, ids, actor, now, i)
    {
      assert ids[..n][..i] == ids[..i];
    }
    if NeverTwice(rows, ids[..n], actor, now) && !TwiceAt(rows, ids, actor, now, n) {
      forall i | 0 <= i < |ids| ensures !TwiceAt(rows, ids, actor, now, i) {
        assert i < n ==> !TwiceAt(rows, ids[..n], actor, now, i);
      }
    }
  }

  lemma {:induction false} NeverTwiceIsExact(rows: Rows, ids: seq<Id>, actor: Value, now: int, k: CounterKey)
    requires NeverTwice(rows, ids, actor, now)
    ensures OvercountAll(rows, ids, actor, now, k) == 0
    decreases |ids|
  {
    if ids != [] {
      var n := |ids| - 1;
      NeverTwiceBefore(rows, ids, actor, now);
      NeverTwiceIsExact(rows, ids[..n], actor, now, k);
      OnceIsExact(ReApprovedAll(rows, ids[..n], actor, now), ids[n], actor, now, k);
    }
  }

  /** Counters of open rows never come out too high, whatever the list. */
  lemma {:induction false} OpenNeverTooHigh(rows: Rows, ids: seq<Id>, actor: Value, now: int, k: CounterKey)
    requires OpenKey(k)
    ensures OvercountAll(rows, ids, actor, now, k) <= 0
    decreases |ids|
  {
    if ids != [] {
      var n := |ids| - 1;
      var mid := ReApprovedAll(rows, ids[..n], actor, now);
      OpenNeverTooHigh(rows, ids[..n], actor, now, k);
      if DeductedTwice(mid, ids[n]) {
        TwiceIsTooLow(mid, ids[n], actor, now, k);
      } else {
        OnceIsExact(mid, ids[n], actor, now, k);
      }
    }
  }

  /** Once a row was deducted twice, some counter stays too low. */
  lemma {:induction false} TwiceShows(rows: Rows, ids: seq<Id>, actor: Value, now: int)
    requires !NeverTwice(rows, ids, actor, now)
    ensures exists k :: OpenKey(k) && OvercountAll(rows, ids, actor, now, k) < 0
    decreases |ids|
  {
    var n := |ids| - 1;
    var mid := ReApprovedAll(rows, ids[..n], actor, now);
    NeverTwiceBefore(rows, ids, actor, now);
    if TwiceAt(rows, ids, actor, now, n) {
      var k := Total(JoinedBadge(mid[ids[n]]));
      TwiceIsTooLow(mid, ids[n], actor, now, k);
      assert Hit(k, mid[ids[n]]);
      OpenNeverTooHigh(rows, ids[..n], actor, now, k);
      assert OpenKey(k) && OvercountAll(rows, ids, actor, now, k) < 0;
    } else {
      TwiceShows(rows, ids[..n], actor, now);
      var k :| OpenKey(k) && OvercountAll(rows, ids[..n], actor, now, k) < 0;
      OnceIsExact(mid, ids[n], actor, now, k);
      assert OpenKey(k) && OvercountAll(rows, ids, actor, now, k) < 0;
    }
  }

  ghost predicate NothingOvercounted(rows: Rows, ids: seq<Id>, actor: Value, now: int) {
    forall k :: OvercountAll(rows, ids, actor, now, k) == 0
  }

  /** The cascades of a list leave every counter right exactly when no entry is deducted
      twice at its turn. */
  lemma CascadesExact(rows: Rows, ids: seq<Id>, actor: Value, now: int)
    ensures NothingOvercounted(rows, ids, actor, now) <==> NeverTwice(rows, ids, actor, now)
  {
    if NeverTwice(rows, ids, actor, now) {
      forall k ensures OvercountAll(rows, ids, actor, now, k) == 0 { NeverTwiceIsExact(rows, ids, actor, now, k); }
    } else {
      TwiceShows(rows, ids, actor, now);
      var k :| OpenKey(k) && OvercountAll(rows, ids, actor, now, k) < 0;
      assert OvercountAll(rows, ids, actor, now, k) != 0;
    }
  }

  /** Without rows that are their own originals no entry is deducted twice. */
  lemma {:induction false} NoSelfOriginalsNeverTwice(rows: Rows, ids: seq<Id>, actor: Value, now: int)
    requires NoSelfOriginals(rows)
    ensures NeverTwice(rows, ids, actor, now) && NoSelfOriginals(ReApprovedAll(rows, ids, actor, now))
    decreases |ids|
  {
    if ids != [] {
      var n := |ids| - 1;
      NoSelfOriginalsNeverTwice(rows, ids[..n], actor, now);
      NeverTwiceBefore(rows, ids, actor, now);
      ReApprovalKeepsNoSelfOriginals(ReApprovedAll(rows, ids[..n], actor, now), ids[n], actor, now);
    }
  }

  /** The drift of a list, one entry after the other. */
  lemma OvercountNext(rows: Rows, ids: seq<Id>, actor: Value, now: int, i: nat, k: CounterKey)
    requires i < |ids|
    ensures ReApprovedAll(rows, ids[..i + 1], actor, now) ==
      ReApproved(ReApprovedAll(rows, ids[..i], actor, now), ids[i], actor, now)
    ensures OvercountAll(rows, ids[..i + 1], actor, now, k) == OvercountAll(rows, ids[..i], actor, now, k)
      + Overcount(ReApprovedAll(rows, ids[..i], actor, now), ids[i], actor, now, k)
  {
    assert ids[..i + 1][..i] == ids[..i];
  }

  /** The counters moved like the recount, but for what the list overcounts. */
  ghost predicate TracksBut(c0: Counters, r0: Rows, c1: Counters, r1: Rows, ids: seq<Id>, actor: Value, now: int) {
    forall k :: Read(c1, k) - Read(c0, k) == Tally(r1, k) - Tally(r0, k) + OvercountAll(r0, ids, actor, now, k)
  }

  lemma TracksButNext(c0: Counters, r0: Rows, c1: Counters, r1: Rows, c2: Counters,
      ids: seq<Id>, actor: Value, now: int, i: nat)
    requires i < |ids| && r1 == ReApprovedAll(r0, ids[..i], actor, now)
    requires TracksBut(c0, r0, c1, r1, ids[..i], actor, now)
    requires forall k :: (Read(c2, k) == Read(c1, k) + Noted(ReApproveNotes(r1, ids[i], actor, now), k))
    ensures ReApprovedAll(r0, ids[..i + 1], actor, now) == ReApproved(r1, ids[i], actor, now)
    ensures TracksBut(c0, r0, c2, ReApproved(r1, ids[i], actor, now), ids[..i + 1], actor, now)
  {
    OvercountNext(r0, ids, actor, now, i, Total(Verify));
    forall k ensures Read(c2, k) - Read(c0, k) ==
      Tally(ReApproved(r1, ids[i], actor, now), k) - Tally(r0, k) + OvercountAll(r0, ids[..i + 1], actor, now, k)
    {
      OvercountNext(r0, ids, actor, now, i, k);
      OvercountMeans(r1, ids[i], actor, now, k);
    }
  }

  lemma OvercountMeans(rows: Rows, id: Id, actor: Value, now: int, k: CounterKey)
    ensures Noted(ReApproveNotes(rows, id, actor, now), k) ==
      Overcount(rows, id, actor, now, k) + Tally(ReApproved(rows, id, actor, now), k) - Tally(rows, k)
  {
  }

  /** A list of cascades, then an exact write: right exactly when no entry is deducted twice. */
  lemma CascadesDecide(c0: Counters, r0: Rows, c1: Counters, r1: Rows, c2: Counters, r2: Rows,
      ids: seq<Id>, actor: Value, now: int)
    requires TracksBut(c0, r0, c1, r1, ids, actor, now) && Tracks(c1, r1, c2, r2)
    ensures Tracks(c0, r0, c2, r2) <==> NeverTwice(r0, ids, actor, now)
    ensures NoSelfOriginals(r0) ==> NeverTwice(r0, ids, actor, now)
  {
    CascadesExact(r0, ids, actor, now);
    if NoSelfOriginals(r0) { NoSelfOriginalsNeverTwice(r0, ids, actor, now); }
    forall k ensures Read(c2, k) - Read(c0, k) == Tally(r2, k) - Tally(r0, k) + OvercountAll(r0, ids, actor, now, k) {
      assert Read(c2, k) - Read(c1, k) == Tally(r2, k) - Tally(r1, k);
    }
    if Tracks(c0, r0, c2, r2) {
      forall k ensures OvercountAll(r0, ids, actor, now, k) == 0 {
        assert Read(c2, k) - Read(c0, k) == Tally(r2, k) - Tally(r0, k);
      }
    }
  }
}
