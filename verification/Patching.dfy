/** Bulk patches of any list of edits: the handler notes every edit from the rows as they
    were before all of them, and leaves out edits without counted flags. What that misses,
    counter by counter, and exactly when it misses nothing. */
module Patching {
  import opened Mongo
  import opened Badges
  import opened Lifecycle
  import opened Composite

  /** What writing an edit really does to a recount. */
  function TrueChange(now: Rows, e: Edit, k: CounterKey): int {
    if e.id in now then Bit(Hit(k, now[e.id] + e.values)) - Bit(Hit(k, now[e.id])) else 0
  }

  /** What the handler notes for it, from the rows before the request. */
  function NotedChange(rows: Rows, e: Edit, k: CounterKey): int {
    if TouchesBadges(e.values) then TrueChange(rows, e, k) else 0
  }

  /** Entry by entry, what is written but not noted. */
  function Misnoted(rows: Rows, edits: seq<Edit>, k: CounterKey): int {
    if edits == [] then 0
    else
      var rest, e := edits[..|edits| - 1], edits[|edits| - 1];
      Misnoted(rows, rest, k) + TrueChange(PatchAll(rows, rest), e, k) - NotedChange(rows, e, k)
  }

  lemma NoteIsNotedChange(rows: Rows, e: Edit, k: CounterKey)
    ensures Noted(PatchNotes(rows, [e]), k) == NotedChange(rows, e, k)
  {
    PatchNotesOne(rows, e, k);
    if TouchesBadges(e.values) && e.id in rows {
      ProjectionKeepsHits(rows[e.id]);
      NotedEditKeepsHits(rows[e.id], e);
    }
  }

  /** The drift that any bulk patch leaves in any counter, repeated ids and silent moves
      included. */
  lemma {:induction false} PatchDrift(rows: Rows, edits: seq<Edit>, k: CounterKey)
    ensures Tally(PatchAll(rows, edits), k) - Tally(rows, k) - Noted(PatchNotes(rows, edits), k) ==
      Misnoted(rows, edits, k)
    decreases |edits|
  {
    if edits != [] {
      var n := |edits| - 1;
      var e := edits[n];
      PatchDrift(rows, edits[..n], k);
      PatchedRow(PatchAll(rows, edits[..n]), e, k);
      NoteIsNotedChange(rows, e, k);
      assert [e][..0] == [];
      assert PatchNotes(rows, edits) == PatchNotes(rows, edits[..n]) + PatchNotes(rows, [e]);
      NotedAppend(PatchNotes(rows, edits[..n]), PatchNotes(rows, [e]), k);
    }
  }

  /** Every counter is noted in full. */
  ghost predicate NothingMisnoted(rows: Rows, edits: seq<Edit>) {
    forall k :: Misnoted(rows, edits, k) == 0
  }

  /** A bulk patch leaves the counters right exactly when nothing is misnoted. */
  lemma PatchExact(rows: Rows, edits: seq<Edit>)
    ensures NotesFollow(PatchNotes(rows, edits), rows, PatchAll(rows, edits)) <==>
      NothingMisnoted(rows, edits)
  {
    if NotesFollow(PatchNotes(rows, edits), rows, PatchAll(rows, edits)) {
      forall k ensures Misnoted(rows, edits, k) == 0 {
        PatchDrift(rows, edits, k);
        assert Noted(PatchNotes(rows, edits), k) == Tally(PatchAll(rows, edits), k) - Tally(rows, k);
      }
    }
    if NothingMisnoted(rows, edits) {
      forall k ensures Noted(PatchNotes(rows, edits), k) == Tally(PatchAll(rows, edits), k) - Tally(rows, k) {
        PatchDrift(rows, edits, k);
        assert Misnoted(rows, edits, k) == 0;
      }
    }
  }

  // ---------------------------------------------------------------- distinct rows

  predicate IsOn(d: Doc, cashier: Value, shelf: Shelf) {
    CashierKey(d) == Some(cashier) && Member(ShelfBadge(shelf), d)
  }

  /** Open rows that silently arrive at a cashier's shelf minus those that silently leave
      it, read off the rows before the request. */
  function SilentArrivals(rows: Rows, edits: seq<Edit>, cashier: Value, shelf: Shelf): int {
    if edits == [] then 0
    else
      var e := edits[|edits| - 1];
      SilentArrivals(rows, edits[..|edits| - 1], cashier, shelf)
        + (if MovesSilently(e) && e.id in rows
           then Bit(IsOn(rows[e.id] + e.values, cashier, shelf)) - Bit(IsOn(rows[e.id], cashier, shelf)) else 0)
  }

  /** For every cashier and shelf as many open rows silently arrive as leave. */
  ghost predicate NoSilentArrivals(rows: Rows, edits: seq<Edit>) {
    forall c, shelf :: SilentArrivals(rows, edits, c, shelf) == 0
  }

  /** An edit of a row not edited before misses something only if it moves silently, and
      then only on the shelves of cashiers. */
  lemma FirstEditMisses(rows: Rows, now: Rows, e: Edit, k: CounterKey)
    requires At(now, e.id) == At(rows, e.id)
    ensures TrueChange(now, e, k) == TrueChange(rows, e, k)
    ensures k.Total? || !MovesSilently(e) ==> TrueChange(rows, e, k) == NotedChange(rows, e, k)
    ensures MovesSilently(e) ==> NotedChange(rows, e, k) == 0
  {
    assert e.id in now ==> now[e.id] == At(now, e.id).value;
    assert e.id in rows ==> rows[e.id] == At(rows, e.id).value;
    if e.id in rows && !TouchesBadges(e.values) {
      SameFlagsSameMembers(rows[e.id], e.values);
      if CashierId !in e.values { QuietEditKeepsHits(rows[e.id], e); }
    }
  }

  lemma {:induction false} DistinctMisses(rows: Rows, edits: seq<Edit>, k: CounterKey)
    requires DistinctIds(edits)
    ensures Misnoted(rows, edits, k) ==
      match k case Total(_) => 0 case PerCashier(c, shelf) => SilentArrivals(rows, edits, c, shelf)
    decreases |edits|
  {
    if edits != [] {
      var n := |edits| - 1;
      DistinctMisses(rows, edits[..n], k);
      PatchAllElsewhere(rows, edits[..n], edits[n].id);
      FirstEditMisses(rows, PatchAll(rows, edits[..n]), edits[n], k);
    }
  }

  lemma SilentArrivalsDecide(rows: Rows, edits: seq<Edit>)
    requires DistinctIds(edits)
    ensures NothingMisnoted(rows, edits) <==> NoSilentArrivals(rows, edits)
  {
    if NothingMisnoted(rows, edits) {
      forall c, shelf ensures SilentArrivals(rows, edits, c, shelf) == 0 {
        DistinctMisses(rows, edits, PerCashier(c, shelf));
        assert Misnoted(rows, edits, PerCashier(c, shelf)) == 0;
      }
    }
    if NoSilentArrivals(rows, edits) {
      forall k ensures Misnoted(rows, edits, k) == 0 {
        DistinctMisses(rows, edits, k);
        assert k.PerCashier? ==> SilentArrivals(rows, edits, k.cashier, k.shelf) == 0;
      }
    }
  }

  /** A bulk patch of distinct rows leaves all counters right exactly when for every
      cashier and shelf as many open rows silently arrive as leave. */
  lemma DistinctPatchExact(rows: Rows, edits: seq<Edit>)
    requires DistinctIds(edits)
    ensures NotesFollow(PatchNotes(rows, edits), rows, PatchAll(rows, edits)) <==>
      NoSilentArrivals(rows, edits)
  {
    PatchExact(rows, edits);
    SilentArrivalsDecide(rows, edits);
  }

  /** The edit silently hands an open draft or parked row to somebody else. */
  predicate ChangesHands(d: Doc, e: Edit) {
    !TouchesBadges(e.values) && OnShelf(d) && CashierKey(d + e.values) != CashierKey(d)
  }

  predicate NobodyLosesRows(rows: Rows, edits: seq<Edit>) {
    forall i | 0 <= i < |edits| && edits[i].id in rows :: !ChangesHands(rows[edits[i].id], edits[i])
  }

  lemma StaysOnItsShelf(d: Doc, e: Edit, c: Value, shelf: Shelf)
    requires !TouchesBadges(e.values) && !ChangesHands(d, e)
    ensures IsOn(d + e.values, c, shelf) <==> IsOn(d, c, shelf)
  {
    SameFlagsSameMembers(d, e.values);
    assert Member(ShelfBadge(shelf), d) ==> OnShelf(d);
  }

  lemma {:induction false} NobodyArrives(rows: Rows, edits: seq<Edit>, c: Value, shelf: Shelf)
    requires NobodyLosesRows(rows, edits)
    ensures SilentArrivals(rows, edits, c, shelf) == 0
    decreases |edits|
  {
    if edits != [] {
      var e := edits[|edits| - 1];
      NobodyArrives(rows, edits[..|edits| - 1], c, shelf);
      if MovesSilently(e) && e.id in rows { StaysOnItsShelf(rows[e.id], e, c, shelf); }
    }
  }

  /** A bulk patch of distinct rows that silently hands no open row to somebody else leaves
      all counters right. */
  lemma SettledPatchFollows(rows: Rows, edits: seq<Edit>)
    requires DistinctIds(edits) && NobodyLosesRows(rows, edits)
    ensures NoSilentArrivals(rows, edits)
    ensures NotesFollow(PatchNotes(rows, edits), rows, PatchAll(rows, edits))
  {
    forall c, shelf ensures SilentArrivals(rows, edits, c, shelf) == 0 { NobodyArrives(rows, edits, c, shelf); }
    DistinctPatchExact(rows, edits);
  }

  /** With one such hand-over in the list the counters are wrong: the shelf it leaves, or
      the one it joins, is off by one. */
  lemma OneHandOverIsWrong(rows: Rows, edits: seq<Edit>, e: Edit)
    requires DistinctIds(edits + [e]) && NobodyLosesRows(rows, edits)
    requires e.id in rows && ChangesHands(rows[e.id], e)
    ensures !NotesFollow(PatchNotes(rows, edits + [e]), rows, PatchAll(rows, edits + [e]))
  {
    var d := rows[e.id];
    var shelf := if InDrafts(d) then DraftShelf else ParkedShelf;
    var owner := if CashierKey(d).Some? then CashierKey(d).value else CashierKey(d + e.values).value;
    SameFlagsSameMembers(d, e.values);
    HandOverMovesSilently(d, e);
    NobodyArrives(rows, edits, owner, shelf);
    assert (edits + [e])[..|edits|] == edits;
    assert SilentArrivals(rows, edits + [e], owner, shelf) != 0;
    DistinctPatchExact(rows, edits + [e]);
  }

  lemma HandOverMovesSilently(d: Doc, e: Edit)
    requires ChangesHands(d, e)
    ensures MovesSilently(e)
  {
    assert CashierId !in e.values ==> CashierKey(d + e.values) == CashierKey(d);
  }

  /** What it drifts otherwise: no total, and each cashier's shelf by its silent arrivals. */
  lemma DistinctPatchDrift(rows: Rows, edits: seq<Edit>, k: CounterKey)
    requires DistinctIds(edits)
    ensures Tally(PatchAll(rows, edits), k) - Tally(rows, k) - Noted(PatchNotes(rows, edits), k) ==
      match k case Total(_) => 0 case PerCashier(c, shelf) => SilentArrivals(rows, edits, c, shelf)
  {
    DistinctMisses(rows, edits, k);
    PatchDrift(rows, edits, k);
  }

  // ---------------------------------------------------------------- repeated rows

  /** A guard that reads only the request: no row has two edits of counted flags, and no
      other edit names a cashier. Rows may repeat as often as they like. */
  predicate NotedOncePerRow(edits: seq<Edit>) {
    && (forall i, j | 0 <= i < j < |edits| && edits[i].id == edits[j].id ::
          !TouchesBadges(edits[i].values) || !TouchesBadges(edits[j].values))
    && (forall i | 0 <= i < |edits| :: !MovesSilently(edits[i]))
  }

  /** Edits of a row that touch nothing counted leave it counted as it was. */
  lemma QuietValuesKeepCounted(d: Doc, values: Doc)
    requires !TouchesBadges(values) && CashierId !in values
    ensures SameCounted(d + values, d)
  {
    assert forall f | IsTouchField(f) :: f !in values;
  }

  lemma QuietEditKeepsCounted(now: Rows, e: Edit, id: Id)
    requires e.id == id ==> !TouchesBadges(e.values) && CashierId !in e.values
    ensures var after := UpdateWhere(now, ById(e.id), e.values, {});
      after.Keys == now.Keys && (id in now ==> SameCounted(after[id], now[id]))
  {
    if e.id == id {
      if id in now {
        UpdateByIdStores(now, id, e.values);
        QuietValuesKeepCounted(now[id], e.values);
      }
    } else if id in now {
      OthersStay(now, e, id);
    }
  }

  lemma OthersStay(now: Rows, e: Edit, id: Id)
    requires e.id != id && id in now
    ensures UpdateWhere(now, ById(e.id), e.values, {})[id] == now[id]
  {
  }

  lemma {:induction false} QuietEditsKeepCounted(rows: Rows, edits: seq<Edit>, id: Id)
    requires forall i | 0 <= i < |edits| && edits[i].id == id ::
      !TouchesBadges(edits[i].values) && CashierId !in edits[i].values
    ensures PatchAll(rows, edits).Keys == rows.Keys
    ensures id in rows ==> SameCounted(PatchAll(rows, edits)[id], rows[id])
    decreases |edits|
  {
    if edits != [] {
      var n := |edits| - 1;
      QuietEditsKeepCounted(rows, edits[..n], id);
      QuietEditKeepsCounted(PatchAll(rows, edits[..n]), edits[n], id);
    }
  }

  lemma SameCountedChange(rows: Rows, now: Rows, e: Edit, k: CounterKey)
    requires now.Keys == rows.Keys && (e.id in rows ==> SameCounted(now[e.id], rows[e.id]))
    ensures TrueChange(now, e, k) == TrueChange(rows, e, k)
  {
    if e.id in rows {
      SameCountedSameHits(now[e.id], rows[e.id]);
      SameCountedSameHits(now[e.id] + e.values, rows[e.id] + e.values);
    }
  }

  lemma {:induction false} NotedOnceMisses(rows: Rows, edits: seq<Edit>, k: CounterKey)
    requires NotedOncePerRow(edits)
    ensures Misnoted(rows, edits, k) == 0
    decreases |edits|
  {
    if edits != [] {
      var n := |edits| - 1;
      var now, e := PatchAll(rows, edits[..n]), edits[n];
      NotedOnceMisses(rows, edits[..n], k);
      if TouchesBadges(e.values) {
        QuietEditsKeepCounted(rows, edits[..n], e.id);
        SameCountedChange(rows, now, e, k);
      } else if e.id in now {
        QuietEditKeepsHits(now[e.id], e);
      }
    }
  }

  /** So such a request leaves all counters right, whatever the rows are. */
  lemma NotedOnceFollows(rows: Rows, edits: seq<Edit>)
    requires NotedOncePerRow(edits)
    ensures NothingMisnoted(rows, edits)
    ensures NotesFollow(PatchNotes(rows, edits), rows, PatchAll(rows, edits))
  {
    forall k ensures Misnoted(rows, edits, k) == 0 { NotedOnceMisses(rows, edits, k); }
    PatchExact(rows, edits);
  }

  // ---------------------------------------------------------------- one row many times

  /** What the edits write together, later ones over earlier ones. */
  function Together(edits: seq<Edit>): Doc {
    if edits == [] then map[] else Together(edits[..|edits| - 1]) + edits[|edits| - 1].values
  }

  function NotedSum(rows: Rows, edits: seq<Edit>, k: CounterKey): int {
    if edits == [] then 0
    else NotedSum(rows, edits[..|edits| - 1], k) + NotedChange(rows, edits[|edits| - 1], k)
  }

  predicate AllOf(edits: seq<Edit>, id: Id) {
    forall i | 0 <= i < |edits| :: edits[i].id == id
  }

  lemma PatchOver(rows: Rows, id: Id, values: Doc, e: Edit)
    requires id in rows && e.id == id
    ensures var now := rows[id := rows[id] + values];
      UpdateWhere(now, ById(e.id), e.values, {}) == rows[id := rows[id] + (values + e.values)]
  {
    UpdateByIdStores(rows[id := rows[id] + values], id, e.values);
    assert rows[id] + values + e.values == rows[id] + (values + e.values);
  }

  lemma ChangeOver(rows: Rows, id: Id, values: Doc, e: Edit, k: CounterKey)
    requires id in rows && e.id == id
    ensures TrueChange(rows[id := rows[id] + values], e, k) ==
      TrueChange(rows, Edit(id, values + e.values), k) - TrueChange(rows, Edit(id, values), k)
  {
    assert rows[id] + values + e.values == rows[id] + (values + e.values);
  }

  lemma {:induction false} PatchOneRow(rows: Rows, edits: seq<Edit>, id: Id)
    requires id in rows && AllOf(edits, id)
    ensures PatchAll(rows, edits) == rows[id := rows[id] + Together(edits)]
    decreases |edits|
  {
    if edits == [] {
      assert rows[id] + map[] == rows[id];
    } else {
      var n := |edits| - 1;
      PatchOneRow(rows, edits[..n], id);
      PatchOver(rows, id, Together(edits[..n]), edits[n]);
    }
  }

  lemma {:induction false} OneRowMisses(rows: Rows, edits: seq<Edit>, id: Id, k: CounterKey)
    requires id in rows && AllOf(edits, id)
    ensures Misnoted(rows, edits, k) ==
      TrueChange(rows, Edit(id, Together(edits)), k) - NotedSum(rows, edits, k)
    decreases |edits|
  {
    if edits == [] {
      assert rows[id] + map[] == rows[id];
    } else {
      var n := |edits| - 1;
      OneRowMisses(rows, edits[..n], id, k);
      PatchOneRow(rows, edits[..n], id);
      ChangeOver(rows, id, Together(edits[..n]), edits[n], k);
    }
  }

  /** Counter by counter, the notes taken from the first version of the row add up to the
      whole change. */
  ghost predicate NotesAddUp(rows: Rows, edits: seq<Edit>, id: Id) {
    forall k :: NotedSum(rows, edits, k) == TrueChange(rows, Edit(id, Together(edits)), k)
  }

  /** Any number of edits of one row: the counters stay right exactly when the notes add up. */
  lemma RepeatedIdExact(rows: Rows, edits: seq<Edit>, id: Id)
    requires id in rows && AllOf(edits, id)
    ensures NotesFollow(PatchNotes(rows, edits), rows, PatchAll(rows, edits)) <==> NotesAddUp(rows, edits, id)
  {
    PatchExact(rows, edits);
    forall k ensures Misnoted(rows, edits, k) ==
      TrueChange(rows, Edit(id, Together(edits)), k) - NotedSum(rows, edits, k)
    {
      OneRowMisses(rows, edits, id, k);
    }
  }

  predicate AllSame(edits: seq<Edit>, e: Edit) {
    forall i | 0 <= i < |edits| :: edits[i] == e
  }

  lemma {:induction false} SameNotes(rows: Rows, edits: seq<Edit>, e: Edit, k: CounterKey)
    requires AllSame(edits, e)
    ensures NotedSum(rows, edits, k) == |edits| * NotedChange(rows, e, k)
    ensures edits != [] ==> Together(edits) == e.values
    decreases |edits|
  {
    if edits != [] { SameNotes(rows, edits[..|edits| - 1], e, k); }
  }

  /** Sending an edit of counted flags again counts it again: right exactly when the edit
      leaves the row counted as before. */
  lemma SamePatchAgainExact(rows: Rows, edits: seq<Edit>, e: Edit)
    requires e.id in rows && TouchesBadges(e.values) && AllSame(edits, e) && |edits| >= 2
    ensures NotesFollow(PatchNotes(rows, edits), rows, PatchAll(rows, edits)) <==>
      forall k :: Hit(k, rows[e.id] + e.values) <==> Hit(k, rows[e.id])
  {
    RepeatedIdExact(rows, edits, e.id);
    assert Edit(e.id, e.values) == e;
    forall k ensures NotedSum(rows, edits, k) == TrueChange(rows, Edit(e.id, Together(edits)), k) <==>
      (Hit(k, rows[e.id] + e.values) <==> Hit(k, rows[e.id]))
    {
      SameNotes(rows, edits, e, k);
      OnlyZeroRepeats(|edits|, TrueChange(rows, e, k));
    }
  }

  lemma OnlyZeroRepeats(n: nat, x: int)
    requires n >= 2
    ensures n * x == x <==> x == 0
  {
    assert n * x - x == (n - 1) * x;
  }
}
