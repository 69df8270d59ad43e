/** Editing a verified row through its pending clone and re-approving the clone
    amounts to one direct edit of the row. */
module RoundTrip {
  import opened Mongo
  import opened Badges
  import opened Lifecycle

  /** What one pending edit carries. */
  datatype Revision = Revision(updates: Doc, editor: Value, now: int)

  /** Later updates win. */
  function Merged(edits: seq<Revision>): Doc {
    if edits == [] then map[] else Merged(edits[..|edits| - 1]) + edits[|edits| - 1].updates
  }

  predicate IsEditMeta(f: Field) {
    f.OriginalTransactionId? || f.EditedAfterVerification? || f.Verified? || f.VerifiedBy?
    || f.VerifiedAt? || f.RejectionReason? || f.Rejected? || f.Discarded? || f.LastEditedAt?
    || f.LastEditedBy?
  }

  lemma EditMetaFields(original: Id, editor: Value, now: int, f: Field)
    ensures f in EditMeta(original, editor, now) ==> IsEditMeta(f)
  {
    assert EditMeta(original, editor, now).Keys == {OriginalTransactionId, EditedAfterVerification, Verified,
      VerifiedBy, VerifiedAt, RejectionReason, Rejected, Discarded, LastEditedAt, LastEditedBy};
  }

  lemma DropsAreNoCascade(f: Field)
    ensures f in CLONE_DROPS ==> !IsCascadeField(f)
  {
  }

  lemma ReApproveSetFields(actor: Value, now: int, f: Field)
    ensures f in ReApproveSet(actor, now) ==> IsReApprovalMeta(f) && !f.LastEditedAt? && !f.LastEditedBy?
  {
  }

  predicate EditedBy(d: Doc, original: Id, e: Revision) {
    && IsOpenClone(d, original)
    && Get(d, LastEditedAt) == Some(Time(e.now)) && Get(d, LastEditedBy) == Some(e.editor)
  }

  lemma MetaMarks(d: Doc, original: Id, e: Revision)
    ensures EditedBy(d + EditMeta(original, e.editor, e.now), original, e)
  {
  }

  lemma DropsKeepMarks(d: Doc, original: Id, e: Revision)
    requires EditedBy(d, original, e)
    ensures EditedBy((d - CLONE_DROPS)[CreatedAt := Time(e.now)], original, e)
  {
  }

  /** The clone right after its first edit. */
  lemma FirstEdit(source: Doc, original: Id, e: Revision)
    ensures var clone := EditedClone(source, original, e.updates, e.editor, e.now);
      && EditedBy(clone, original, e)
      && forall f | IsCascadeField(f) :: Get(clone, f) == Get(source + e.updates, f)
  {
    MetaMarks(source + e.updates, original, e);
    DropsKeepMarks(source + e.updates + EditMeta(original, e.editor, e.now), original, e);
    forall f | IsCascadeField(f)
      ensures Get(EditedClone(source, original, e.updates, e.editor, e.now), f) == Get(source + e.updates, f)
    {
      ClonedField(source + e.updates, original, e, f);
    }
  }

  lemma ClonedField(d: Doc, original: Id, e: Revision, f: Field)
    requires IsCascadeField(f)
    ensures Get((d + EditMeta(original, e.editor, e.now) - CLONE_DROPS)[CreatedAt := Time(e.now)], f) == Get(d, f)
  {
    EditMetaFields(original, e.editor, e.now, f);
    DropsAreNoCascade(f);
    KeptField(d, EditMeta(original, e.editor, e.now), CLONE_DROPS, Time(e.now), f);
  }

  lemma KeptField(d: Doc, meta: Doc, drops: set<Field>, v: Value, f: Field)
    requires f !in meta && f !in drops && f != CreatedAt
    ensures Get((d + meta - drops)[CreatedAt := v], f) == Get(d, f)
  {
  }

  lemma RevisedField(d: Doc, original: Id, e: Revision, f: Field)
    requires IsCascadeField(f)
    ensures Get(d + EditMeta(original, e.editor, e.now), f) == Get(d, f)
  {
    EditMetaFields(original, e.editor, e.now, f);
  }

  lemma LaterEdit(clone: Doc, original: Id, e: Revision)
    ensures var next := clone + (e.updates + EditMeta(original, e.editor, e.now));
      && EditedBy(next, original, e)
      && forall f | IsCascadeField(f) :: Get(next, f) == Get(clone + e.updates, f)
  {
    var next := clone + (e.updates + EditMeta(original, e.editor, e.now));
    PlusIsAssociative(clone, e.updates, EditMeta(original, e.editor, e.now));
    MetaMarks(clone + e.updates, original, e);
    forall f | IsCascadeField(f) ensures Get(next, f) == Get(clone + e.updates, f) {
      RevisedField(clone + e.updates, original, e, f);
    }
  }

  predicate IsOpenClone(d: Doc, original: Id) {
    && Get(d, OriginalTransactionId) == Some(Oid(original)) && IsFalse(d, Verified)
    && IsTrue(d, EditedAfterVerification) && IsFalse(d, Rejected)
  }

  /** The clone carries the merged updates over the original's fields and the last editor's
      stamp. */
  ghost predicate Carries(clone: Doc, source: Doc, original: Id, edits: seq<Revision>) {
    && edits != [] && EditedBy(clone, original, edits[|edits| - 1])
    && forall f | IsCascadeField(f) :: Get(clone, f) == Get(source + Merged(edits), f)
  }

  lemma FirstCarries(source: Doc, original: Id, e: Revision)
    ensures Carries(EditedClone(source, original, e.updates, e.editor, e.now), source, original, [e])
  {
    FirstEdit(source, original, e);
    assert [e][..0] == [] && Merged([e]) == e.updates;
  }

  lemma LaterCarries(clone: Doc, source: Doc, original: Id, edits: seq<Revision>, e: Revision)
    requires Carries(clone, source, original, edits)
    ensures Carries(clone + (e.updates + EditMeta(original, e.editor, e.now)), source, original, edits + [e])
  {
    LaterEdit(clone, original, e);
    assert (edits + [e])[..|edits|] == edits;
    forall f | IsCascadeField(f) ensures Get(clone + e.updates, f) == Get(source + Merged(edits + [e]), f) {
      assert Get(clone, f) == Get(source + Merged(edits), f);
    }
  }

  // ---------------------------------------------------------------- edits among other calls

  predicate IsEdit(call: Call, original: Id, clone: Id) {
    call.PendingEdit? && call.id == original && call.target == clone
  }

  function RevisionOf(call: Call): Revision
    requires call.PendingEdit?
  {
    Revision(call.values, call.actor, call.now)
  }

  /** The call leaves the row and its clone as they are. */
  predicate LeavesAlone(rows: Rows, call: Call, original: Id, clone: Id) {
    At(Apply(rows, call), original) == At(rows, original) && At(Apply(rows, call), clone) == At(rows, clone)
  }

  /** Pending edits of one row, all landing on one clone, among any calls that touch other
      rows. */
  predicate Interleaved(rows: Rows, calls: seq<Call>, original: Id, clone: Id)
    decreases |calls|
  {
    calls == [] ||
    ((IsEdit(calls[0], original, clone) || LeavesAlone(rows, calls[0], original, clone))
     && Interleaved(Apply(rows, calls[0]), calls[1..], original, clone))
  }

  function EditsIn(calls: seq<Call>, original: Id, clone: Id): seq<Revision>
    decreases |calls|
  {
    if calls == [] then [] else EditOf(calls[0], original, clone) + EditsIn(calls[1..], original, clone)
  }

  function EditOf(call: Call, original: Id, clone: Id): seq<Revision> {
    if IsEdit(call, original, clone) then [RevisionOf(call)] else []
  }

  /** The original is untouched; the clone is there once there was an edit. */
  ghost predicate Standing(now: Rows, source: Doc, original: Id, clone: Id, edits: seq<Revision>) {
    && At(now, original) == Some(source)
    && if edits == [] then clone !in now else clone in now && Carries(now[clone], source, original, edits)
  }

  lemma EditStands(now: Rows, source: Doc, original: Id, clone: Id, edits: seq<Revision>, call: Call)
    requires Standing(now, source, original, clone, edits) && IsEdit(call, original, clone) && original != clone
    ensures Standing(PendingEditRows(now, original, call.values, call.actor, call.now, clone), source, original, clone,
      edits + [RevisionOf(call)])
  {
    if edits == [] {
      FirstCarries(source, original, RevisionOf(call));
      assert edits + [RevisionOf(call)] == [RevisionOf(call)];
    } else {
      LaterCarries(now[clone], source, original, edits, RevisionOf(call));
    }
  }

  lemma ApplyEdit(rows: Rows, call: Call, original: Id, clone: Id)
    requires IsEdit(call, original, clone)
    ensures Apply(rows, call) == PendingEditRows(rows, original, call.values, call.actor, call.now, clone)
  {
  }

  lemma CallStands(now: Rows, call: Call, source: Doc, original: Id, clone: Id, edits: seq<Revision>)
    requires Standing(now, source, original, clone, edits) && original != clone
    requires IsEdit(call, original, clone) || LeavesAlone(now, call, original, clone)
    ensures Standing(Apply(now, call), source, original, clone, edits + EditOf(call, original, clone))
  {
    if IsEdit(call, original, clone) {
      ApplyEdit(now, call, original, clone);
      EditStands(now, source, original, clone, edits, call);
    } else {
      assert edits + [] == edits;
      StillStands(now, Apply(now, call), source, original, clone, edits);
    }
  }

  lemma StandsAfterOne(rows: Rows, calls: seq<Call>, source: Doc, original: Id, clone: Id, edits: seq<Revision>)
    returns (next: Rows)
    requires calls != [] && Interleaved(rows, calls, original, clone) && original != clone
    requires Standing(rows, source, original, clone, edits)
    ensures Interleaved(next, calls[1..], original, clone) && ApplyAll(rows, calls) == ApplyAll(next, calls[1..])
    ensures Standing(next, source, original, clone, edits + EditOf(calls[0], original, clone))
  {
    CallStands(rows, calls[0], source, original, clone, edits);
    next := Apply(rows, calls[0]);
  }

  /** Any number of edits among other calls build one clone beside the untouched original. */
  lemma {:induction false} EditsBuildOneClone(
      rows: Rows, calls: seq<Call>, source: Doc, original: Id, clone: Id, edits: seq<Revision>)
    requires Interleaved(rows, calls, original, clone) && original != clone
    requires Standing(rows, source, original, clone, edits)
    ensures Standing(ApplyAll(rows, calls), source, original, clone, edits + EditsIn(calls, original, clone))
    decreases |calls|
  {
    if calls == [] {
      assert edits + [] == edits;
    } else {
      var next := StandsAfterOne(rows, calls, source, original, clone, edits);
      EditsBuildOneClone(next, calls[1..], source, original, clone, edits + EditOf(calls[0], original, clone));
      EditsAddUp(calls, original, clone, edits);
    }
  }

  lemma EditsAddUp(calls: seq<Call>, original: Id, clone: Id, edits: seq<Revision>)
    requires calls != []
    ensures edits + EditOf(calls[0], original, clone) + EditsIn(calls[1..], original, clone) ==
      edits + EditsIn(calls, original, clone)
  {
    SeqIsAssociative(edits, EditOf(calls[0], original, clone), EditsIn(calls[1..], original, clone));
  }

  lemma SeqIsAssociative<T>(a: seq<T>, b: seq<T>, c: seq<T>)
    ensures a + b + c == a + (b + c)
  {
  }

  lemma StillStands(rows: Rows, next: Rows, source: Doc, original: Id, clone: Id, edits: seq<Revision>)
    requires Standing(rows, source, original, clone, edits)
    requires At(next, original) == At(rows, original) && At(next, clone) == At(rows, clone)
    ensures Standing(next, source, original, clone, edits)
  {
    assert clone in next <==> At(next, clone).Some?;
    assert clone in next ==> next[clone] == At(next, clone).value;
  }

  lemma OpenCloneMeaning(d: Doc, original: Id)
    ensures IsOpenClone(d, original) ==> Matches(OpenCloneQuery(original), d)
  {
    var q := OpenCloneQuery(original).fields;
    assert q.Keys == {OriginalTransactionId, Verified, EditedAfterVerification, Rejected};
    assert Matches(OpenCloneQuery(original), d) <==>
      && Holds(q[OriginalTransactionId], Get(d, OriginalTransactionId))
      && Holds(q[Verified], Get(d, Verified))
      && Holds(q[EditedAfterVerification], Get(d, EditedAfterVerification))
      && Holds(q[Rejected], Get(d, Rejected));
  }

  /** After the first edit of a row without open clones, as long as nobody else opens one,
      each further edit has exactly this clone to land on: `find_one` has no choice. */
  lemma NextEditFindsTheClone(rows: Rows, calls: seq<Call>, original: Id, clone: Id)
    requires original in rows && clone !in rows && Interleaved(rows, calls, original, clone)
    requires EditsIn(calls, original, clone) != []
    requires forall id | id in OpenClones(ApplyAll(rows, calls), original) && id != clone ::
      id in OpenClones(rows, original)
    requires OpenClones(rows, original) == {}
    ensures OpenClones(ApplyAll(rows, calls), original) == {clone}
  {
    EditsBuildOneClone(rows, calls, rows[original], original, clone, []);
    assert [] + EditsIn(calls, original, clone) == EditsIn(calls, original, clone);
    var now := ApplyAll(rows, calls);
    OpenCloneMeaning(now[clone], original);
  }

  /** What an edit carries over to the original. */
  function Carried(edits: seq<Revision>): Doc {
    map f | f in Merged(edits) && IsCascadeField(f) :: Merged(edits)[f]
  }

  function Stamp(last: Revision): Doc {
    map[LastEditedAt := Time(last.now), LastEditedBy := last.editor]
  }

  /** The direct edit that the round trip stands for. */
  function DirectEdit(source: Doc, edits: seq<Revision>, actor: Value, now: int): Doc
    requires edits != []
  {
    source + Carried(edits) + Verdict(edits[|edits| - 1], actor, now)
  }

  lemma MetaIsStamp(pending: Doc, last: Revision, actor: Value, now: int)
    requires Get(pending, LastEditedAt) == Some(Time(last.now))
    requires Get(pending, LastEditedBy) == Some(last.editor)
    ensures ReApprovalMeta(pending, actor, now) == Verdict(last, actor, now)
  {
  }

  lemma CascadeIsCarried(source: Doc, pending: Doc, edits: seq<Revision>)
    requires forall f | IsCascadeField(f) :: Get(pending, f) == Get(source + Merged(edits), f)
    ensures source + Cascaded(pending) == source + Carried(edits)
  {
    forall f ensures Get(source + Cascaded(pending), f) == Get(source + Carried(edits), f) {
      if IsCascadeField(f) {
        assert Get(pending, f) == Get(source + Merged(edits), f);
      }
    }
    SameFields(source + Cascaded(pending), source + Carried(edits));
  }

  lemma CascadeIsDirectEdit(source: Doc, pending: Doc, edits: seq<Revision>, actor: Value, now: int)
    requires edits != []
    requires forall f | IsCascadeField(f) :: Get(pending, f) == Get(source + Merged(edits), f)
    requires Get(pending, LastEditedAt) == Some(Time(edits[|edits| - 1].now))
    requires Get(pending, LastEditedBy) == Some(edits[|edits| - 1].editor)
    ensures source + CascadeUpdates(pending, actor, now) == DirectEdit(source, edits, actor, now)
  {
    MetaIsStamp(pending, edits[|edits| - 1], actor, now);
    CascadeIsCarried(source, pending, edits);
    PlusIsAssociative(source, Cascaded(pending), ReApprovalMeta(pending, actor, now));
  }

  lemma SameFields(d: Doc, e: Doc)
    requires forall f :: Get(d, f) == Get(e, f)
    ensures d == e
  {
    assert forall f :: f in d <==> Get(d, f).Some?;
    assert forall f :: f in e <==> Get(e, f).Some?;
    assert forall f | f in d :: d[f] == Get(d, f).value && e[f] == Get(e, f).value;
  }

  lemma OpenCloneCascades(edited: Rows, original: Id, clone: Id, actor: Value, now: int)
    requires clone in edited && IsOpenClone(edited[clone], original)
    ensures ReApproved(edited, clone, actor, now) ==
      CascadeInto(edited, clone, CascadeUpdates(edited[clone], actor, now))
  {
    assert Truthy(edited[clone], OriginalTransactionId);
  }

  lemma CascadeStores(edited: Rows, source: Doc, original: Id, clone: Id, updates: Doc)
    requires At(edited, original) == Some(source) && clone in edited
    requires Get(edited[clone], OriginalTransactionId) == Some(Oid(original))
    ensures CascadeInto(edited, clone, updates) ==
      if source + updates == source then edited else edited[original := source + updates] - {clone}
  {
    assert OriginalOf(edited, edited[clone]) == Some(original);
  }

  /** The item and payee gate reads cascade fields only. */
  lemma SameGate(d: Doc, e: Doc)
    requires forall f | IsCascadeField(f) :: Get(d, f) == Get(e, f)
    ensures Incomplete(d) <==> Incomplete(e)
  {
    assert Get(d, Item) == Get(e, Item) && Get(d, CategoryName) == Get(e, CategoryName)
      && Get(d, Payee) == Get(e, Payee);
    assert Truthy(d, Item) <==> Truthy(e, Item);
    assert TextOf(d, Item) == TextOf(e, Item) && TextOf(d, CategoryName) == TextOf(e, CategoryName);
    assert TextOf(d, Payee) == TextOf(e, Payee);
  }

  lemma GateOfOne(rows: Rows, id: Id)
    requires id in rows
    ensures Refused(rows, {id}) <==> Incomplete(rows[id])
  {
  }

  /** The round trip, among any calls that touch other rows: re-approving the clone is one
      direct edit of the original and removes the clone; every other row is what the other
      calls made of it. The re-approval is refused exactly when the edited row lacks item or
      payee, and only one that would change nothing leaves the clone behind. */
  lemma EditThenReApprove(
      rows: Rows, calls: seq<Call>, original: Id, clone: Id, actor: Value, now: int)
    requires original in rows && clone !in rows && Interleaved(rows, calls, original, clone)
    requires EditsIn(calls, original, clone) != []
    ensures
      var edits, edited := EditsIn(calls, original, clone), ApplyAll(rows, calls);
      var done := DirectEdit(rows[original], edits, actor, now);
      Apply(edited, ReApprove(clone, actor, now)) ==
        if Incomplete(rows[original] + Merged(edits)) || done == rows[original] then edited
        else edited[original := done] - {clone}
  {
    var edits, edited := EditsIn(calls, original, clone), ApplyAll(rows, calls);
    EditsBuildOneClone(rows, calls, rows[original], original, clone, []);
    assert [] + edits == edits;
    ReApproveStanding(edited, rows[original], original, clone, edits, actor, now);
    ApplyReApprove(edited, clone, actor, now);
  }

  lemma ApplyReApprove(rows: Rows, id: Id, actor: Value, now: int)
    ensures Apply(rows, ReApprove(id, actor, now)) ==
      if Refused(rows, {id}) then rows else ReApproved(rows, id, actor, now)
  {
  }

  lemma ReApproveStanding(edited: Rows, source: Doc, original: Id, clone: Id, edits: seq<Revision>,
      actor: Value, now: int)
    requires Standing(edited, source, original, clone, edits) && edits != []
    ensures Refused(edited, {clone}) <==> Incomplete(source + Merged(edits))
    ensures ReApproved(edited, clone, actor, now) ==
      if DirectEdit(source, edits, actor, now) == source then edited
      else edited[original := DirectEdit(source, edits, actor, now)] - {clone}
  {
    GateOfOne(edited, clone);
    SameGate(edited[clone], source + Merged(edits));
    CascadeIsDirectEdit(source, edited[clone], edits, actor, now);
    OpenCloneCascades(edited, original, clone, actor, now);
    CascadeStores(edited, source, original, clone, CascadeUpdates(edited[clone], actor, now));
  }

  lemma Layered(a: Doc, b: Doc, c: Doc, f: Field)
    ensures Get(a + b + c, f) == if f in c then Some(c[f]) else if f in b then Some(b[f]) else Get(a, f)
  {
  }

  function Verdict(last: Revision, actor: Value, now: int): Doc {
    ReApproveSet(actor, now) + Stamp(last)
  }

  lemma VerdictFields(last: Revision, actor: Value, now: int, f: Field)
    ensures f in Verdict(last, actor, now) ==> IsReApprovalMeta(f)
  {
    ReApproveSetFields(actor, now, f);
  }

  lemma LayeredEdit(source: Doc, edits: seq<Revision>, verdict: Doc, f: Field)
    requires f in verdict ==> IsReApprovalMeta(f)
    ensures IsCascadeField(f) ==>
      Get(source + Carried(edits) + verdict, f) == LastGiven(edits, f, Get(source, f))
    ensures !IsCascadeField(f) && !IsReApprovalMeta(f) ==>
      Get(source + Carried(edits) + verdict, f) == Get(source, f)
  {
    MergedIsLastGiven(edits, f, Get(source, f));
    Layered(source, Carried(edits), verdict, f);
    CascadeIsNoMeta(f);
    assert f in Carried(edits) <==> f in Merged(edits) && IsCascadeField(f);
  }

  lemma CascadeIsNoMeta(f: Field)
    ensures IsCascadeField(f) ==> !IsReApprovalMeta(f)
  {
  }

  /** Field by field: cascade fields take the last update given, and nothing else outside
      the verification and edit-audit fields moves. */
  lemma DirectEditField(source: Doc, edits: seq<Revision>, actor: Value, now: int, f: Field)
    requires edits != []
    ensures IsCascadeField(f) ==>
      Get(DirectEdit(source, edits, actor, now), f) == LastGiven(edits, f, Get(source, f))
    ensures !IsCascadeField(f) && !IsReApprovalMeta(f) ==>
      Get(DirectEdit(source, edits, actor, now), f) == Get(source, f)
  {
    VerdictFields(edits[|edits| - 1], actor, now, f);
    LayeredEdit(source, edits, Verdict(edits[|edits| - 1], actor, now), f);
  }

  /** The most recent value an edit gave for a field, or the value it had. */
  function LastGiven(edits: seq<Revision>, f: Field, start: Option<Value>): Option<Value> {
    if edits == [] then start
    else if f in edits[|edits| - 1].updates then Some(edits[|edits| - 1].updates[f])
    else LastGiven(edits[..|edits| - 1], f, start)
  }

  lemma {:induction false} MergedIsLastGiven(edits: seq<Revision>, f: Field, start: Option<Value>)
    ensures LastGiven(edits, f, start) == if f in Merged(edits) then Some(Merged(edits)[f]) else start
    decreases |edits|
  {
    if edits != [] {
      MergedIsLastGiven(edits[..|edits| - 1], f, start);
    }
  }
}
