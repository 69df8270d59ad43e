/** The item-and-payee gate of approval and re-approval
    (backend/app/accountant_actions_api.py), read off the stored fields. */
module Gate {
  import opened Mongo
  import opened Ascii
  import opened Lifecycle
  import opened Composite
  import opened Moves

  /** The field holds a text with something in it that is not a blank. */
  predicate Says(d: Doc, f: Field) {
    f in d &&
    match d[f]
    case Text(s) => exists i | 0 <= i < |s| :: !IsBlank(s[i])
    case Status(_) => true
    case _ => false
  }

  /** A missing, null or empty item (or a zero or a false) gives way to the category name. */
  predicate GivesWay(d: Doc, f: Field) {
    f !in d || d[f] == Null || d[f] == Text("") || d[f] == Bool(false) || d[f] == Num(0)
  }

  /** The row says who is paid, and for what: in its item or, failing that, its category. */
  predicate Complete(d: Doc) {
    Says(d, Payee) && if GivesWay(d, Item) then Says(d, CategoryName) else Says(d, Item)
  }

  lemma StatusSpeaks(stage: Stage)
    ensures !AllBlank(StatusText(stage))
  {
    assert !IsBlank(StatusText(stage)[0]);
  }

  lemma SaysText(d: Doc, f: Field)
    ensures Says(d, f) <==> !AllBlank(TextOf(d, f))
  {
    if f in d && d[f].Status? { StatusSpeaks(d[f].stage); }
  }

  lemma GivesWayMeans(d: Doc, f: Field)
    ensures GivesWay(d, f) <==> !Truthy(d, f)
  {
  }

  lemma IncompleteMeans(d: Doc)
    ensures Incomplete(d) <==> !Complete(d)
  {
    GivesWayMeans(d, Item);
    SaysText(d, Payee);
    SaysText(d, Item);
    SaysText(d, CategoryName);
  }

  /** Approval and re-approval are refused exactly when some row asked for has a payee that
      is missing, null or all blank, or says nothing in its item, where a missing or empty
      item gives way to the category name. */
  lemma RefusedMeans(rows: Rows, ids: set<Id>)
    ensures Refused(rows, ids) <==> exists id | id in ids && id in rows :: !Complete(rows[id])
  {
    forall id | id in rows { IncompleteMeans(rows[id]); }
  }

  // ---------------------------------------------------------------- who gets verified

  /** The row was verified by the call. */
  predicate NewlyVerified(rows: Rows, after: Rows, id: Id) {
    id in rows && id in after && !IsTrue(rows[id], Verified) && IsTrue(after[id], Verified)
  }

  /** Row `j` is among those asked for, complete, and is row `id` or a clone of it. */
  predicate Vouches(rows: Rows, ids: set<Id>, j: Id, id: Id) {
    j in ids && j in rows && Complete(rows[j]) && (j == id || IsCloneOf(rows[j], id))
  }

  lemma ApplyApproval(rows: Rows, ids: set<Id>, actor: Value, now: int)
    ensures Apply(rows, Approve(ids, actor, now)) == if Refused(rows, ids) then rows
      else UpdateWhere(rows, UnverifiedIn(ids), ApproveSet(actor, now), {DuplicateOfId})
  {
  }

  /** Approval verifies only rows asked for that were complete, and leaves them complete. */
  lemma ApprovedWasComplete(rows: Rows, ids: set<Id>, actor: Value, now: int, id: Id)
    requires NewlyVerified(rows, Apply(rows, Approve(ids, actor, now)), id)
    ensures id in ids && Complete(rows[id]) && Complete(Apply(rows, Approve(ids, actor, now))[id])
  {
    ApplyApproval(rows, ids, actor, now);
    RefusedMeans(rows, ids);
    ApproveMoves(rows, ids, actor, now, id);
    ApprovalKeepsTexts(rows[id], actor, now);
  }

  lemma ApprovalKeepsTexts(d: Doc, actor: Value, now: int)
    ensures Complete(Modify(d, ApproveSet(actor, now), {DuplicateOfId})) <==> Complete(d)
    ensures Complete(d + ReApproveSet(actor, now)) <==> Complete(d)
  {
    var e, f := Modify(d, ApproveSet(actor, now), {DuplicateOfId}), d + ReApproveSet(actor, now);
    assert Get(e, Payee) == Get(d, Payee) && Get(e, Item) == Get(d, Item)
      && Get(e, CategoryName) == Get(d, CategoryName);
    assert Get(f, Payee) == Get(d, Payee) && Get(f, Item) == Get(d, Item)
      && Get(f, CategoryName) == Get(d, CategoryName);
    SameTextsComplete(d, e);
    SameTextsComplete(d, f);
  }

  lemma SameTextsComplete(d: Doc, e: Doc)
    requires Get(e, Payee) == Get(d, Payee) && Get(e, Item) == Get(d, Item)
      && Get(e, CategoryName) == Get(d, CategoryName)
    ensures Complete(e) <==> Complete(d)
  {
  }

  /** One re-approval verifies the row itself, or the original that the row is a clone of. */
  lemma ReApprovalVerifies(rows: Rows, j: Id, actor: Value, now: int, id: Id)
    requires NewlyVerified(rows, ReApproved(rows, j, actor, now), id)
    ensures j in rows && (j == id || IsCloneOf(rows[j], id))
  {
  }

  /** And it carries over the payee. */
  lemma ReApprovalPays(rows: Rows, j: Id, actor: Value, now: int, id: Id)
    requires NewlyVerified(rows, ReApproved(rows, j, actor, now), id) && j in rows && Payee in rows[j]
    ensures Get(ReApproved(rows, j, actor, now)[id], Payee) == Get(rows[j], Payee)
  {
    PayeeIsCarried(rows[id], rows[j], actor, now);
  }

  lemma ApplyReApproval(rows: Rows, j: Id, actor: Value, now: int)
    ensures Apply(rows, ReApprove(j, actor, now)) ==
      if Refused(rows, {j}) then rows else ReApproved(rows, j, actor, now)
  {
  }

  /** A single re-approval verifies a row only on the word of a complete one: itself, or the
      clone that is cascaded onto it and gives it its payee. */
  lemma ReApprovedWasComplete(rows: Rows, j: Id, actor: Value, now: int, id: Id)
    requires NewlyVerified(rows, Apply(rows, ReApprove(j, actor, now)), id)
    ensures Vouches(rows, {j}, j, id)
    ensures Get(Apply(rows, ReApprove(j, actor, now))[id], Payee) == Get(rows[j], Payee)
  {
    ApplyReApproval(rows, j, actor, now);
    RefusedMeans(rows, {j});
    ReApprovalVerifies(rows, j, actor, now, id);
    ReApprovalPays(rows, j, actor, now, id);
  }

  lemma PayeeIsCarried(d: Doc, pending: Doc, actor: Value, now: int)
    requires Payee in pending
    ensures Get(d + CascadeUpdates(pending, actor, now), Payee) == Get(pending, Payee)
    ensures Get(pending + ReApproveSet(actor, now), Payee) == Get(pending, Payee)
  {
    assert Payee in Cascaded(pending) && Payee !in ReApprovalMeta(pending, actor, now);
  }

  lemma {:induction false} CascadesVerify(rows: Rows, order: seq<Id>, actor: Value, now: int, id: Id)
    requires NewlyVerified(rows, ReApprovedAll(rows, order, actor, now), id)
    ensures exists j :: j in order && j in rows && (j == id || IsCloneOf(rows[j], id))
    decreases |order|
  {
    if order != [] {
      var n := |order| - 1;
      var mid := ReApprovedAll(rows, order[..n], actor, now);
      ReApprovalKeepsLinks(mid, order[n], actor, now, id);
      if IsTrue(mid[id], Verified) {
        CascadesVerify(rows, order[..n], actor, now, id);
        var j :| j in order[..n] && j in rows && (j == id || IsCloneOf(rows[j], id));
        assert j in order;
      } else {
        ReApprovalVerifies(mid, order[n], actor, now, id);
        LinksStay(rows, order[..n], actor, now, order[n]);
        assert order[n] in order;
      }
    }
  }

  lemma {:induction false} LinksStay(rows: Rows, order: seq<Id>, actor: Value, now: int, i: Id)
    requires i in ReApprovedAll(rows, order, actor, now)
    ensures i in rows && Get(ReApprovedAll(rows, order, actor, now)[i], OriginalTransactionId) ==
      Get(rows[i], OriginalTransactionId)
    decreases |order|
  {
    if order != [] {
      ReApprovalKeepsLinks(ReApprovedAll(rows, order[..|order| - 1], actor, now), order[|order| - 1], actor, now, i);
      LinksStay(rows, order[..|order| - 1], actor, now, i);
    }
  }

  lemma {:induction false} CascadesAreListed(rows: Rows, listing: seq<Id>)
    ensures forall j :: j in CascadesIn(rows, listing) <==>
      j in listing && j in rows && Truthy(rows[j], OriginalTransactionId)
    decreases |listing|
  {
    if listing != [] { CascadesAreListed(rows, listing[..|listing| - 1]); }
  }

  /** Bulk re-approval verifies a row only on the word of a complete row that was asked for:
      itself or a clone of it. */
  lemma BulkReApprovedWasComplete(rows: Rows, ids: set<Id>, listing: seq<Id>, actor: Value, now: int, id: Id)
    requires Lists(rows, UnverifiedIn(ids), listing)
    requires NewlyVerified(rows, Apply(rows, BulkReApprove(ids, listing, actor, now)), id)
    ensures exists j :: Vouches(rows, ids, j, id)
  {
    RefusedMeans(rows, ids);
    var order := CascadesIn(rows, listing);
    var mid := ReApprovedAll(rows, order, actor, now);
    if id in mid && IsTrue(mid[id], Verified) {
      CascadedWasComplete(rows, ids, listing, actor, now, id);
    } else {
      assert id in SimpleIn(rows, listing);
      assert id in Picked(rows, UnverifiedIn(ids));
      assert Vouches(rows, ids, id, id);
    }
  }

  lemma CascadedWasComplete(rows: Rows, ids: set<Id>, listing: seq<Id>, actor: Value, now: int, id: Id)
    requires Lists(rows, UnverifiedIn(ids), listing) && !Refused(rows, ids)
    requires NewlyVerified(rows, ReApprovedAll(rows, CascadesIn(rows, listing), actor, now), id)
    ensures exists j :: Vouches(rows, ids, j, id)
  {
    RefusedMeans(rows, ids);
    CascadesAreListed(rows, listing);
    CascadesVerify(rows, CascadesIn(rows, listing), actor, now, id);
    var j :| j in CascadesIn(rows, listing) && j in rows && (j == id || IsCloneOf(rows[j], id));
    assert j in Picked(rows, UnverifiedIn(ids));
    assert Vouches(rows, ids, j, id);
  }
}
