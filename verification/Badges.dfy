/** Stored sidebar badges (backend/app/badge_counters.py): who is counted where,
    the delta of one row change, and why folding deltas equals recounting. */
module Badges {
  import opened Mongo

  datatype Badge = Verify | Edited | Drafts | Parked | DeletionRequests | RestoreRequests

  const BADGE_KEYS: set<Badge> :=
    {Verify, Edited, Drafts, Parked, DeletionRequests, RestoreRequests}

  /** BADGE_TOUCH_FIELDS: the fields a badge depends on. */
  predicate IsTouchField(f: Field) {
    f.RegisterStatus? || f.Verified? || f.Rejected? || f.Discarded? || f.DeletionRequested?
    || f.Trashed? || f.RestoreRequested? || f.EditedAfterVerification?
  }

  /** What `load_badge_docs` projects. */
  predicate IsCounted(f: Field) { IsTouchField(f) || f.CashierId? }

  // ---------------------------------------------------------------- Python predicates

  predicate InVerify(d: Doc) {
    && IsFalse(d, Verified)
    && Get(d, RegisterStatus) == Some(Status(AsSubmitted))
    && !IsTrue(d, Rejected) && !IsTrue(d, Trashed) && !IsTrue(d, DeletionRequested)
  }

  predicate InEdited(d: Doc) {
    InVerify(d) && IsTrue(d, EditedAfterVerification)
  }

  predicate OpenRegister(d: Doc) {
    && !IsTrue(d, Verified) && !IsTrue(d, Rejected) && !IsTrue(d, Discarded)
    && !IsTrue(d, DeletionRequested) && !IsTrue(d, Trashed)
  }

  predicate InDrafts(d: Doc) {
    Get(d, RegisterStatus) == Some(Status(AsDraft)) && OpenRegister(d)
  }

  predicate InParked(d: Doc) {
    Get(d, RegisterStatus) == Some(Status(AsParked)) && OpenRegister(d)
  }

  predicate InDeletionRequests(d: Doc) {
    IsTrue(d, DeletionRequested) && !IsTrue(d, Trashed)
  }

  predicate InRestoreRequests(d: Doc) {
    IsTrue(d, Trashed) && IsTrue(d, RestoreRequested)
  }

  predicate Member(b: Badge, d: Doc) {
    match b
    case Verify => InVerify(d)
    case Edited => InEdited(d)
    case Drafts => InDrafts(d)
    case Parked => InParked(d)
    case DeletionRequests => InDeletionRequests(d)
    case RestoreRequests => InRestoreRequests(d)
  }

  function CashierKey(d: Doc): Option<Value> {
    if CashierId !in d || d[CashierId] == Null then None else Some(d[CashierId])
  }

  // ---------------------------------------------------------------- Mongo count queries

  function InboxBaseQuery(): Query {
    Fields(map[Verified := Is(NO), RegisterStatus := Is(Status(AsSubmitted)),
               Rejected := IsNot(YES), Trashed := IsNot(YES), DeletionRequested := IsNot(YES)])
  }

  function EditedCountQuery(): Query {
    Fields(InboxBaseQuery().fields[EditedAfterVerification := Is(YES)])
  }

  function OpenMatch(stage: Cond): Query {
    Fields(map[RegisterStatus := stage, Verified := IsNot(YES), Rejected := IsNot(YES),
               Discarded := IsNot(YES), DeletionRequested := IsNot(YES), Trashed := IsNot(YES)])
  }

  function DraftBaseMatch(): Query { OpenMatch(Is(Status(AsDraft))) }

  function ParkedBaseMatch(): Query { OpenMatch(Is(Status(AsParked))) }

  function DraftOrParkedMatch(): Query {
    OpenMatch(OneOf([Status(AsDraft), Status(AsParked)]))
  }

  function DeletionBaseMatch(): Query {
    Fields(map[DeletionRequested := Is(YES), Trashed := IsNot(YES)])
  }

  function RestoreCountMatch(): Query {
    Fields(map[Trashed := Is(YES), RestoreRequested := Is(YES)])
  }

  function CountQuery(b: Badge): Query {
    match b
    case Verify => InboxBaseQuery()
    case Edited => EditedCountQuery()
    case Drafts => DraftBaseMatch()
    case Parked => ParkedBaseMatch()
    case DeletionRequests => DeletionBaseMatch()
    case RestoreRequests => RestoreCountMatch()
  }

  lemma InboxQueryMeans(d: Doc)
    ensures Matches(InboxBaseQuery(), d) <==> InVerify(d)
  {
    var q := InboxBaseQuery().fields;
    assert q.Keys == {Verified, RegisterStatus, Rejected, Trashed, DeletionRequested};
    assert Matches(InboxBaseQuery(), d) <==>
      && Holds(q[Verified], Get(d, Verified)) && Holds(q[RegisterStatus], Get(d, RegisterStatus))
      && Holds(q[Rejected], Get(d, Rejected)) && Holds(q[Trashed], Get(d, Trashed))
      && Holds(q[DeletionRequested], Get(d, DeletionRequested));
  }

  lemma OneEntryMore(q: map<Field, Cond>, f: Field, c: Cond, d: Doc)
    requires f !in q
    ensures Matches(Fields(q[f := c]), d) <==> Matches(Fields(q), d) && Holds(c, Get(d, f))
  {
    assert forall g | g in q :: q[f := c][g] == q[g];
    assert q[f := c][f] == c;
  }

  lemma InboxMeaning(d: Doc)
    ensures Matches(InboxBaseQuery(), d) <==> InVerify(d)
    ensures Matches(EditedCountQuery(), d) <==> InEdited(d)
  {
    InboxQueryMeans(d);
    OneEntryMore(InboxBaseQuery().fields, EditedAfterVerification, Is(YES), d);
    assert Fields(InboxBaseQuery().fields) == InboxBaseQuery();
  }

  lemma OpenMatchMeaning(stage: Cond, d: Doc)
    ensures Matches(OpenMatch(stage), d) <==>
      Holds(stage, Get(d, RegisterStatus)) && OpenRegister(d)
  {
    var q := OpenMatch(stage).fields;
    assert q.Keys ==
      {RegisterStatus, Verified, Rejected, Discarded, DeletionRequested, Trashed};
    assert Matches(OpenMatch(stage), d) <==>
      && Holds(q[RegisterStatus], Get(d, RegisterStatus)) && Holds(q[Verified], Get(d, Verified))
      && Holds(q[Rejected], Get(d, Rejected)) && Holds(q[Discarded], Get(d, Discarded))
      && Holds(q[DeletionRequested], Get(d, DeletionRequested))
      && Holds(q[Trashed], Get(d, Trashed));
  }

  lemma RequestMeaning(d: Doc)
    ensures Matches(DeletionBaseMatch(), d) <==> InDeletionRequests(d)
    ensures Matches(RestoreCountMatch(), d) <==> InRestoreRequests(d)
  {
    var q, r := DeletionBaseMatch().fields, RestoreCountMatch().fields;
    assert q.Keys == {DeletionRequested, Trashed} && r.Keys == {Trashed, RestoreRequested};
    assert Matches(DeletionBaseMatch(), d) <==>
      Holds(q[DeletionRequested], Get(d, DeletionRequested)) && Holds(q[Trashed], Get(d, Trashed));
    assert Matches(RestoreCountMatch(), d) <==>
      Holds(r[Trashed], Get(d, Trashed)) && Holds(r[RestoreRequested], Get(d, RestoreRequested));
  }

  /** For every document, with any mix of missing, null, false, true or other
      scalar fields, the in-process predicate and the count query agree. */
  lemma MembershipIsCountQuery(b: Badge, d: Doc)
    ensures Member(b, d) <==> Matches(CountQuery(b), d)
  {
    match b {
      case Verify => InboxMeaning(d);
      case Edited => InboxMeaning(d);
      case Drafts => OpenMatchMeaning(Is(Status(AsDraft)), d);
      case Parked => OpenMatchMeaning(Is(Status(AsParked)), d);
      case DeletionRequests => RequestMeaning(d);
      case RestoreRequests => RequestMeaning(d);
    }
  }

  lemma DraftOrParkedIsOpenStage(d: Doc)
    ensures Matches(DraftOrParkedMatch(), d) <==> InDrafts(d) || InParked(d)
  {
    var stages := [Status(AsDraft), Status(AsParked)];
    OpenMatchMeaning(OneOf(stages), d);
    assert stages[0] in stages && stages[1] in stages;
  }

  /** The three parts of the Verify total are pairwise disjoint, and Edited is inside Verify. */
  lemma BadgePartsAreDisjoint(d: Doc)
    ensures !(Member(Verify, d) && Member(DeletionRequests, d))
    ensures !(Member(Verify, d) && Member(RestoreRequests, d))
    ensures !(Member(DeletionRequests, d) && Member(RestoreRequests, d))
    ensures Member(Edited, d) ==> Member(Verify, d)
    ensures !(Member(Drafts, d) && Member(Parked, d))
  {
  }

  // ---------------------------------------------------------------- counters

  datatype Shelf = DraftShelf | ParkedShelf

  /** One number of the stored document: a global total, or `cashiers.<id>.drafts|parked`. */
  datatype CounterKey = Total(badge: Badge) | PerCashier(cashier: Value, shelf: Shelf)

  type Counters = map<CounterKey, int>

  /** A stored number, with an absent entry read as zero. */
  function Read(c: Counters, k: CounterKey): int {
    if k in c then c[k] else 0
  }

  function ShelfBadge(s: Shelf): Badge {
    if s.DraftShelf? then Drafts else Parked
  }

  predicate Hit(k: CounterKey, d: Doc) {
    match k
    case Total(b) => Member(b, d)
    case PerCashier(c, shelf) => CashierKey(d) == Some(c) && Member(ShelfBadge(shelf), d)
  }

  /** A shelf counts a row for the account that its cashier field holds, and a row whose
      cashier is missing or null for nobody. */
  lemma ShelfMeans(c: Value, d: Doc)
    ensures Hit(PerCashier(c, DraftShelf), d) <==> c != Null && CashierId in d && d[CashierId] == c && InDrafts(d)
    ensures Hit(PerCashier(c, ParkedShelf), d) <==> c != Null && CashierId in d && d[CashierId] == c && InParked(d)
  {
  }

  function Bit(b: bool): int { if b then 1 else 0 }

  function HitOf(k: CounterKey, d: Option<Doc>): int {
    if d.Some? then Bit(Hit(k, d.value)) else 0
  }

  function Hits(rows: Rows, k: CounterKey): set<Id> {
    set id | id in rows && Hit(k, rows[id])
  }

  /** The slow recount of one counter. */
  function Tally(rows: Rows, k: CounterKey): nat { |Hits(rows, k)| }

  lemma TallyIsCountDocuments(rows: Rows, b: Badge)
    ensures Tally(rows, Total(b)) == CountOf(rows, CountQuery(b))
  {
    var q := CountQuery(b);
    forall id | id in rows ensures Hit(Total(b), rows[id]) <==> Matches(q, rows[id]) {
      MembershipIsCountQuery(b, rows[id]);
    }
    assert Hits(rows, Total(b)) == Picked(rows, Selector(None, q));
  }

  function At(rows: Rows, id: Id): Option<Doc> {
    if id in rows then Some(rows[id]) else None
  }

  lemma TallyWithoutRow(rows: Rows, id: Id, k: CounterKey)
    ensures Tally(rows, k) == Tally(rows - {id}, k) + HitOf(k, At(rows, id))
  {
    var all, rest := Hits(rows, k), Hits(rows - {id}, k);
    assert rest == all - {id};
    assert id in all <==> HitOf(k, At(rows, id)) == 1;
  }

  /** Storing, replacing or removing one row moves a recount by that row's own hit. */
  lemma TallyChangesAtOneRow(rows: Rows, rows': Rows, id: Id, k: CounterKey)
    requires rows - {id} == rows' - {id}
    ensures Tally(rows', k) - Tally(rows, k) == HitOf(k, At(rows', id)) - HitOf(k, At(rows, id))
  {
    TallyWithoutRow(rows, id, k);
    TallyWithoutRow(rows', id, k);
  }

  /** One remembered row change, as `note_many` receives it. */
  datatype Change = Change(before: Option<Doc>, after: Option<Doc>)

  function Delta(c: Change, k: CounterKey): int {
    HitOf(k, c.after) - HitOf(k, c.before)
  }

  /** The sum of the changes' own deltas: applying `note_transition` to each in turn. */
  function Noted(cs: seq<Change>, k: CounterKey): int {
    if cs == [] then 0 else Noted(cs[..|cs| - 1], k) + Delta(cs[|cs| - 1], k)
  }

  predicate NoDup<T(==)>(s: seq<T>) {
    forall i, j | 0 <= i < j < |s| :: s[i] != s[j]
  }

  /** A change speaks for row `id` when each side hits exactly what the stored row hits. */
  ghost predicate SpeaksFor(c: Change, before: Option<Doc>, after: Option<Doc>) {
    forall k :: HitOf(k, c.before) == HitOf(k, before) && HitOf(k, c.after) == HitOf(k, after)
  }

  /** The heart of the cache: whatever rows a write touched, noting one faithful
      change per touched row moves every counter exactly as a recount would. */
  lemma {:induction false} NotedFollowsRecount(
      rows: Rows, rows': Rows, ids: seq<Id>, cs: seq<Change>, k: CounterKey)
    requires NoDup(ids) && |ids| == |cs|
    requires forall id | id !in ids :: At(rows, id) == At(rows', id)
    requires forall i | 0 <= i < |ids| :: SpeaksFor(cs[i], At(rows, ids[i]), At(rows', ids[i]))
    ensures Noted(cs, k) == Tally(rows', k) - Tally(rows, k)
    decreases |ids|
  {
    if ids == [] {
      assert forall id :: id in rows <==> At(rows, id).Some?;
      assert forall id :: id in rows' <==> At(rows', id).Some?;
      assert forall id :: At(rows, id) == At(rows', id);
      assert rows' == rows;
    } else {
      var n := |ids| - 1;
      var last := ids[n];
      var middle := if last in rows then rows'[last := rows[last]] else rows' - {last};
      assert middle - {last} == rows' - {last};
      TallyChangesAtOneRow(middle, rows', last, k);
      forall id | id !in ids[..n] ensures At(rows, id) == At(middle, id) {
        assert id != last ==> id !in ids;
      }
      forall i | 0 <= i < n ensures At(middle, ids[i]) == At(rows', ids[i]) {
        assert ids[i] != last;
      }
      NotedFollowsRecount(rows, middle, ids[..n], cs[..n], k);
      assert SpeaksFor(cs[n], At(rows, last), At(rows', last));
      assert At(middle, last) == At(rows, last);
    }
  }

  lemma {:induction false} NotedSkip(q: seq<Change>, i: nat, k: CounterKey)
    requires i < |q|
    ensures Noted(q, k) == Noted(q[..i] + q[i + 1..], k) + Delta(q[i], k)
  {
    var n := |q| - 1;
    if i == n {
      assert q[..i] + q[i + 1..] == q[..n];
    } else {
      var rest := q[..i] + q[i + 1..];
      NotedSkip(q[..n], i, k);
      assert q[..n][..i] + q[..n][i + 1..] == rest[..|rest| - 1];
      assert rest[|rest| - 1] == q[n];
    }
  }

  lemma SkipMultiset<T>(q: seq<T>, i: nat)
    requires i < |q|
    ensures multiset(q[..i] + q[i + 1..]) == multiset(q) - multiset{q[i]}
  {
    assert q == q[..i] + [q[i]] + q[i + 1..];
  }

  /** `note_many` may take the changes in any order. */
  lemma {:induction false} NotedIgnoresOrder(p: seq<Change>, q: seq<Change>, k: CounterKey)
    requires multiset(p) == multiset(q)
    ensures Noted(p, k) == Noted(q, k)
    decreases |p|
  {
    if p == [] {
      assert |multiset(q)| == |q| == 0;
    } else {
      var n := |p| - 1;
      assert p[n] in multiset(q);
      var i :| 0 <= i < |q| && q[i] == p[n];
      SkipMultiset(q, i);
      SkipMultiset(p, n);
      assert p[..n] + p[n + 1..] == p[..n];
      NotedIgnoresOrder(p[..n], q[..i] + q[i + 1..], k);
      NotedSkip(q, i, k);
    }
  }

  function History(docs: seq<Doc>): seq<Change> {
    seq(|docs|, i requires 0 <= i < |docs| =>
      Change(if i == 0 then None else Some(docs[i - 1]), Some(docs[i])))
  }

  /** Deltas telescope along a row's life: after any sequence of versions the
      row contributes exactly its last version, never less than zero. */
  lemma {:induction false} DeltasTelescope(docs: seq<Doc>, k: CounterKey)
    requires docs != []
    ensures Noted(History(docs), k) == Bit(Hit(k, docs[|docs| - 1]))
  {
    var n := |docs| - 1;
    assert History(docs)[..n] == History(docs[..n]);
    if n > 0 {
      DeltasTelescope(docs[..n], k);
    }
  }

  // ---------------------------------------------------------------- remembered documents

  /** `load_badge_docs` keeps only the counted fields. */
  function Project(d: Doc): Doc {
    map f | f in d && IsCounted(f) :: d[f]
  }

  lemma ProjectMeans(d: Doc, f: Field)
    ensures Get(Project(d), f) ==
      if f in {RegisterStatus, Verified, Rejected, Discarded, DeletionRequested, Trashed, RestoreRequested,
               EditedAfterVerification, CashierId}
      then Get(d, f) else None
  {
  }

  /** Two documents agree on every field of the projection. */
  ghost predicate SameCounted(d: Doc, e: Doc) {
    && Get(d, RegisterStatus) == Get(e, RegisterStatus)
    && Get(d, Verified) == Get(e, Verified)
    && Get(d, Rejected) == Get(e, Rejected)
    && Get(d, Discarded) == Get(e, Discarded)
    && Get(d, DeletionRequested) == Get(e, DeletionRequested)
    && Get(d, Trashed) == Get(e, Trashed)
    && Get(d, RestoreRequested) == Get(e, RestoreRequested)
    && Get(d, EditedAfterVerification) == Get(e, EditedAfterVerification)
    && Get(d, CashierId) == Get(e, CashierId)
  }

  lemma SameCountedSameHits(d: Doc, e: Doc)
    requires SameCounted(d, e)
    ensures forall k :: Hit(k, d) <==> Hit(k, e)
  {
    assert CashierKey(d) == CashierKey(e);
    forall b: Badge ensures Member(b, d) <==> Member(b, e) {
    }
  }

  /** The `changes` a handler passes to `apply_remembered` count like its real write. */
  ghost predicate Covers(set_: Doc, unset: set<Field>, noted: Doc) {
    forall d: Doc, k :: Hit(k, Project(d) + noted) <==> Hit(k, Modify(d, set_, unset))
  }

  lemma ProjectionKeepsHits(d: Doc)
    ensures forall k :: Hit(k, Project(d)) <==> Hit(k, d)
  {
    SameCountedSameHits(Project(d), d);
  }
}
