/** The arithmetic of backend/app/badge_counters.py: `transition_delta`, the
    dictionaries `note_many` accumulates, and the `$inc` document of `adjust_badges`. */
module BadgeStore {
  import opened Mongo
  import opened Badges

  datatype Bucket = Bucket(drafts: int, parked: int)

  const EMPTY_BUCKET := Bucket(0, 0)

  type Buckets = map<Value, Bucket>

  function TotalOf(totals: map<Badge, int>, b: Badge): int {
    if b in totals then totals[b] else 0
  }

  function BucketOf(cashiers: Buckets, c: Value): Bucket {
    if c in cashiers then cashiers[c] else EMPTY_BUCKET
  }

  function ShelfOf(bucket: Bucket, s: Shelf): int {
    if s.DraftShelf? then bucket.drafts else bucket.parked
  }

  function Membership(d: Option<Doc>): map<Badge, int> {
    map b | b in BADGE_KEYS :: if d.Some? then Bit(Member(b, d.value)) else 0
  }

  method Touch(cashiers: Buckets, d: Option<Doc>, sign: int) returns (r: Buckets)
    ensures forall c, s :: (ShelfOf(BucketOf(r, c), s) ==
      ShelfOf(BucketOf(cashiers, c), s) + sign * HitOf(PerCashier(c, s), d))
  {
    r := cashiers;
    if d.None? || CashierKey(d.value).None? { return; }
    var key := CashierKey(d.value).value;
    var bucket := BucketOf(r, key);
    if InDrafts(d.value) { bucket := bucket.(drafts := bucket.drafts + sign); }
    if InParked(d.value) { bucket := bucket.(parked := bucket.parked + sign); }
    r := r[key := bucket];
  }

  /** `transition_delta`: only non-zero entries, and exactly the change of every counter. */
  method TransitionDelta(before: Option<Doc>, after: Option<Doc>)
    returns (deltas: map<Badge, int>, cashiers: Buckets)
    ensures forall b :: TotalOf(deltas, b) == Delta(Change(before, after), Total(b))
    ensures forall b | b in deltas :: deltas[b] != 0
    ensures forall c, s ::
      ShelfOf(BucketOf(cashiers, c), s) == Delta(Change(before, after), PerCashier(c, s))
    ensures forall c | c in cashiers :: cashiers[c] != EMPTY_BUCKET
  {
    var was, now := Membership(before), Membership(after);
    deltas := map b | b in BADGE_KEYS && now[b] != was[b] :: now[b] - was[b];
    forall b: Badge ensures TotalOf(deltas, b) == Delta(Change(before, after), Total(b)) {
      match b { case Verify => case Edited => case Drafts => case Parked =>
        case DeletionRequests => case RestoreRequests => }
    }
    var touched := Touch(map[], before, -1);
    touched := Touch(touched, after, 1);
    cashiers := map c | c in touched && touched[c] != EMPTY_BUCKET :: touched[c];
    forall c, s ensures ShelfOf(BucketOf(cashiers, c), s) == ShelfOf(BucketOf(touched, c), s) {
    }
  }

  /** `total[key] = total.get(key, 0) + value` over one row's deltas. */
  method AddTotals(total: map<Badge, int>, deltas: map<Badge, int>) returns (r: map<Badge, int>)
    ensures forall b :: TotalOf(r, b) == TotalOf(total, b) + TotalOf(deltas, b)
  {
    r := total;
    var todo := deltas.Keys;
    while todo != {}
      invariant todo <= deltas.Keys
      invariant forall b :: (TotalOf(r, b) ==
        TotalOf(total, b) + if b in todo then 0 else TotalOf(deltas, b))
      decreases todo
    {
      var b :| b in todo;
      r := r[b := TotalOf(r, b) + deltas[b]];
      todo := todo - {b};
    }
  }

  /** The bucket half of the same loop. */
  method AddBuckets(total: Buckets, parts: Buckets) returns (r: Buckets)
    ensures forall c, s ::
      ShelfOf(BucketOf(r, c), s) == ShelfOf(BucketOf(total, c), s) + ShelfOf(BucketOf(parts, c), s)
  {
    r := total;
    var todo := parts.Keys;
    while todo != {}
      invariant todo <= parts.Keys
      invariant forall c, s :: (ShelfOf(BucketOf(r, c), s) == ShelfOf(BucketOf(total, c), s)
        + if c in todo then 0 else ShelfOf(BucketOf(parts, c), s))
      decreases todo
    {
      var c :| c in todo;
      var bucket := BucketOf(r, c);
      r := r[c := Bucket(bucket.drafts + parts[c].drafts, bucket.parked + parts[c].parked)];
      todo := todo - {c};
    }
  }

  /** The `$inc` document: one entry per non-zero amount. */
  method IncDocument(deltas: map<Badge, int>, cashiers: Buckets) returns (inc: Counters)
    ensures forall b :: Read(inc, Total(b)) == TotalOf(deltas, b)
    ensures forall c, s :: Read(inc, PerCashier(c, s)) == ShelfOf(BucketOf(cashiers, c), s)
    ensures forall k | k in inc :: inc[k] != 0
  {
    inc := map[];
    var badges := deltas.Keys;
    while badges != {}
      invariant badges <= deltas.Keys
      invariant forall b :: Read(inc, Total(b)) == if b in badges then 0 else TotalOf(deltas, b)
      invariant forall k | k in inc :: k.Total? && inc[k] != 0
      decreases badges
    {
      var b :| b in badges;
      if deltas[b] != 0 { inc := inc[Total(b) := deltas[b]]; }
      badges := badges - {b};
    }
    var todo := cashiers.Keys;
    while todo != {}
      invariant todo <= cashiers.Keys
      invariant forall b :: Read(inc, Total(b)) == TotalOf(deltas, b)
      invariant forall c, s :: (Read(inc, PerCashier(c, s)) ==
        if c in todo then 0 else ShelfOf(BucketOf(cashiers, c), s))
      invariant forall k | k in inc :: inc[k] != 0
      decreases todo
    {
      var c :| c in todo;
      if cashiers[c].drafts != 0 { inc := inc[PerCashier(c, DraftShelf) := cashiers[c].drafts]; }
      if cashiers[c].parked != 0 { inc := inc[PerCashier(c, ParkedShelf) := cashiers[c].parked]; }
      todo := todo - {c};
    }
  }

  /** The bucket of one row after `_cashier_buckets` has looked at it. */
  function Tallied(bucket: Bucket, d: Doc): Bucket {
    if Get(d, RegisterStatus) == Some(Status(AsDraft)) then bucket.(drafts := bucket.drafts + 1)
    else if Get(d, RegisterStatus) == Some(Status(AsParked)) then bucket.(parked := bucket.parked + 1)
    else bucket
  }

  lemma TalliedIsHit(bucket: Bucket, d: Doc, c: Value, s: Shelf)
    requires Matches(DraftOrParkedMatch(), d)
    ensures ShelfOf(Tallied(bucket, d), s) == ShelfOf(bucket, s) + Bit(Member(ShelfBadge(s), d))
    ensures Hit(PerCashier(c, s), d) <==> CashierKey(d) == Some(c) && Member(ShelfBadge(s), d)
  {
    DraftOrParkedIsOpenStage(d);
  }

  /** `_cashier_buckets`: one pass over the open draft and parked rows. */
  method CashierBuckets(docs: seq<Doc>) returns (buckets: Buckets)
    requires forall i | 0 <= i < |docs| :: Matches(DraftOrParkedMatch(), docs[i])
    ensures forall c, s :: ShelfOf(BucketOf(buckets, c), s) == HitCount(docs, PerCashier(c, s))
  {
    buckets := map[];
    for i := 0 to |docs|
      invariant forall c, s ::
        ShelfOf(BucketOf(buckets, c), s) == HitCount(docs[..i], PerCashier(c, s))
    {
      ghost var seen := buckets;
      var d := docs[i];
      var key := CashierKey(d);
      if key.Some? {
        buckets := buckets[key.value := Tallied(BucketOf(buckets, key.value), d)];
      }
      forall c, s
        ensures ShelfOf(BucketOf(buckets, c), s) == HitCount(docs[..i + 1], PerCashier(c, s))
      {
        TalliedIsHit(BucketOf(seen, c), d, c, s);
        HitCountStep(docs, i, PerCashier(c, s));
      }
    }
    assert docs[..|docs|] == docs;
  }

  lemma HitCountStep(docs: seq<Doc>, i: nat, k: CounterKey)
    requires i < |docs|
    ensures HitCount(docs[..i + 1], k) == HitCount(docs[..i], k) + Bit(Hit(k, docs[i]))
  {
    assert docs[..i + 1][..i] == docs[..i];
  }

  /** How many documents of a list a counter hits. */
  function HitCount(docs: seq<Doc>, k: CounterKey): int {
    if docs == [] then 0
    else HitCount(docs[..|docs| - 1], k) + Bit(Hit(k, docs[|docs| - 1]))
  }

  /** Counting a duplicate-free listing of rows equals the set recount. */
  lemma {:induction false} ListingCountsRows(rows: Rows, ids: seq<Id>, docs: seq<Doc>, k: CounterKey)
    requires NoDup(ids) && |ids| == |docs|
    requires forall i | 0 <= i < |ids| :: ids[i] in rows && docs[i] == rows[ids[i]]
    requires forall id | id in rows && Hit(k, rows[id]) :: id in ids
    ensures HitCount(docs, k) == Tally(rows, k)
    decreases |ids|
  {
    if ids == [] {
      assert Hits(rows, k) == {};
    } else {
      var n := |ids| - 1;
      var less := rows - {ids[n]};
      ListingCountsRows(less, ids[..n], docs[..n], k);
      TallyWithoutRow(rows, ids[n], k);
    }
  }

  /** The whole document that `repair_badge_counters` writes. */
  function StoredDocument(totals: map<Badge, int>, cashiers: Buckets): (c: Counters)
    ensures forall b :: Read(c, Total(b)) == TotalOf(totals, b)
    ensures forall v, s :: Read(c, PerCashier(v, s)) == ShelfOf(BucketOf(cashiers, v), s)
  {
    var keys := (set b | b in totals :: Total(b))
      + (set v | v in cashiers :: PerCashier(v, DraftShelf))
      + (set v | v in cashiers :: PerCashier(v, ParkedShelf));
    map k | k in keys ::
      match k
      case Total(b) => TotalOf(totals, b)
      case PerCashier(v, s) => ShelfOf(BucketOf(cashiers, v), s)
  }
}
