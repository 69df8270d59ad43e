/** Daily and master imports (backend/app/import_ops.py): batches, a unique index,
    and a payee backfill that together amount to absorbing rows one at a time. */
module Imports {
  import opened Words
  import opened Ascii
  import opened Mongo

  // ---------------------------------------------------------------- stored rows

  /** `(daily_import_id, import_row_key)`, the columns of the partial unique index. */
  type Key = (string, string)

  /** `payee` None is missing or null. */
  datatype Entry = Entry(order: nat, content: int, payee: Option<string>)

  /** Rows covered by the index by key, and rows it does not cover. */
  datatype Store = Store(keyed: map<Key, Entry>, loose: seq<Entry>)

  datatype DailyDoc = DailyDoc(key: Option<Key>, order: nat, content: int, payee: string)

  function EntryOf(d: DailyDoc): Entry { Entry(d.order, d.content, Some(d.payee)) }

  predicate BlankPayee(e: Entry) { e.payee == None || e.payee == Some("") }

  /** One document of an unordered `insert_many`; a duplicate key leaves the store alone. */
  function Insert(s: Store, d: DailyDoc): Store {
    if d.key.None? then s.(loose := s.loose + [EntryOf(d)])
    else if d.key.value in s.keyed then s
    else s.(keyed := s.keyed[d.key.value := EntryOf(d)])
  }

  function IsNew(s: Store, d: DailyDoc): bool { d.key.None? || d.key.value !in s.keyed }

  /** One `UpdateOne` of the backfill: a blank stored payee takes the pushed one. */
  function Fill(s: Store, d: DailyDoc): Store {
    if d.payee != "" && d.key.Some? && d.key.value in s.keyed && BlankPayee(s.keyed[d.key.value])
    then s.(keyed := s.keyed[d.key.value := s.keyed[d.key.value].(payee := Some(d.payee))])
    else s
  }

  /** The simple import: insert the row, or let it fill a blank payee. */
  function Absorb(s: Store, d: DailyDoc): Store {
    if IsNew(s, d) then Insert(s, d) else Fill(s, d)
  }

  function InsertAll(s: Store, docs: seq<DailyDoc>): Store {
    if docs == [] then s else Insert(InsertAll(s, docs[..|docs| - 1]), docs[|docs| - 1])
  }

  function FillAll(s: Store, docs: seq<DailyDoc>): Store {
    if docs == [] then s else Fill(FillAll(s, docs[..|docs| - 1]), docs[|docs| - 1])
  }

  function AbsorbAll(s: Store, docs: seq<DailyDoc>): Store {
    if docs == [] then s else Absorb(AbsorbAll(s, docs[..|docs| - 1]), docs[|docs| - 1])
  }

  /** How many documents `insert_many` inserts. */
  function NewCount(s: Store, docs: seq<DailyDoc>): nat {
    if docs == [] then 0
    else
      var rest, last := docs[..|docs| - 1], docs[|docs| - 1];
      NewCount(s, rest) + (if IsNew(InsertAll(s, rest), last) then 1 else 0)
  }

  // ---------------------------------------------------------------- one key at a time

  function At(s: Store, k: Key): Option<Entry> {
    if k in s.keyed then Some(s.keyed[k]) else None
  }

  function FirstEntry(docs: seq<DailyDoc>, k: Key): Option<Entry> {
    if docs == [] then None
    else if FirstEntry(docs[..|docs| - 1], k).Some? then FirstEntry(docs[..|docs| - 1], k)
    else if docs[|docs| - 1].key == Some(k) then Some(EntryOf(docs[|docs| - 1]))
    else None
  }

  /** The first non-blank payee pushed for a key. */
  function FirstPayee(docs: seq<DailyDoc>, k: Key): string {
    if docs == [] then ""
    else if FirstPayee(docs[..|docs| - 1], k) != "" then FirstPayee(docs[..|docs| - 1], k)
    else if docs[|docs| - 1].key == Some(k) then docs[|docs| - 1].payee
    else ""
  }

  function LooseOf(docs: seq<DailyDoc>): seq<Entry> {
    if docs == [] then []
    else LooseOf(docs[..|docs| - 1]) + if docs[|docs| - 1].key.None? then [EntryOf(docs[|docs| - 1])] else []
  }

  function Filled(o: Option<Entry>, payee: string): Option<Entry> {
    if o.Some? && BlankPayee(o.value) && payee != "" then Some(o.value.(payee := Some(payee))) else o
  }

  /** Where a key ends up: the stored or first pushed row, with a blank payee filled by
      the first non-blank one pushed. */
  function Settled(o: Option<Entry>, docs: seq<DailyDoc>, k: Key): Option<Entry> {
    Filled(if o.Some? then o else FirstEntry(docs, k), FirstPayee(docs, k))
  }

  lemma {:induction false} FirstPayeeOfFirstEntry(docs: seq<DailyDoc>, k: Key)
    ensures FirstEntry(docs, k).None? ==> FirstPayee(docs, k) == ""
    ensures FirstEntry(docs, k).Some? && !BlankPayee(FirstEntry(docs, k).value)
      ==> FirstEntry(docs, k).value.payee == Some(FirstPayee(docs, k))
    decreases |docs|
  {
    if docs != [] { FirstPayeeOfFirstEntry(docs[..|docs| - 1], k); }
  }

  lemma {:induction false} AbsorbSettles(s: Store, docs: seq<DailyDoc>, k: Key)
    ensures At(AbsorbAll(s, docs), k) == Settled(At(s, k), docs, k)
    ensures AbsorbAll(s, docs).loose == s.loose + LooseOf(docs)
    decreases |docs|
  {
    if docs != [] {
      AbsorbSettles(s, docs[..|docs| - 1], k);
      FirstPayeeOfFirstEntry(docs[..|docs| - 1], k);
    }
  }

  lemma {:induction false} InsertAllAt(s: Store, docs: seq<DailyDoc>, k: Key)
    ensures At(InsertAll(s, docs), k) == if At(s, k).Some? then At(s, k) else FirstEntry(docs, k)
    ensures InsertAll(s, docs).loose == s.loose + LooseOf(docs)
    decreases |docs|
  {
    if docs != [] { InsertAllAt(s, docs[..|docs| - 1], k); }
  }

  lemma {:induction false} FillAllAt(s: Store, docs: seq<DailyDoc>, k: Key)
    ensures At(FillAll(s, docs), k) == Filled(At(s, k), FirstPayee(docs, k))
    ensures FillAll(s, docs).loose == s.loose
    decreases |docs|
  {
    if docs != [] { FillAllAt(s, docs[..|docs| - 1], k); }
  }

  lemma {:induction false} FirstOfConcat(a: seq<DailyDoc>, b: seq<DailyDoc>, k: Key)
    ensures FirstEntry(a + b, k) ==
      if FirstEntry(a, k).Some? then FirstEntry(a, k) else FirstEntry(b, k)
    ensures FirstPayee(a + b, k) ==
      if FirstPayee(a, k) != "" then FirstPayee(a, k) else FirstPayee(b, k)
    ensures LooseOf(a + b) == LooseOf(a) + LooseOf(b)
    decreases |b|
  {
    if b == [] {
      assert a + b == a;
    } else {
      assert (a + b)[..|a + b| - 1] == a + b[..|b| - 1];
      FirstOfConcat(a, b[..|b| - 1], k);
    }
  }

  lemma SameStore(s: Store, t: Store)
    requires s.loose == t.loose && forall k :: At(s, k) == At(t, k)
    ensures s == t
  {
    assert forall k :: k in s.keyed <==> At(s, k).Some?;
    assert forall k :: k in t.keyed <==> At(t, k).Some?;
    assert forall k | k in s.keyed :: s.keyed[k] == At(s, k).value == At(t, k).value == t.keyed[k];
    assert s.keyed == t.keyed;
  }

  // ---------------------------------------------------------------- batches

  /** Absorbing a batch is inserting all of it, then filling from all of it. */
  lemma BatchIsAbsorb(s: Store, batch: seq<DailyDoc>)
    ensures FillAll(InsertAll(s, batch), batch) == AbsorbAll(s, batch)
  {
    var done := FillAll(InsertAll(s, batch), batch);
    forall k ensures At(done, k) == At(AbsorbAll(s, batch), k) && done.loose == AbsorbAll(s, batch).loose {
      FillAllAt(InsertAll(s, batch), batch, k);
      InsertAllAt(s, batch, k);
      AbsorbSettles(s, batch, k);
    }
    assert At(done, ("", "")) == At(AbsorbAll(s, batch), ("", ""));
    SameStore(done, AbsorbAll(s, batch));
  }

  lemma {:induction false} AllNewKeys(s: Store, batch: seq<DailyDoc>, k: Key)
    requires NewCount(s, batch) == |batch|
    ensures FirstEntry(batch, k).Some? ==>
      At(s, k).None? && FirstEntry(batch, k).value.payee == Some(FirstPayee(batch, k))
    ensures FirstEntry(batch, k).None? ==> FirstPayee(batch, k) == ""
    decreases |batch|
  {
    if batch != [] {
      var rest := batch[..|batch| - 1];
      NewCountBound(s, rest);
      AllNewKeys(s, rest, k);
      InsertAllAt(s, rest, k);
    }
  }

  lemma {:induction false} NewCountBound(s: Store, docs: seq<DailyDoc>)
    ensures NewCount(s, docs) <= |docs|
    decreases |docs|
  {
    if docs != [] { NewCountBound(s, docs[..|docs| - 1]); }
  }

  /** Skipping the backfill of a batch without duplicates loses nothing. */
  lemma NoDuplicatesNoFill(s: Store, batch: seq<DailyDoc>)
    requires NewCount(s, batch) == |batch|
    ensures InsertAll(s, batch) == AbsorbAll(s, batch)
  {
    forall k ensures At(InsertAll(s, batch), k) == At(AbsorbAll(s, batch), k) {
      AllNewKeys(s, batch, k);
      InsertAllAt(s, batch, k);
      AbsorbSettles(s, batch, k);
    }
    InsertAllAt(s, batch, ("", ""));
    AbsorbSettles(s, batch, ("", ""));
    SameStore(InsertAll(s, batch), AbsorbAll(s, batch));
  }

  lemma {:induction false} AbsorbConcat(s: Store, a: seq<DailyDoc>, b: seq<DailyDoc>)
    ensures AbsorbAll(s, a + b) == AbsorbAll(AbsorbAll(s, a), b)
    decreases |b|
  {
    if b == [] {
      assert a + b == a;
    } else {
      assert (a + b)[..|a + b| - 1] == a + b[..|b| - 1];
      AbsorbConcat(s, a, b[..|b| - 1]);
    }
  }

  lemma SameKeys(s: Store, docs: seq<DailyDoc>)
    ensures InsertAll(s, docs).keyed.Keys == AbsorbAll(s, docs).keyed.Keys
  {
    forall k ensures k in InsertAll(s, docs).keyed <==> k in AbsorbAll(s, docs).keyed {
      InsertAllAt(s, docs, k);
      AbsorbSettles(s, docs, k);
      assert k in InsertAll(s, docs).keyed <==> At(InsertAll(s, docs), k).Some?;
      assert k in AbsorbAll(s, docs).keyed <==> At(AbsorbAll(s, docs), k).Some?;
    }
  }

  lemma {:induction false} NewCountConcat(s: Store, a: seq<DailyDoc>, b: seq<DailyDoc>)
    ensures NewCount(s, a + b) == NewCount(s, a) + NewCount(AbsorbAll(s, a), b)
    decreases |b|
  {
    if b == [] {
      assert a + b == a;
    } else {
      var rest := b[..|b| - 1];
      assert (a + b)[..|a + b| - 1] == a + rest;
      NewCountConcat(s, a, rest);
      SameKeys(s, a + rest);
      SameKeys(AbsorbAll(s, a), rest);
      AbsorbConcat(s, a, rest);
    }
  }

  // ---------------------------------------------------------------- cut-off commits

  /** A commit that died: `n` documents in finished batches, `p` of the next ones
      inserted, `q` of those already tried for the backfill. */
  function CutOff(s: Store, docs: seq<DailyDoc>, n: nat, p: nat, q: nat): Store
    requires n + p <= |docs| && q <= p
  {
    FillAll(InsertAll(AbsorbAll(s, docs[..n]), docs[n..n + p]), docs[n..n + q])
  }

  /** Wherever a commit of keyed documents was cut off, a later complete commit of the
      same documents ends in the same rows as if it had never been tried. */
  lemma CutOffConverges(s: Store, docs: seq<DailyDoc>, n: nat, p: nat, q: nat)
    requires n + p <= |docs| && q <= p
    requires LooseOf(docs) == []
    ensures AbsorbAll(CutOff(s, docs, n, p, q), docs) == AbsorbAll(s, docs)
  {
    var half := CutOff(s, docs, n, p, q);
    forall k ensures At(AbsorbAll(half, docs), k) == At(AbsorbAll(s, docs), k) {
      CutOffKey(s, docs, n, p, q, k);
      AbsorbSettles(half, docs, k);
      AbsorbSettles(s, docs, k);
    }
    CutOffLoose(s, docs, n, p, q);
    AbsorbSettles(half, docs, ("", ""));
    AbsorbSettles(s, docs, ("", ""));
    SameStore(AbsorbAll(half, docs), AbsorbAll(s, docs));
  }

  function Earlier(a: Option<Entry>, b: Option<Entry>): Option<Entry> { if a.Some? then a else b }

  function Prefer(a: string, b: string): string { if a != "" then a else b }

  lemma HalfLoose(s: Store, a: seq<DailyDoc>, b: seq<DailyDoc>, c: seq<DailyDoc>)
    ensures FillAll(InsertAll(AbsorbAll(s, a), b), c).loose == s.loose + LooseOf(a) + LooseOf(b)
  {
    var k := ("", "");
    AbsorbSettles(s, a, k);
    InsertAllAt(AbsorbAll(s, a), b, k);
    FillAllAt(InsertAll(AbsorbAll(s, a), b), c, k);
  }

  lemma {:induction false} NoLooseMeans(docs: seq<DailyDoc>)
    ensures LooseOf(docs) == [] <==> forall i | 0 <= i < |docs| :: docs[i].key.Some?
    decreases |docs|
  {
    if docs != [] { NoLooseMeans(docs[..|docs| - 1]); }
  }

  lemma CutOffLoose(s: Store, docs: seq<DailyDoc>, n: nat, p: nat, q: nat)
    requires n + p <= |docs| && q <= p && LooseOf(docs) == []
    ensures CutOff(s, docs, n, p, q).loose == s.loose
  {
    NoLooseMeans(docs);
    NoLooseMeans(docs[..n]);
    NoLooseMeans(docs[n..n + p]);
    HalfLoose(s, docs[..n], docs[n..n + p], docs[n..n + q]);
  }

  /** A pushed row's own payee, when it has one, is the first payee pushed. */
  predicate OwnPayee(e: Option<Entry>, payee: string) {
    && (e.None? ==> payee == "")
    && (e.Some? && !BlankPayee(e.value) ==> e.value.payee == Some(payee))
  }

  /** Settling three slices of a commit in a row, the middle one only partly filled,
      leaves what settling the whole leaves. */
  lemma SettleAgain(o: Option<Entry>, a: Option<Entry>, pa: string, b: Option<Entry>, pb: string,
      pc: string, d: Option<Entry>, pd: string)
    requires OwnPayee(a, pa) && OwnPayee(b, pb) && OwnPayee(d, pd)
    requires pc == "" || pc == pb
    ensures
      var all, payee := Earlier(Earlier(a, b), d), Prefer(Prefer(pa, pb), pd);
      var half := Filled(Earlier(Filled(Earlier(o, a), pa), b), pc);
      Filled(Earlier(half, all), payee) == Filled(Earlier(o, all), payee)
  {
  }

  lemma HalfDone(s: Store, a: seq<DailyDoc>, b: seq<DailyDoc>, c: seq<DailyDoc>, k: Key)
    ensures At(FillAll(InsertAll(AbsorbAll(s, a), b), c), k) ==
      Filled(Earlier(Filled(Earlier(At(s, k), FirstEntry(a, k)), FirstPayee(a, k)), FirstEntry(b, k)),
        FirstPayee(c, k))
  {
    AbsorbSettles(s, a, k);
    InsertAllAt(AbsorbAll(s, a), b, k);
    FillAllAt(InsertAll(AbsorbAll(s, a), b), c, k);
  }

  lemma PayeeOfPrefix(b: seq<DailyDoc>, q: nat, k: Key)
    requires q <= |b|
    ensures FirstPayee(b[..q], k) == "" || FirstPayee(b[..q], k) == FirstPayee(b, k)
  {
    assert b == b[..q] + b[q..];
    FirstOfConcat(b[..q], b[q..], k);
  }

  lemma CutOffKey(s: Store, docs: seq<DailyDoc>, n: nat, p: nat, q: nat, k: Key)
    requires n + p <= |docs| && q <= p
    ensures Settled(At(CutOff(s, docs, n, p, q), k), docs, k) == Settled(At(s, k), docs, k)
  {
    assert docs == docs[..n] + docs[n..n + p] + docs[n + p..];
    assert docs[n..n + q] == docs[n..n + p][..q];
    CutOffSlices(s, docs[..n], docs[n..n + p], q, docs[n + p..], k);
  }

  lemma FirstOfThree(a: seq<DailyDoc>, b: seq<DailyDoc>, d: seq<DailyDoc>, k: Key)
    ensures FirstEntry(a + b + d, k) == Earlier(Earlier(FirstEntry(a, k), FirstEntry(b, k)), FirstEntry(d, k))
    ensures FirstPayee(a + b + d, k) == Prefer(Prefer(FirstPayee(a, k), FirstPayee(b, k)), FirstPayee(d, k))
  {
    FirstOfConcat(a, b, k);
    FirstOfConcat(a + b, d, k);
  }

  lemma CutOffSlices(
      s: Store, a: seq<DailyDoc>, b: seq<DailyDoc>, q: nat, d: seq<DailyDoc>, k: Key)
    requires q <= |b|
    ensures Settled(At(FillAll(InsertAll(AbsorbAll(s, a), b), b[..q]), k), a + b + d, k) ==
      Settled(At(s, k), a + b + d, k)
  {
    HalfDone(s, a, b, b[..q], k);
    PayeeOfPrefix(b, q, k);
    FirstPayeeOfFirstEntry(a, k);
    FirstPayeeOfFirstEntry(b, k);
    FirstPayeeOfFirstEntry(d, k);
    FirstOfThree(a, b, d, k);
    SettleAgain(At(s, k), FirstEntry(a, k), FirstPayee(a, k), FirstEntry(b, k), FirstPayee(b, k),
      FirstPayee(b[..q], k), FirstEntry(d, k), FirstPayee(d, k));
  }

  // ---------------------------------------------------------------- payloads

  /** One staged row: texts that decide its fate; `digest` is the SHA-256 row key and
      `content` everything else. */
  datatype Payload = Payload(categoryName: string, item: string, uploadId: string,
    digest: string, content: int, payee: string)

  /** `(payload["category_name"] or payload["item"] or "").strip()` is not empty. */
  predicate HasItem(p: Payload) {
    !AllBlank(if p.categoryName != "" then p.categoryName else p.item)
  }

  function Kept(payloads: seq<Payload>): seq<Payload> {
    if payloads == [] then []
    else
      var last := payloads[|payloads| - 1];
      Kept(payloads[..|payloads| - 1]) + (if HasItem(last) then [last] else [])
  }

  /** The first kept row names the upload; `minted` is what `new_upload_id` returns. */
  function UploadOf(payloads: seq<Payload>, minted: string): string {
    if Kept(payloads) == [] then ""
    else if Kept(payloads)[0].uploadId != "" then Kept(payloads)[0].uploadId
    else minted
  }

  /** A document whose upload id strips to nothing gets no `daily_import_id`. */
  function DocOf(p: Payload, upload: string, order: nat): DailyDoc {
    DailyDoc(if Strip(upload) == "" then None else Some((Strip(upload), p.digest)),
      order, p.content, NormalizePayee(p.payee))
  }

  function DocsOf(payloads: seq<Payload>, upload: string): seq<DailyDoc> {
    seq(|Kept(payloads)|, j requires 0 <= j < |Kept(payloads)| => DocOf(Kept(payloads)[j], upload, j))
  }
}
