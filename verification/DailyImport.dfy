/** `commit_daily_to_master`: one run batches, inserts and backfills, and may die at
    any operation; any number of dead runs and one complete run amount to one. */
module DailyImport {
  import opened Ascii
  import opened Mongo
  import opened Words
  import opened Imports

  // ---------------------------------------------------------------- documents of a commit

  lemma KeptStep(payloads: seq<Payload>, i: nat)
    requires i < |payloads|
    ensures Kept(payloads[..i + 1]) ==
      Kept(payloads[..i]) + (if HasItem(payloads[i]) then [payloads[i]] else [])
  {
    assert payloads[..i + 1][..i] == payloads[..i];
  }

  lemma {:induction false} KeptPrefix(payloads: seq<Payload>, i: nat)
    requires i <= |payloads|
    ensures Kept(payloads[..i]) <= Kept(payloads)
    decreases |payloads| - i
  {
    if i == |payloads| {
      assert payloads[..i] == payloads;
    } else {
      KeptStep(payloads, i);
      KeptPrefix(payloads, i + 1);
    }
  }

  /** `str(payload["daily_import_id"] or new_upload_id())`. */
  function NameUpload(p: Payload, minted: string): string {
    if p.uploadId != "" then p.uploadId else minted
  }

  /** Where a running commit stands after `i` rows: what waits in the batch, and the
      counts of everything flushed. */
  datatype Progress = Progress(batch: seq<DailyDoc>, upload: string, order: nat,
    inserted: nat, duplicates: nat, skipped: nat)

  /** The first `n` documents are absorbed and counted. */
  ghost predicate Stored(was: Store, now: Store, docs: seq<DailyDoc>, n: nat, g: Progress) {
    && n <= |docs| && now == AbsorbAll(was, docs[..n])
    && g.inserted == NewCount(was, docs[..n]) && g.inserted + g.duplicates == n
  }

  /** The kept rows among the first `i` are documents; those from `n` on wait. */
  ghost predicate Waiting(payloads: seq<Payload>, name: string, i: nat, docs: seq<DailyDoc>, n: nat, g: Progress)
    requires i <= |payloads|
  {
    && g.order == |Kept(payloads[..i])| && n <= g.order <= |docs| && g.skipped + g.order == i
    && g.upload == (if g.order == 0 then "" else name)
    && g.batch == docs[n..g.order]
  }

  lemma SkipRow(payloads: seq<Payload>, name: string, i: nat, docs: seq<DailyDoc>, n: nat, g: Progress)
    requires i < |payloads| && !HasItem(payloads[i]) && Waiting(payloads, name, i, docs, n, g)
    ensures Waiting(payloads, name, i + 1, docs, n, g.(skipped := g.skipped + 1))
  {
    KeptStep(payloads, i);
  }

  function Taken(g: Progress, upload: string, d: DailyDoc): Progress {
    g.(upload := upload, order := g.order + 1, batch := g.batch + [d])
  }

  function UploadNow(g: Progress, p: Payload, minted: string): string {
    if g.upload == "" then NameUpload(p, minted) else g.upload
  }

  lemma UploadNowIsUpload(
      payloads: seq<Payload>, minted: string, i: nat, docs: seq<DailyDoc>, n: nat, g: Progress)
    requires i < |payloads| && HasItem(payloads[i]) && minted != ""
    requires Waiting(payloads, UploadOf(payloads, minted), i, docs, n, g)
    ensures UploadNow(g, payloads[i], minted) == UploadOf(payloads, minted)
  {
    NextDoc(payloads, minted, i);
  }

  lemma TakeRow(payloads: seq<Payload>, name: string, i: nat, docs: seq<DailyDoc>, n: nat, g: Progress)
    requires i < |payloads| && HasItem(payloads[i])
    requires Waiting(payloads, name, i, docs, n, g) && g.order < |docs|
    ensures Waiting(payloads, name, i + 1, docs, n, Taken(g, name, docs[g.order]))
  {
    KeptStep(payloads, i);
    OneLonger(docs, n, g.order);
  }

  lemma OneLonger(docs: seq<DailyDoc>, n: nat, m: nat)
    requires n <= m < |docs|
    ensures docs[n..m + 1] == docs[n..m] + [docs[m]]
  {
  }

  /** The document that row `i` of a commit contributes. */
  lemma NextDoc(payloads: seq<Payload>, minted: string, i: nat)
    requires i < |payloads|
    ensures var order := |Kept(payloads[..i])|;
      if HasItem(payloads[i]) then
        && |Kept(payloads[..i + 1])| == order + 1 <= |Docs(payloads, minted)|
        && Docs(payloads, minted)[order] == DocOf(payloads[i], UploadOf(payloads, minted), order)
        && (order == 0 ==> UploadOf(payloads, minted) == NameUpload(payloads[i], minted))
      else |Kept(payloads[..i + 1])| == order
  {
    KeptStep(payloads, i);
    KeptPrefix(payloads, i + 1);
    if HasItem(payloads[i]) {
      assert Kept(payloads)[|Kept(payloads[..i])|] == payloads[i];
    }
  }

  /** The first kept row names an upload that survives `strip`. */
  predicate NamesUpload(payloads: seq<Payload>) {
    Kept(payloads) == [] || !AllBlank(Kept(payloads)[0].uploadId)
  }

  function Docs(payloads: seq<Payload>, minted: string): seq<DailyDoc> {
    DocsOf(payloads, UploadOf(payloads, minted))
  }

  lemma NamedUploadIsKeyed(payloads: seq<Payload>, minted: string)
    requires NamesUpload(payloads)
    ensures LooseOf(Docs(payloads, minted)) == []
    ensures forall other :: Docs(payloads, other) == Docs(payloads, minted)
    ensures forall i | 0 <= i < |Docs(payloads, minted)| :: Docs(payloads, minted)[i].key.Some?
  {
    if Kept(payloads) != [] { StripBlank(Kept(payloads)[0].uploadId); }
    NoLooseMeans(Docs(payloads, minted));
  }

  /** A dead run of a commit. */
  ghost predicate DiedIn(s: Store, docs: seq<DailyDoc>, after: Store) {
    exists n: nat, p: nat, q: nat | n + p <= |docs| && q <= p :: after == CutOff(s, docs, n, p, q)
  }

  /** A run that got to insert the first `reached` documents, finished or not. */
  ghost predicate DiedAt(s: Store, docs: seq<DailyDoc>, reached: nat, after: Store) {
    exists n: nat, p: nat, q: nat | n + p <= |docs| && q <= p ::
      n + p == reached && after == CutOff(s, docs, n, p, q)
  }

  lemma NextInsert(s: Store, batch: seq<DailyDoc>, i: nat)
    requires i < |batch|
    ensures InsertAll(s, batch[..i + 1]) == Insert(InsertAll(s, batch[..i]), batch[i])
    ensures NewCount(s, batch[..i + 1]) ==
      NewCount(s, batch[..i]) + (if IsNew(InsertAll(s, batch[..i]), batch[i]) then 1 else 0)
  {
    assert batch[..i + 1][..i] == batch[..i];
  }

  lemma NextFill(s: Store, batch: seq<DailyDoc>, i: nat)
    requires i < |batch|
    ensures FillAll(s, batch[..i + 1]) == Fill(FillAll(s, batch[..i]), batch[i])
  {
    assert batch[..i + 1][..i] == batch[..i];
  }

  /** Documents whose payee the backfill would normalise to itself. */
  predicate AllNormal(docs: seq<DailyDoc>) {
    forall i | 0 <= i < |docs| :: NormalizePayee(docs[i].payee) == docs[i].payee
  }

  // ---------------------------------------------------------------- the importer

  class Importer {
    var store: Store
    /** Operations left before the process dies; None lives on. */
    var life: Option<nat>

    constructor (s: Store, operations: Option<nat>)
      ensures store == s && life == operations
    {
      store, life := s, operations;
    }

    method Tick() returns (alive: bool)
      modifies this`life
      ensures old(life) == None ==> alive && life == None
    {
      alive := life != Some(0);
      if life.Some? && life.value > 0 { life := Some(life.value - 1); }
    }

    method InsertOne(d: DailyDoc) returns (isNew: bool)
      modifies this`store
      ensures store == Insert(old(store), d) && isNew == IsNew(old(store), d)
    {
      isNew := d.key.None? || d.key.value !in store.keyed;
      if d.key.None? {
        store := store.(loose := store.loose + [EntryOf(d)]);
      } else if isNew {
        store := store.(keyed := store.keyed[d.key.value := EntryOf(d)]);
      }
    }

    /** `insert_many_idempotent`: duplicates are counted, everything else is stored. */
    method InsertMany(batch: seq<DailyDoc>)
      returns (alive: bool, done: nat, inserted: nat, dupes: nat)
      modifies this
      ensures done <= |batch| && store == InsertAll(old(store), batch[..done])
      ensures alive ==> done == |batch| && inserted == NewCount(old(store), batch) && inserted + dupes == |batch|
      ensures old(life) == None ==> alive && life == None
    {
      ghost var was := store;
      done, inserted, dupes := 0, 0, 0;
      while done < |batch|
        invariant done <= |batch| && store == InsertAll(was, batch[..done])
        invariant inserted == NewCount(was, batch[..done]) && inserted + dupes == done
        invariant old(life) == None ==> life == None
      {
        alive := Tick();
        if !alive { return; }
        NextInsert(was, batch, done);
        var isNew := InsertOne(batch[done]);
        if isNew { inserted := inserted + 1; } else { dupes := dupes + 1; }
        done := done + 1;
      }
      assert batch[..|batch|] == batch;
      alive := true;
    }

    /** One `UpdateOne` of the backfill. */
    method FillOne(d: DailyDoc)
      requires NormalizePayee(d.payee) == d.payee
      modifies this`store
      ensures store == Fill(old(store), d)
    {
      var payee := NormalizePayee(d.payee);
      if payee != "" && d.key.Some? && d.key.value in store.keyed {
        var row := store.keyed[d.key.value];
        if BlankPayee(row) {
          store := store.(keyed := store.keyed[d.key.value := row.(payee := Some(payee))]);
        }
      }
    }

    /** `backfill_blank_daily_payees`. */
    method Backfill(batch: seq<DailyDoc>) returns (alive: bool, done: nat)
      requires AllNormal(batch)
      modifies this
      ensures done <= |batch| && store == FillAll(old(store), batch[..done])
      ensures alive ==> done == |batch|
      ensures old(life) == None ==> alive && life == None
    {
      ghost var was := store;
      done := 0;
      assert batch[..0] == [];
      while done < |batch|
        invariant done <= |batch| && store == FillAll(was, batch[..done])
        invariant old(life) == None ==> life == None
      {
        alive := Tick();
        if !alive { return; }
        NextFill(was, batch, done);
        FillOne(batch[done]);
        done := done + 1;
      }
      alive := true;
    }

    /** One full batch: insert it, and backfill only when a duplicate was met. */
    method Flush(batch: seq<DailyDoc>)
      returns (alive: bool, inserted: nat, dupes: nat, ghost p: nat, ghost q: nat)
      requires AllNormal(batch)
      modifies this
      ensures q <= p <= |batch|
      ensures !alive ==> store == FillAll(InsertAll(old(store), batch[..p]), batch[..q])
      ensures alive ==> store == AbsorbAll(old(store), batch)
      ensures alive ==> inserted == NewCount(old(store), batch) && inserted + dupes == |batch|
      ensures old(life) == None ==> alive && life == None
    {
      ghost var was := store;
      alive, p, inserted, dupes := InsertMany(batch);
      q := 0;
      if !alive { return; }
      assert batch[..|batch|] == batch;
      if dupes > 0 {
        alive, q := Backfill(batch);
        if alive { BatchIsAbsorb(was, batch); }
      } else {
        NoDuplicatesNoFill(was, batch);
      }
    }

    /** The waiting batch of a running commit. */
    method FlushPart(ghost was: Store, ghost docs: seq<DailyDoc>, ghost n: nat, g: Progress)
      returns (alive: bool, g': Progress)
      requires n <= g.order <= |docs| && g.batch == docs[n..g.order] && Stored(was, store, docs, n, g)
      requires AllNormal(docs)
      modifies this
      ensures alive ==> Stored(was, store, docs, g.order, g')
      ensures alive ==> g' == g.(batch := [], inserted := g'.inserted, duplicates := g'.duplicates)
      ensures !alive ==> DiedIn(was, docs, store)
      ensures old(life) == None ==> alive && life == None
    {
      ghost var p, q;
      var inserted, dupes;
      alive, inserted, dupes, p, q := Flush(g.batch);
      g' := g.(batch := [], inserted := g.inserted + inserted, duplicates := g.duplicates + dupes);
      if alive {
        FlushedSoFar(was, docs, n, g.order);
      } else {
        Died(was, docs, n, g.order, p, q, store);
      }
    }

    /** One staged row: skipped, or batched and perhaps flushed. */
    method StageRow(payloads: seq<Payload>, minted: string, i: nat, size: nat, g: Progress,
        ghost was: Store, ghost docs: seq<DailyDoc>, ghost n: nat)
      returns (alive: bool, g': Progress, ghost n': nat)
      requires i < |payloads| && minted != "" && docs == Docs(payloads, minted) && AllNormal(docs)
      requires Waiting(payloads, UploadOf(payloads, minted), i, docs, n, g) && Stored(was, store, docs, n, g)
      modifies this
      ensures alive ==>
        Waiting(payloads, UploadOf(payloads, minted), i + 1, docs, n', g') && Stored(was, store, docs, n', g')
      ensures !alive ==> DiedIn(was, docs, store)
      ensures old(life) == None ==> alive && life == None
    {
      alive, n' := true, n;
      if !HasItem(payloads[i]) {
        SkipRow(payloads, UploadOf(payloads, minted), i, docs, n, g);
        g' := g.(skipped := g.skipped + 1);
        return;
      }
      NextDoc(payloads, minted, i);
      TakeRow(payloads, UploadOf(payloads, minted), i, docs, n, g);
      UploadNowIsUpload(payloads, minted, i, docs, n, g);
      var upload := UploadNow(g, payloads[i], minted);
      g' := Taken(g, upload, DocOf(payloads[i], upload, g.order));
      if |g'.batch| >= size {
        n' := g'.order;
        alive, g' := FlushPart(was, docs, n, g');
      }
    }

    method CommitDaily(payloads: seq<Payload>, minted: string, size: nat)
      returns (alive: bool, inserted: nat, duplicates: nat, skipped: nat)
      requires size > 0 && minted != ""
      modifies this
      ensures alive ==> store == AbsorbAll(old(store), Docs(payloads, minted))
      ensures alive ==> inserted == NewCount(old(store), Docs(payloads, minted))
      ensures alive ==> inserted + duplicates == |Docs(payloads, minted)|
      ensures alive ==> skipped == |payloads| - |Docs(payloads, minted)|
      ensures !alive ==> DiedIn(old(store), Docs(payloads, minted), store)
      ensures old(life) == None ==> alive && life == None
    {
      ghost var was, docs := store, Docs(payloads, minted);
      ghost var n: nat := 0;
      NormalDocs(payloads, minted);
      var g := Progress([], "", 0, 0, 0, 0);
      alive, inserted, duplicates, skipped := true, 0, 0, 0;
      for i := 0 to |payloads|
        invariant alive && Waiting(payloads, UploadOf(payloads, minted), i, docs, n, g)
          && Stored(was, store, docs, n, g)
        invariant old(life) == None ==> life == None
      {
        alive, g, n := StageRow(payloads, minted, i, size, g, was, docs, n);
        if !alive { return; }
      }
      if g.batch != [] {
        alive, g := FlushPart(was, docs, n, g);
        if !alive { return; }
        n := g.order;
      }
      inserted, duplicates, skipped := g.inserted, g.duplicates, g.skipped;
      assert payloads[..|payloads|] == payloads;
      assert n == |docs| && docs[..n] == docs;
    }

    /** One run that may die, and how many documents it got to insert. */
    method RunOnce(payloads: seq<Payload>, minted: string, size: nat, operations: nat)
      returns (ghost reached: nat)
      requires size > 0 && minted != ""
      modifies this
      ensures DiedAt(old(store), Docs(payloads, minted), reached, store)
    {
      ghost var was, docs := store, Docs(payloads, minted);
      life := Some(operations);
      var alive, _, _, _ := CommitDaily(payloads, minted, size);
      if alive {
        WholeRun(was, docs);
        reached := |docs|;
      } else {
        ghost var n: nat, p: nat, q: nat :| n + p <= |docs| && q <= p && store == CutOff(was, docs, n, p, q);
        reached := n + p;
      }
    }

    /** Any number of runs that may die anywhere, each with its own batch size and minted
        id, then one run to the end. When the upload is named the rows are those of a single
        complete run. When it is not, and the minted ids are fresh, they are those of a
        single run exactly when no earlier run got to insert anything; `reached` says how
        many documents each of them inserted or met. */
    method CommitUntilDone(payloads: seq<Payload>, lives: seq<nat>, sizes: seq<nat>, ids: seq<string>)
      returns (ghost reached: seq<nat>)
      requires |sizes| == |ids| == |lives| + 1
      requires forall i | 0 <= i < |sizes| :: sizes[i] > 0 && ids[i] != ""
      modifies this
      ensures |reached| == |lives|
      ensures NamesUpload(payloads) ==> store == AbsorbAll(old(store), Docs(payloads, ids[0]))
      ensures !NamesUpload(payloads) && FreshIds(old(store), ids) ==>
        (store == AbsorbAll(old(store), Docs(payloads, ids[|lives|])) <==> AllZero(reached))
      ensures !NamesUpload(payloads) && FreshIds(old(store), ids) ==>
        Size(store) == Size(old(store)) + InsertedBy(payloads, ids, reached)
          + NewCount(EMPTY_STORE, Docs(payloads, ids[|lives|]))
    {
      ghost var was, docs := store, Docs(payloads, ids[0]);
      reached := [];
      if NamesUpload(payloads) { NamedUploadIsKeyed(payloads, ids[0]); }
      for i := 0 to |lives|
        invariant |reached| == i
        invariant NamesUpload(payloads) ==> AbsorbAll(store, docs) == AbsorbAll(was, docs)
        invariant !NamesUpload(payloads) && FreshIds(was, ids) ==> Repeated(was, payloads, ids, reached, store)
      {
        ghost var s := store;
        ghost var r := RunOnce(payloads, ids[i], sizes[i], lives[i]);
        if NamesUpload(payloads) {
          DiedConverges(s, docs, r, store);
        } else if FreshIds(was, ids) {
          RepeatedStep(was, payloads, ids, reached, s, r, store);
        }
        reached := reached + [r];
      }
      ghost var last := store;
      life := None;
      var _, _, _, _ := CommitDaily(payloads, ids[|lives|], sizes[|lives|]);
      if !NamesUpload(payloads) && FreshIds(was, ids) { RepeatedLast(was, payloads, ids, reached, last); }
    }
  }

  lemma NormalDocs(payloads: seq<Payload>, minted: string)
    ensures AllNormal(Docs(payloads, minted))
  {
    forall i | 0 <= i < |Kept(payloads)| { NormalizeIsIdempotent(Kept(payloads)[i].payee); }
  }

  lemma FrontOfSlice(docs: seq<DailyDoc>, n: nat, m: nat, p: nat)
    requires n <= m <= |docs| && p <= m - n
    ensures docs[n..m][..p] == docs[n..n + p]
  {
  }

  lemma Died(
      s: Store, docs: seq<DailyDoc>, n: nat, m: nat, p: nat, q: nat, after: Store)
    requires n <= m <= |docs| && q <= p <= m - n
    requires after == FillAll(InsertAll(AbsorbAll(s, docs[..n]), docs[n..m][..p]), docs[n..m][..q])
    ensures DiedIn(s, docs, after)
  {
    FrontOfSlice(docs, n, m, p);
    FrontOfSlice(docs, n, m, q);
    assert after == CutOff(s, docs, n, p, q);
  }

  lemma FlushedSoFar(s: Store, docs: seq<DailyDoc>, n: nat, m: nat)
    requires n <= m <= |docs|
    ensures AbsorbAll(AbsorbAll(s, docs[..n]), docs[n..m]) == AbsorbAll(s, docs[..m])
    ensures NewCount(s, docs[..n]) + NewCount(AbsorbAll(s, docs[..n]), docs[n..m]) == NewCount(s, docs[..m])
  {
    assert docs[..m] == docs[..n] + docs[n..m];
    AbsorbConcat(s, docs[..n], docs[n..m]);
    NewCountConcat(s, docs[..n], docs[n..m]);
  }

  lemma DiedConverges(s: Store, docs: seq<DailyDoc>, reached: nat, after: Store)
    requires DiedAt(s, docs, reached, after) && LooseOf(docs) == []
    ensures AbsorbAll(after, docs) == AbsorbAll(s, docs)
  {
    var n: nat, p: nat, q: nat :| n + p <= |docs| && q <= p && after == CutOff(s, docs, n, p, q);
    CutOffConverges(s, docs, n, p, q);
  }

  lemma WholeRun(s: Store, docs: seq<DailyDoc>)
    ensures DiedAt(s, docs, |docs|, AbsorbAll(s, docs))
  {
    assert docs[..|docs|] == docs && docs[|docs|..|docs|] == [];
    assert CutOff(s, docs, |docs|, 0, 0) == AbsorbAll(s, docs);
  }

  // ---------------------------------------------------------------- unnamed uploads

  const EMPTY_STORE := Store(map[], [])

  /** How many rows are stored. */
  function Size(s: Store): nat { |s.keyed| + |s.loose| }

  /** No stored row has this id as its upload. */
  ghost predicate Unused(s: Store, minted: string) {
    forall k | k in s.keyed :: k.0 != Strip(minted)
  }

  /** Minted ids are texts that no row and no other run has. */
  ghost predicate FreshIds(s: Store, ids: seq<string>) {
    && (forall i | 0 <= i < |ids| :: Unused(s, ids[i]))
    && (forall i, j | 0 <= i < j < |ids| :: Strip(ids[i]) != Strip(ids[j]))
  }

  lemma {:induction false} SizeOfInsert(s: Store, docs: seq<DailyDoc>)
    ensures Size(InsertAll(s, docs)) == Size(s) + NewCount(s, docs)
    decreases |docs|
  {
    if docs != [] { SizeOfInsert(s, docs[..|docs| - 1]); }
  }

  lemma {:induction false} SizeOfFill(s: Store, docs: seq<DailyDoc>)
    ensures Size(FillAll(s, docs)) == Size(s)
    decreases |docs|
  {
    if docs != [] { SizeOfFill(s, docs[..|docs| - 1]); }
  }

  lemma SizeOfAbsorb(s: Store, docs: seq<DailyDoc>)
    ensures Size(AbsorbAll(s, docs)) == Size(s) + NewCount(s, docs)
  {
    BatchIsAbsorb(s, docs);
    SizeOfInsert(s, docs);
    SizeOfFill(InsertAll(s, docs), docs);
  }

  lemma SizeOfCutOff(s: Store, docs: seq<DailyDoc>, n: nat, p: nat, q: nat)
    requires n + p <= |docs| && q <= p
    ensures Size(CutOff(s, docs, n, p, q)) == Size(s) + NewCount(s, docs[..n + p])
  {
    var a, b := docs[..n], docs[n..n + p];
    SizeOfAbsorb(s, a);
    SizeOfInsert(AbsorbAll(s, a), b);
    SizeOfFill(InsertAll(AbsorbAll(s, a), b), docs[n..n + q]);
    NewCountConcat(s, a, b);
    assert docs[..n + p] == a + b;
  }

  /** A run adds the new ones among the documents it reached, wherever it died. */
  lemma SizeOfDead(s: Store, docs: seq<DailyDoc>, reached: nat, after: Store)
    requires DiedAt(s, docs, reached, after)
    ensures reached <= |docs| && Size(after) == Size(s) + NewCount(s, docs[..reached])
  {
    var n: nat, p: nat, q: nat :| n + p <= |docs| && q <= p && n + p == reached && after == CutOff(s, docs, n, p, q);
    SizeOfCutOff(s, docs, n, p, q);
  }

  lemma DeadAtZero(s: Store, docs: seq<DailyDoc>, after: Store)
    requires DiedAt(s, docs, 0, after)
    ensures after == s
  {
    assert docs[..0] == [] && docs[0..0] == [];
  }

  /** Documents whose keys are not stored count as in an empty store. */
  lemma {:induction false} UnmetCount(s: Store, docs: seq<DailyDoc>)
    requires forall i | 0 <= i < |docs| && docs[i].key.Some? :: docs[i].key.value !in s.keyed
    ensures NewCount(s, docs) == NewCount(EMPTY_STORE, docs)
    decreases |docs|
  {
    if docs != [] {
      var rest, last := docs[..|docs| - 1], docs[|docs| - 1];
      UnmetCount(s, rest);
      if last.key.Some? {
        InsertAllAt(s, rest, last.key.value);
        InsertAllAt(EMPTY_STORE, rest, last.key.value);
      }
    }
  }

  /** Without a named upload a document's key, if it has one, starts with the minted id. */
  lemma UnnamedKeys(payloads: seq<Payload>, minted: string)
    requires !NamesUpload(payloads)
    ensures forall i | 0 <= i < |Docs(payloads, minted)| && Docs(payloads, minted)[i].key.Some? ::
      Docs(payloads, minted)[i].key.value.0 == Strip(minted)
  {
    StripBlank(Kept(payloads)[0].uploadId);
  }

  lemma UnnamedCount(s: Store, payloads: seq<Payload>, minted: string, m: nat)
    requires !NamesUpload(payloads) && Unused(s, minted) && m <= |Docs(payloads, minted)|
    ensures NewCount(s, Docs(payloads, minted)[..m]) == NewCount(EMPTY_STORE, Docs(payloads, minted)[..m])
    ensures m > 0 ==> NewCount(s, Docs(payloads, minted)[..m]) > 0
  {
    UnnamedKeys(payloads, minted);
    UnmetCount(s, Docs(payloads, minted)[..m]);
    if m > 0 { FirstIsNew(EMPTY_STORE, Docs(payloads, minted)[..m]); }
  }

  lemma {:induction false} NoEntryElsewhere(docs: seq<DailyDoc>, k: Key)
    requires forall i | 0 <= i < |docs| :: docs[i].key != Some(k)
    ensures FirstEntry(docs, k).None? && FirstPayee(docs, k) == ""
    decreases |docs|
  {
    if docs != [] { NoEntryElsewhere(docs[..|docs| - 1], k); }
  }

  lemma CutOffElsewhere(s: Store, docs: seq<DailyDoc>, n: nat, p: nat, q: nat, k: Key)
    requires n + p <= |docs| && q <= p && forall i | 0 <= i < |docs| :: docs[i].key != Some(k)
    ensures At(CutOff(s, docs, n, p, q), k) == At(s, k)
  {
    NoEntryElsewhere(docs[..n], k);
    NoEntryElsewhere(docs[n..n + p], k);
    NoEntryElsewhere(docs[n..n + q], k);
    HalfDone(s, docs[..n], docs[n..n + p], docs[n..n + q], k);
  }

  /** Rows of other uploads stay as they are. */
  lemma UnnamedRunElsewhere(s: Store, payloads: seq<Payload>, minted: string, reached: nat, after: Store, k: Key)
    requires !NamesUpload(payloads) && DiedAt(s, Docs(payloads, minted), reached, after) && k.0 != Strip(minted)
    ensures At(after, k) == At(s, k)
  {
    var docs := Docs(payloads, minted);
    UnnamedKeys(payloads, minted);
    var n: nat, p: nat, q: nat :| n + p <= |docs| && q <= p && after == CutOff(s, docs, n, p, q);
    CutOffElsewhere(s, docs, n, p, q, k);
  }

  /** What one run stores under a fresh id when it reaches `r` documents. */
  function StoredBy(payloads: seq<Payload>, minted: string, r: nat): nat {
    var docs := Docs(payloads, minted);
    NewCount(EMPTY_STORE, if r <= |docs| then docs[..r] else docs)
  }

  /** The rows that the dead runs stored, each under an upload of its own. */
  function InsertedBy(payloads: seq<Payload>, ids: seq<string>, reached: seq<nat>): nat
    requires |reached| <= |ids|
  {
    if reached == [] then 0
    else
      var n := |reached| - 1;
      InsertedBy(payloads, ids, reached[..n]) + StoredBy(payloads, ids[n], reached[n])
  }

  lemma InsertedNext(payloads: seq<Payload>, ids: seq<string>, reached: seq<nat>, r: nat)
    requires |reached| < |ids|
    ensures InsertedBy(payloads, ids, reached + [r]) ==
      InsertedBy(payloads, ids, reached) + StoredBy(payloads, ids[|reached|], r)
  {
    assert (reached + [r])[..|reached|] == reached;
  }

  lemma StoredNothing(payloads: seq<Payload>, minted: string, r: nat)
    requires !NamesUpload(payloads)
    ensures StoredBy(payloads, minted, r) == 0 <==> r == 0
  {
    var docs := Docs(payloads, minted);
    assert docs[..|docs|] == docs && docs[..0] == [];
    UnnamedCount(EMPTY_STORE, payloads, minted, if r <= |docs| then r else |docs|);
  }

  predicate AllZero(reached: seq<nat>) { forall i | 0 <= i < |reached| :: reached[i] == 0 }

  /** The dead runs stored nothing exactly when none of them reached a document. */
  lemma {:induction false} InsertedNothing(payloads: seq<Payload>, ids: seq<string>, reached: seq<nat>)
    requires !NamesUpload(payloads) && |reached| <= |ids|
    ensures InsertedBy(payloads, ids, reached) == 0 <==> AllZero(reached)
    decreases |reached|
  {
    if reached != [] {
      var n := |reached| - 1;
      InsertedNothing(payloads, ids, reached[..n]);
      StoredNothing(payloads, ids[n], reached[n]);
      assert AllZero(reached) <==> AllZero(reached[..n]) && reached[n] == 0;
    }
  }

  /** After the dead runs so far: their rows are all there, later ids are still unused, and
      nothing changed if none of them stored anything. */
  ghost predicate Repeated(was: Store, payloads: seq<Payload>, ids: seq<string>, reached: seq<nat>, now: Store)
    requires |reached| <= |ids|
  {
    && (forall i | |reached| <= i < |ids| :: Unused(now, ids[i]))
    && Size(now) == Size(was) + InsertedBy(payloads, ids, reached)
    && (InsertedBy(payloads, ids, reached) == 0 ==> now == was)
  }

  lemma StillUnused(s: Store, payloads: seq<Payload>, ids: seq<string>, i: nat, reached: nat, after: Store, j: nat)
    requires !NamesUpload(payloads) && i < j < |ids| && Strip(ids[i]) != Strip(ids[j])
    requires DiedAt(s, Docs(payloads, ids[i]), reached, after) && Unused(s, ids[j])
    ensures Unused(after, ids[j])
  {
    forall k | k in after.keyed ensures k.0 != Strip(ids[j]) {
      if k.0 == Strip(ids[j]) { UnnamedRunElsewhere(s, payloads, ids[i], reached, after, k); }
    }
  }

  lemma AllStillUnused(s: Store, payloads: seq<Payload>, ids: seq<string>, i: nat, reached: nat, after: Store)
    requires !NamesUpload(payloads) && i < |ids| && DiedAt(s, Docs(payloads, ids[i]), reached, after)
    requires forall a, b | 0 <= a < b < |ids| :: Strip(ids[a]) != Strip(ids[b])
    requires forall j | i <= j < |ids| :: Unused(s, ids[j])
    ensures forall j | i < j < |ids| :: Unused(after, ids[j])
  {
    forall j | i < j < |ids| ensures Unused(after, ids[j]) {
      StillUnused(s, payloads, ids, i, reached, after, j);
    }
  }

  lemma RepeatedStep(was: Store, payloads: seq<Payload>, ids: seq<string>, reached: seq<nat>,
      now: Store, r: nat, after: Store)
    requires !NamesUpload(payloads) && FreshIds(was, ids) && |reached| < |ids|
    requires Repeated(was, payloads, ids, reached, now)
    requires DiedAt(now, Docs(payloads, ids[|reached|]), r, after)
    ensures Repeated(was, payloads, ids, reached + [r], after)
  {
    var n := |reached|;
    SizeOfDead(now, Docs(payloads, ids[n]), r, after);
    UnnamedCount(now, payloads, ids[n], r);
    InsertedNext(payloads, ids, reached, r);
    AllStillUnused(now, payloads, ids, n, r, after);
    if r == 0 { DeadAtZero(now, Docs(payloads, ids[n]), after); }
  }

  lemma RepeatedLast(was: Store, payloads: seq<Payload>, ids: seq<string>, reached: seq<nat>, last: Store)
    requires !NamesUpload(payloads) && FreshIds(was, ids) && |reached| + 1 == |ids|
    requires Repeated(was, payloads, ids, reached, last)
    ensures var docs := Docs(payloads, ids[|reached|]);
      && (AbsorbAll(last, docs) == AbsorbAll(was, docs) <==> AllZero(reached))
      && Size(AbsorbAll(last, docs)) ==
           Size(was) + InsertedBy(payloads, ids, reached) + NewCount(EMPTY_STORE, docs)
  {
    var n := |reached|;
    var docs := Docs(payloads, ids[n]);
    assert docs[..|docs|] == docs;
    UnnamedCount(was, payloads, ids[n], |docs|);
    UnnamedCount(last, payloads, ids[n], |docs|);
    SizeOfAbsorb(was, docs);
    SizeOfAbsorb(last, docs);
    InsertedNothing(payloads, ids, reached);
  }

  // ---------------------------------------------------------------- repeats

  lemma {:induction false} NothingNew(s: Store, docs: seq<DailyDoc>)
    requires forall i | 0 <= i < |docs| :: docs[i].key.Some? && docs[i].key.value in s.keyed
    ensures NewCount(s, docs) == 0 && InsertAll(s, docs) == s
    decreases |docs|
  {
    if docs != [] { NothingNew(s, docs[..|docs| - 1]); }
  }

  lemma {:induction false} FirstIsNew(s: Store, docs: seq<DailyDoc>)
    requires docs != [] && IsNew(s, docs[0])
    ensures NewCount(s, docs) > 0
    decreases |docs|
  {
    if |docs| == 1 {
      assert docs[..0] == [];
    } else {
      FirstIsNew(s, docs[..|docs| - 1]);
    }
  }

  lemma {:induction false} AbsorbedIsKeyed(s: Store, docs: seq<DailyDoc>, i: nat)
    requires i < |docs| && docs[i].key.Some?
    ensures docs[i].key.value in AbsorbAll(s, docs).keyed
    decreases |docs|
  {
    var rest := docs[..|docs| - 1];
    if i < |rest| { AbsorbedIsKeyed(s, rest, i); }
  }

  /** A repeated commit inserts nothing exactly when there was nothing to insert or the
      first kept row names its upload; otherwise every repeat stores the batch again. */
  lemma RepeatInsertsNothing(s: Store, payloads: seq<Payload>, first: string, second: string)
    requires !AllBlank(second)
    requires forall digest :: (Strip(second), digest) !in AbsorbAll(s, Docs(payloads, first)).keyed
    ensures NewCount(AbsorbAll(s, Docs(payloads, first)), Docs(payloads, second)) == 0 <==>
      NamesUpload(payloads)
  {
    var stored, docs := AbsorbAll(s, Docs(payloads, first)), Docs(payloads, second);
    if NamesUpload(payloads) {
      NamedUploadIsKeyed(payloads, first);
      assert docs == Docs(payloads, first);
      forall i | 0 <= i < |docs| ensures docs[i].key.Some? && docs[i].key.value in stored.keyed {
        AbsorbedIsKeyed(s, docs, i);
      }
      NothingNew(stored, docs);
    } else {
      StripBlank(Kept(payloads)[0].uploadId);
      StripBlank(second);
      FirstIsNew(stored, docs);
    }
  }

  // ---------------------------------------------------------------- payees

  lemma {:induction false} FirstPayeeMeaning(docs: seq<DailyDoc>, k: Key)
    ensures FirstPayee(docs, k) == "" <==>
      forall i | 0 <= i < |docs| && docs[i].key == Some(k) :: docs[i].payee == ""
    decreases |docs|
  {
    if docs != [] {
      var rest := docs[..|docs| - 1];
      FirstPayeeMeaning(rest, k);
      assert forall i | 0 <= i < |rest| :: docs[i] == rest[i];
    }
  }

  /** After a commit a payee is blank only if it was blank (or not stored) before and no
      pushed row had one; a payee that was there is never overwritten. */
  lemma PayeesSurvive(s: Store, docs: seq<DailyDoc>, k: Key)
    requires k in AbsorbAll(s, docs).keyed
    ensures BlankPayee(AbsorbAll(s, docs).keyed[k]) <==>
      && (k in s.keyed ==> BlankPayee(s.keyed[k]))
      && forall i | 0 <= i < |docs| && docs[i].key == Some(k) :: docs[i].payee == ""
    ensures k in s.keyed && !BlankPayee(s.keyed[k]) ==> AbsorbAll(s, docs).keyed[k] == s.keyed[k]
  {
    AbsorbSettles(s, docs, k);
    FirstPayeeMeaning(docs, k);
    FirstPayeeOfFirstEntry(docs, k);
    assert At(AbsorbAll(s, docs), k) == Some(AbsorbAll(s, docs).keyed[k]);
  }
}
