/** A complete daily import, read off the staged rows that were pushed
    (`commit_daily_to_master` in backend/app/import_ops.py): what is stored under which
    key, with what content, payee and place, and how many rows that is. */
module Payloads {
  import opened Ascii
  import opened Mongo
  import opened Words
  import opened Layout
  import opened Imports
  import opened DailyImport

  /** The text has something in it that is not a blank. */
  predicate Speaks(s: string) { exists i | 0 <= i < |s| :: !IsBlank(s[i]) }

  /** A row is imported when its category name says something, or its item does and the
      category name is empty. */
  predicate Itemized(p: Payload) {
    if |p.categoryName| == 0 then Speaks(p.item) else Speaks(p.categoryName)
  }

  /** Row `i` is the first imported one. */
  predicate Leads(payloads: seq<Payload>, i: int) {
    0 <= i < |payloads| && Itemized(payloads[i]) && forall h | 0 <= h < i :: !Itemized(payloads[h])
  }

  predicate Carries(payloads: seq<Payload>, i: int, digest: string) {
    0 <= i < |payloads| && Itemized(payloads[i]) && payloads[i].digest == digest
  }

  /** Row `i` is the first imported one with this digest. */
  predicate FirstWith(payloads: seq<Payload>, i: int, digest: string) {
    Carries(payloads, i, digest) && forall h | 0 <= h < i :: !Carries(payloads, h, digest)
  }

  predicate Pays(payloads: seq<Payload>, i: int, digest: string) {
    Carries(payloads, i, digest) && Speaks(payloads[i].payee)
  }

  /** Row `i` is the first imported one with this digest that names a payee. */
  predicate FirstPaying(payloads: seq<Payload>, i: int, digest: string) {
    Pays(payloads, i, digest) && forall h | 0 <= h < i :: !Pays(payloads, h, digest)
  }

  /** The digests of the imported ones among the first `m` rows. */
  function DigestsUpTo(payloads: seq<Payload>, m: nat): set<string>
    requires m <= |payloads|
  {
    set i | 0 <= i < m && Itemized(payloads[i]) :: payloads[i].digest
  }

  function Digests(payloads: seq<Payload>): set<string> { DigestsUpTo(payloads, |payloads|) }

  /** The imported ones among the first `m` rows. */
  function ImportedUpTo(payloads: seq<Payload>, m: nat): set<int>
    requires m <= |payloads|
  {
    set i | 0 <= i < m && Itemized(payloads[i])
  }

  /** How many of the first `m` rows are imported. */
  function Imported(payloads: seq<Payload>, m: nat): nat
    requires m <= |payloads|
  {
    |ImportedUpTo(payloads, m)|
  }

  // ---------------------------------------------------------------- row by row

  lemma ItemizedMeans(p: Payload)
    ensures Itemized(p) <==> HasItem(p)
  {
  }

  lemma ImportedNext(payloads: seq<Payload>, m: nat)
    requires m < |payloads|
    ensures |ImportedUpTo(payloads, m + 1)| == |ImportedUpTo(payloads, m)| + (if Itemized(payloads[m]) then 1 else 0)
  {
    assert ImportedUpTo(payloads, m + 1) == ImportedUpTo(payloads, m) + if Itemized(payloads[m]) then {m} else {};
  }

  lemma {:induction false} KeptUpTo(payloads: seq<Payload>, m: nat)
    requires m <= |payloads|
    ensures |Kept(payloads[..m])| == |ImportedUpTo(payloads, m)|
    decreases m
  {
    if m == 0 {
      assert ImportedUpTo(payloads, 0) == {};
    } else {
      KeptUpTo(payloads, m - 1);
      KeptStep(payloads, m - 1);
      ImportedNext(payloads, m - 1);
      ItemizedMeans(payloads[m - 1]);
    }
  }

  lemma {:induction false} FirstKept(payloads: seq<Payload>, f: nat)
    requires Leads(payloads, f)
    ensures Kept(payloads) != [] && Kept(payloads)[0] == payloads[f]
  {
    KeptUpTo(payloads, f);
    assert ImportedUpTo(payloads, f) == {};
    KeptStep(payloads, f);
    ItemizedMeans(payloads[f]);
    KeptPrefix(payloads, f + 1);
  }

  lemma DocsNext(payloads: seq<Payload>, m: nat, upload: string)
    requires m < |payloads|
    ensures var d := DocOf(payloads[m], upload, |Kept(payloads[..m])|);
      DocsOf(payloads[..m + 1], upload) == DocsOf(payloads[..m], upload) + (if HasItem(payloads[m]) then [d] else [])
  {
    KeptStep(payloads, m);
  }

  lemma EntryAppend(docs: seq<DailyDoc>, d: DailyDoc, k: Key)
    ensures FirstEntry(docs + [d], k) ==
      if FirstEntry(docs, k).Some? then FirstEntry(docs, k) else if d.key == Some(k) then Some(EntryOf(d)) else None
    ensures FirstPayee(docs + [d], k) ==
      if FirstPayee(docs, k) != "" then FirstPayee(docs, k) else if d.key == Some(k) then d.payee else ""
  {
    assert (docs + [d])[..|docs|] == docs;
  }

  lemma CountAppend(s: Store, docs: seq<DailyDoc>, d: DailyDoc)
    ensures NewCount(s, docs + [d]) == NewCount(s, docs) + (if IsNew(InsertAll(s, docs), d) then 1 else 0)
  {
    assert (docs + [d])[..|docs|] == docs;
  }

  /** A row's document has the stripped upload id and the row's digest for a key. */
  lemma DocMeans(p: Payload, upload: string, order: nat)
    requires Speaks(upload)
    ensures DocOf(p, upload, order) ==
      DailyDoc(Some((Strip(upload), p.digest)), order, p.content, NormalizePayee(p.payee))
  {
    StripBlank(upload);
  }

  /** The document that row `i` becomes. */
  function RowDoc(payloads: seq<Payload>, i: nat, upload: string): DailyDoc
    requires i < |payloads|
  {
    DailyDoc(Some((Strip(upload), payloads[i].digest)), Imported(payloads, i), payloads[i].content,
      NormalizePayee(payloads[i].payee))
  }

  /** The documents of the first `m` rows. */
  function Made(payloads: seq<Payload>, m: nat, upload: string): seq<DailyDoc>
    requires m <= |payloads|
  {
    if m == 0 then []
    else if Itemized(payloads[m - 1]) then Made(payloads, m - 1, upload) + [RowDoc(payloads, m - 1, upload)]
    else Made(payloads, m - 1, upload)
  }

  lemma RowDocMeans(payloads: seq<Payload>, m: nat, upload: string)
    requires m < |payloads| && Speaks(upload)
    ensures DocOf(payloads[m], upload, |Kept(payloads[..m])|) == RowDoc(payloads, m, upload)
  {
    KeptUpTo(payloads, m);
    DocMeans(payloads[m], upload, |Kept(payloads[..m])|);
  }

  lemma DocsRow(payloads: seq<Payload>, m: nat, upload: string)
    requires m < |payloads| && Speaks(upload)
    ensures DocsOf(payloads[..m + 1], upload) == DocsOf(payloads[..m], upload)
      + (if Itemized(payloads[m]) then [RowDoc(payloads, m, upload)] else [])
  {
    DocsNext(payloads, m, upload);
    RowDocMeans(payloads, m, upload);
    ItemizedMeans(payloads[m]);
  }

  lemma {:induction false} MadeIsDocs(payloads: seq<Payload>, m: nat, upload: string)
    requires m <= |payloads| && Speaks(upload)
    ensures DocsOf(payloads[..m], upload) == Made(payloads, m, upload)
    decreases m
  {
    if m > 0 {
      MadeIsDocs(payloads, m - 1, upload);
      DocsRow(payloads, m - 1, upload);
    }
  }

  /** The first entry that the first `m` rows push under a digest. */
  function EntryUpTo(payloads: seq<Payload>, m: nat, upload: string, digest: string): Option<Entry>
    requires m <= |payloads|
  {
    if m == 0 then None
    else if EntryUpTo(payloads, m - 1, upload, digest).Some? then EntryUpTo(payloads, m - 1, upload, digest)
    else if Carries(payloads, m - 1, digest) then Some(EntryOf(RowDoc(payloads, m - 1, upload))) else None
  }

  function PayeeUpTo(payloads: seq<Payload>, m: nat, digest: string): string
    requires m <= |payloads|
  {
    if m == 0 then ""
    else if PayeeUpTo(payloads, m - 1, digest) != "" then PayeeUpTo(payloads, m - 1, digest)
    else if Carries(payloads, m - 1, digest) then NormalizePayee(payloads[m - 1].payee) else ""
  }

  lemma {:induction false} MadeEntries(payloads: seq<Payload>, m: nat, upload: string, digest: string)
    requires m <= |payloads|
    ensures FirstEntry(Made(payloads, m, upload), (Strip(upload), digest)) == EntryUpTo(payloads, m, upload, digest)
    ensures FirstPayee(Made(payloads, m, upload), (Strip(upload), digest)) == PayeeUpTo(payloads, m, digest)
    decreases m
  {
    if m > 0 {
      MadeEntries(payloads, m - 1, upload, digest);
      EntryAppend(Made(payloads, m - 1, upload), RowDoc(payloads, m - 1, upload), (Strip(upload), digest));
    }
  }

  lemma {:induction false} EntryFound(payloads: seq<Payload>, m: nat, upload: string, digest: string, i: nat)
    requires m <= |payloads|
    ensures (forall h | 0 <= h < m :: !Carries(payloads, h, digest)) ==> EntryUpTo(payloads, m, upload, digest) == None
    ensures i < m && FirstWith(payloads, i, digest) ==>
      EntryUpTo(payloads, m, upload, digest) == Some(EntryOf(RowDoc(payloads, i, upload)))
    decreases m
  {
    if m > 0 { EntryFound(payloads, m - 1, upload, digest, i); }
  }

  lemma {:induction false} PayeeFound(payloads: seq<Payload>, m: nat, digest: string, i: nat)
    requires m <= |payloads|
    ensures (forall h | 0 <= h < m :: !Pays(payloads, h, digest)) ==> PayeeUpTo(payloads, m, digest) == ""
    ensures i < m && FirstPaying(payloads, i, digest) ==>
      PayeeUpTo(payloads, m, digest) == NormalizePayee(payloads[i].payee) != ""
    decreases m
  {
    if m > 0 {
      PayeeFound(payloads, m - 1, digest, i);
      var here := Pays(payloads, m - 1, digest);
      NormalizesToNothing(payloads[m - 1].payee);
    }
  }

  lemma FirstMade(payloads: seq<Payload>, m: nat, upload: string, digest: string, i: nat)
    requires m <= |payloads|
    ensures (forall h | 0 <= h < m :: !Carries(payloads, h, digest)) ==>
      FirstEntry(Made(payloads, m, upload), (Strip(upload), digest)) == None
    ensures i < m && FirstWith(payloads, i, digest) ==>
      FirstEntry(Made(payloads, m, upload), (Strip(upload), digest)) ==
        Some(Entry(Imported(payloads, i), payloads[i].content, Some(NormalizePayee(payloads[i].payee))))
  {
    MadeEntries(payloads, m, upload, digest);
    EntryFound(payloads, m, upload, digest, i);
  }

  lemma FirstPaid(payloads: seq<Payload>, m: nat, upload: string, digest: string, i: nat)
    requires m <= |payloads|
    ensures (forall h | 0 <= h < m :: !Pays(payloads, h, digest)) ==>
      FirstPayee(Made(payloads, m, upload), (Strip(upload), digest)) == ""
    ensures i < m && FirstPaying(payloads, i, digest) ==>
      FirstPayee(Made(payloads, m, upload), (Strip(upload), digest)) == NormalizePayee(payloads[i].payee) != ""
  {
    MadeEntries(payloads, m, upload, digest);
    PayeeFound(payloads, m, digest, i);
  }

  lemma {:induction false} OtherUploads(payloads: seq<Payload>, m: nat, upload: string, k: Key)
    requires m <= |payloads| && k.0 != Strip(upload)
    ensures FirstEntry(Made(payloads, m, upload), k) == None && FirstPayee(Made(payloads, m, upload), k) == ""
    decreases m
  {
    if m > 0 {
      OtherUploads(payloads, m - 1, upload, k);
      EntryAppend(Made(payloads, m - 1, upload), RowDoc(payloads, m - 1, upload), k);
    }
  }

  /** Those of the digests that are not stored under the upload yet. */
  function NotStored(s: Store, digests: set<string>, upload: string): set<string> {
    set g | g in digests && (Strip(upload), g) !in s.keyed
  }

  lemma NotStoredNext(s: Store, digests: set<string>, g: string, upload: string)
    ensures |NotStored(s, digests + {g}, upload)| == |NotStored(s, digests, upload)|
      + (if g !in digests && (Strip(upload), g) !in s.keyed then 1 else 0)
  {
    var was, now := NotStored(s, digests, upload), NotStored(s, digests + {g}, upload);
    if (Strip(upload), g) in s.keyed || g in digests {
      assert now == was;
    } else {
      assert now == was + {g} && g !in was;
    }
  }

  function Fresh(s: Store, payloads: seq<Payload>, m: nat, upload: string): set<string>
    requires m <= |payloads|
  {
    NotStored(s, DigestsUpTo(payloads, m), upload)
  }

  lemma FreshNext(s: Store, payloads: seq<Payload>, m: nat, upload: string)
    requires m < |payloads|
    ensures var g := payloads[m].digest;
      |Fresh(s, payloads, m + 1, upload)| == |Fresh(s, payloads, m, upload)|
        + (if Itemized(payloads[m]) && (Strip(upload), g) !in s.keyed && g !in DigestsUpTo(payloads, m) then 1 else 0)
  {
    DigestsNext(payloads, m);
    NotStoredNext(s, DigestsUpTo(payloads, m), payloads[m].digest, upload);
    assert DigestsUpTo(payloads, m) + {} == DigestsUpTo(payloads, m);
  }

  lemma DigestsNext(payloads: seq<Payload>, m: nat)
    requires m < |payloads|
    ensures DigestsUpTo(payloads, m + 1) ==
      DigestsUpTo(payloads, m) + if Itemized(payloads[m]) then {payloads[m].digest} else {}
  {
  }

  lemma DigestMade(payloads: seq<Payload>, m: nat, upload: string, digest: string)
    requires m <= |payloads|
    ensures digest in DigestsUpTo(payloads, m) <==>
      FirstEntry(Made(payloads, m, upload), (Strip(upload), digest)).Some?
  {
    MadeEntries(payloads, m, upload, digest);
    DigestEntry(payloads, m, upload, digest);
  }

  lemma {:induction false} DigestEntry(payloads: seq<Payload>, m: nat, upload: string, digest: string)
    requires m <= |payloads|
    ensures digest in DigestsUpTo(payloads, m) <==> EntryUpTo(payloads, m, upload, digest).Some?
    decreases m
  {
    if m > 0 {
      DigestEntry(payloads, m - 1, upload, digest);
      DigestsNext(payloads, m - 1);
    }
  }

  lemma {:induction false} EarliestCarrier(payloads: seq<Payload>, i: nat, digest: string) returns (f: nat)
    requires Carries(payloads, i, digest)
    ensures f <= i && FirstWith(payloads, f, digest)
    decreases i
  {
    f := i;
    if h: nat :| h < i && Carries(payloads, h, digest) { f := EarliestCarrier(payloads, h, digest); }
  }

  lemma {:induction false} NewCountIsFresh(s: Store, payloads: seq<Payload>, m: nat, upload: string)
    requires m <= |payloads|
    ensures NewCount(s, Made(payloads, m, upload)) == |Fresh(s, payloads, m, upload)|
    decreases m
  {
    if m == 0 {
      assert Fresh(s, payloads, 0, upload) == {};
    } else {
      var n := m - 1;
      var docs, g := Made(payloads, n, upload), payloads[n].digest;
      NewCountIsFresh(s, payloads, n, upload);
      FreshNext(s, payloads, n, upload);
      CountAppend(s, docs, RowDoc(payloads, n, upload));
      IsNewIsFresh(s, payloads, n, upload);
    }
  }

  lemma IsNewIsFresh(s: Store, payloads: seq<Payload>, n: nat, upload: string)
    requires n < |payloads|
    ensures IsNew(InsertAll(s, Made(payloads, n, upload)), RowDoc(payloads, n, upload)) <==>
      (Strip(upload), payloads[n].digest) !in s.keyed && payloads[n].digest !in DigestsUpTo(payloads, n)
  {
    DigestMade(payloads, n, upload, payloads[n].digest);
    InsertAllAt(s, Made(payloads, n, upload), (Strip(upload), payloads[n].digest));
    KeyIsAt(InsertAll(s, Made(payloads, n, upload)), (Strip(upload), payloads[n].digest));
  }

  lemma KeyIsAt(s: Store, k: Key)
    ensures k in s.keyed <==> At(s, k).Some?
  {
  }

  // ---------------------------------------------------------------- the whole commit

  /** The upload that a commit works under: what its first imported row says, or a minted
      id when that row has an empty one. */
  ghost predicate Names(payloads: seq<Payload>, minted: string, upload: string) {
    exists f :: Leads(payloads, f) && upload == if |payloads[f].uploadId| == 0 then minted else payloads[f].uploadId
  }

  ghost predicate Under(payloads: seq<Payload>, minted: string, upload: string) {
    Names(payloads, minted, upload) && Speaks(upload)
  }

  lemma NamesMeans(payloads: seq<Payload>, minted: string, upload: string)
    requires Names(payloads, minted, upload)
    ensures UploadOf(payloads, minted) == upload && Kept(payloads) != []
  {
    var f: nat :| Leads(payloads, f) && upload == if |payloads[f].uploadId| == 0 then minted else payloads[f].uploadId;
    FirstKept(payloads, f);
  }

  lemma UnderMeans(payloads: seq<Payload>, minted: string, upload: string)
    requires Under(payloads, minted, upload)
    ensures Docs(payloads, minted) == Made(payloads, |payloads|, upload)
  {
    NamesMeans(payloads, minted, upload);
    MadeIsDocs(payloads, |payloads|, upload);
    assert payloads[..|payloads|] == payloads;
  }

  /** After a complete commit under an upload, rows are stored exactly under the keys
      that were there, and under the stripped upload id with the digests of the imported
      rows; and as many were inserted as there are digests that were not there. */
  lemma CommitStores(s: Store, payloads: seq<Payload>, minted: string, upload: string)
    requires Under(payloads, minted, upload)
    ensures var after := AbsorbAll(s, Docs(payloads, minted));
      && (forall k :: k in after.keyed <==>
            k in s.keyed || (k.0 == Strip(upload) && exists i :: Carries(payloads, i, k.1)))
      && after.loose == s.loose
    ensures NewCount(s, Docs(payloads, minted)) ==
      |set g | g in Digests(payloads) && (Strip(upload), g) !in s.keyed|
  {
    var docs, m := Docs(payloads, minted), |payloads|;
    UnderMeans(payloads, minted, upload);
    NewCountIsFresh(s, payloads, m, upload);
    forall k ensures At(AbsorbAll(s, docs), k).Some? <==>
      At(s, k).Some? || (k.0 == Strip(upload) && exists i :: Carries(payloads, i, k.1))
    {
      AbsorbSettles(s, docs, k);
      KeyMade(payloads, upload, k);
    }
    forall k ensures k in AbsorbAll(s, docs).keyed <==> At(AbsorbAll(s, docs), k).Some? {
    }
    AbsorbSettles(s, docs, ("", ""));
    NoLooseMade(payloads, |payloads|, upload);
  }

  lemma KeyMade(payloads: seq<Payload>, upload: string, k: Key)
    requires Speaks(upload)
    ensures FirstEntry(Made(payloads, |payloads|, upload), k).Some? <==>
      k.0 == Strip(upload) && exists i :: Carries(payloads, i, k.1)
  {
    if k.0 == Strip(upload) {
      if i :| Carries(payloads, i, k.1) {
        var f := EarliestCarrier(payloads, i, k.1);
        FirstMade(payloads, |payloads|, upload, k.1, f);
      } else {
        FirstMade(payloads, |payloads|, upload, k.1, 0);
      }
    } else {
      OtherUploads(payloads, |payloads|, upload, k);
    }
  }

  lemma {:induction false} NoLooseMade(payloads: seq<Payload>, m: nat, upload: string)
    requires m <= |payloads|
    ensures LooseOf(Made(payloads, m, upload)) == []
    decreases m
  {
    if m > 0 {
      NoLooseMade(payloads, m - 1, upload);
      var docs, d := Made(payloads, m - 1, upload), RowDoc(payloads, m - 1, upload);
      assert (docs + [d])[..|docs|] == docs;
    }
  }

  /** A newly stored row has the content of the first imported row with its digest, the
      place of that row among the imported ones, and the payee, normalised, of the first
      one with its digest that names a payee, or none. */
  lemma NewRowSays(s: Store, payloads: seq<Payload>, minted: string, upload: string, digest: string, i: nat)
    requires Under(payloads, minted, upload) && FirstWith(payloads, i, digest) && (Strip(upload), digest) !in s.keyed
    ensures var after, k := AbsorbAll(s, Docs(payloads, minted)), (Strip(upload), digest);
      && k in after.keyed
      && after.keyed[k].content == payloads[i].content && after.keyed[k].order == Imported(payloads, i)
      && (forall h :: FirstPaying(payloads, h, digest) ==>
            after.keyed[k].payee == Some(NormalizePayee(payloads[h].payee)))
      && ((forall h :: !Pays(payloads, h, digest)) ==> after.keyed[k].payee == Some(""))
  {
    var docs, k := Docs(payloads, minted), (Strip(upload), digest);
    UnderMeans(payloads, minted, upload);
    FirstMade(payloads, |payloads|, upload, digest, i);
    AbsorbSettles(s, docs, k);
    FirstPayeeOfFirstEntry(docs, k);
    assert At(AbsorbAll(s, docs), k) == Some(AbsorbAll(s, docs).keyed[k]);
    forall h | FirstPaying(payloads, h, digest)
      ensures AbsorbAll(s, docs).keyed[k].payee == Some(NormalizePayee(payloads[h].payee))
    {
      FirstPaid(payloads, |payloads|, upload, digest, h);
    }
    if forall h :: !Pays(payloads, h, digest) { FirstPaid(payloads, |payloads|, upload, digest, 0); }
  }

  /** A row that was stored keeps its content and its place; only a blank payee is filled,
      by the first imported row with its digest that names one. */
  lemma OldRowSays(s: Store, payloads: seq<Payload>, minted: string, upload: string, digest: string)
    requires Under(payloads, minted, upload) && (Strip(upload), digest) in s.keyed
    ensures var k := (Strip(upload), digest);
      var was, now := s.keyed[k], AbsorbAll(s, Docs(payloads, minted)).keyed;
      && k in now && now[k].content == was.content && now[k].order == was.order
      && ((was.payee != None && was.payee != Some("")) || (forall h :: !Pays(payloads, h, digest)) ==> now[k] == was)
      && (forall h :: FirstPaying(payloads, h, digest) && (was.payee == None || was.payee == Some("")) ==>
            now[k].payee == Some(NormalizePayee(payloads[h].payee)))
  {
    var docs, k := Docs(payloads, minted), (Strip(upload), digest);
    UnderMeans(payloads, minted, upload);
    AbsorbSettles(s, docs, k);
    assert At(AbsorbAll(s, docs), k) == Some(AbsorbAll(s, docs).keyed[k]);
    forall h | FirstPaying(payloads, h, digest) && BlankPayee(s.keyed[k])
      ensures AbsorbAll(s, docs).keyed[k].payee == Some(NormalizePayee(payloads[h].payee))
    {
      FirstPaid(payloads, |payloads|, upload, digest, h);
    }
    if forall h :: !Pays(payloads, h, digest) { FirstPaid(payloads, |payloads|, upload, digest, 0); }
  }

  /** An upload id of nothing but blanks gives no key: every imported row is stored, in
      order, whatever was stored before. */
  lemma BlankUploadStoresAll(s: Store, payloads: seq<Payload>, minted: string, upload: string)
    requires Names(payloads, minted, upload) && AllBlank(upload)
    ensures var after := AbsorbAll(s, Docs(payloads, minted));
      && after.keyed == s.keyed && s.loose <= after.loose
      && |after.loose| == |s.loose| + Imported(payloads, |payloads|)
    ensures NewCount(s, Docs(payloads, minted)) == Imported(payloads, |payloads|)
    ensures forall i: nat | i < |payloads| && Itemized(payloads[i]) ::
      StoredLoose(AbsorbAll(s, Docs(payloads, minted)).loose, |s.loose| + Imported(payloads, i), payloads, i)
  {
    var docs := Docs(payloads, minted);
    NamesMeans(payloads, minted, upload);
    StripBlank(upload);
    KeptUpTo(payloads, |payloads|);
    assert payloads[..|payloads|] == payloads;
    UnkeyedAbsorb(s, docs);
    forall i: nat | i < |payloads| && Itemized(payloads[i])
      ensures StoredLoose(AbsorbAll(s, docs).loose, |s.loose| + Imported(payloads, i), payloads, i)
    {
      KeptAtPlace(payloads, i);
      assert AbsorbAll(s, docs).loose[|s.loose| + Imported(payloads, i)] == EntryOf(docs[Imported(payloads, i)]);
    }
  }

  /** The row without a key at `j` is what row `i` says. */
  predicate StoredLoose(loose: seq<Entry>, j: int, payloads: seq<Payload>, i: nat) {
    0 <= j < |loose| && i < |payloads|
    && loose[j] == Entry(Imported(payloads, i), payloads[i].content, Some(NormalizePayee(payloads[i].payee)))
  }

  lemma KeptAtPlace(payloads: seq<Payload>, i: nat)
    requires i < |payloads| && Itemized(payloads[i])
    ensures Imported(payloads, i) < |Kept(payloads)| && Kept(payloads)[Imported(payloads, i)] == payloads[i]
  {
    KeptUpTo(payloads, i);
    ItemizedMeans(payloads[i]);
    KeptStep(payloads, i);
    KeptPrefix(payloads, i + 1);
  }

  lemma {:induction false} UnkeyedAbsorb(s: Store, docs: seq<DailyDoc>)
    requires forall i | 0 <= i < |docs| :: docs[i].key.None?
    ensures var after := AbsorbAll(s, docs);
      && after.keyed == s.keyed && |after.loose| == |s.loose| + |docs| && s.loose <= after.loose
      && (forall i | 0 <= i < |docs| :: after.loose[|s.loose| + i] == EntryOf(docs[i]))
    ensures NewCount(s, docs) == |docs|
    decreases |docs|
  {
    if docs != [] { UnkeyedAbsorb(s, docs[..|docs| - 1]); }
  }
}
