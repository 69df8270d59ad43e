/** Retried creates, read off the stored fields: which answer a create gets, alone or
    together with others in one request. */
module Retries {
  import opened Mongo
  import opened Lifecycle
  import opened Creation
  import opened Indexes

  /** Both documents have these two fields, with the same values. */
  predicate SamePair(d: Doc, e: Doc) {
    && CashierId in d && CashierId in e && d[CashierId] == e[CashierId]
    && ClientRowId in d && ClientRowId in e && d[ClientRowId] == e[ClientRowId]
  }

  predicate StoredPair(rows: Rows, d: Doc) {
    exists id | id in rows :: SamePair(rows[id], d)
  }

  /** A client row id that the service takes as a name: text, and not the empty one. */
  predicate NamesRow(v: Value) {
    match v
    case Text(s) => |s| > 0
    case Status(_) => true
    case _ => false
  }

  /** A create can be retried under this document: a client row id and a cashier. */
  predicate Retryable(d: Doc) {
    ClientRowId in d && NamesRow(d[ClientRowId]) && CashierId in d && !d[CashierId].Null?
  }

  /** Without import keys only the client row decides. */
  lemma NoImportKeys(d: Doc)
    requires DailyImportId !in d && MasterImportSource !in d
    ensures RegisterDoc(d)
  {
  }

  /** When two documents share an index entry, index by index. */
  lemma SameEntryMeans(d: Doc, e: Doc)
    ensures SameEntry(ClientRow, d, e) <==> SamePair(d, e) && (d[ClientRowId].Text? || d[ClientRowId].Status?)
    ensures SameEntry(DailyRow, d, e) <==>
      && DailyImportId in d && DailyImportId in e && d[DailyImportId] == e[DailyImportId]
      && ImportRowKey in d && ImportRowKey in e && d[ImportRowKey] == e[ImportRowKey]
      && (d[DailyImportId].Text? || d[DailyImportId].Status?)
      && (d[ImportRowKey].Text? || d[ImportRowKey].Status?)
    ensures SameEntry(MasterRow, d, e) <==>
      && MasterImportSource in d && MasterImportSource in e && d[MasterImportSource] == e[MasterImportSource]
      && MasterSerial in d && MasterSerial in e && d[MasterSerial] == e[MasterSerial]
      && (d[MasterImportSource].Text? || d[MasterImportSource].Status?)
  {
  }

  /** A retried create is recognised by its fields: it is answered "already exists" exactly
      when some stored row has its cashier and client row id, and created exactly when none
      has. */
  lemma RetryIsRecognised(rows: Rows, d: Doc)
    requires RegisterDoc(d) && Retryable(d)
    ensures CreateOutcome(rows, d) == AlreadyExists <==> StoredPair(rows, d)
    ensures CreateOutcome(rows, d) == Created <==> !StoredPair(rows, d)
  {
    ClashMeansSameClientRow(rows, d);
    var hits := SameClientRow(rows, (d[CashierId], d[ClientRowId]));
    if id :| id in rows && SamePair(rows[id], d) {
      assert id in hits;
    }
  }

  /** Any other create is never "already exists": it fails exactly when it collides in the
      index, which takes an empty text or a null cashier for a value. */
  lemma OtherCreatesFail(rows: Rows, d: Doc)
    requires RegisterDoc(d) && !Retryable(d)
    ensures CreateOutcome(rows, d) != AlreadyExists
    ensures CreateOutcome(rows, d) == Failed <==>
      StoredPair(rows, d) && (d[ClientRowId].Text? || d[ClientRowId].Status?)
  {
    forall id | id in rows { SameEntryMeans(rows[id], d); }
    ClashMeansSameClientRow(rows, d);
    if StoredPair(rows, d) && (d[ClientRowId].Text? || d[ClientRowId].Status?) {
      var id :| id in rows && SamePair(rows[id], d);
      assert SameEntry(ClientRow, rows[id], d);
    }
  }

  // ---------------------------------------------------------------- in one request

  lemma LastCreateExtends(rows: Rows, items: seq<NewRow>)
    requires items != [] && FreshItems(rows, items) && IndexesHold(rows)
    ensures Extends(CreateAll(rows, items[..|items| - 1]), CreateAll(rows, items))
  {
    CreateAllKeepsIndexes(rows, items[..|items| - 1]);
  }

  lemma {:induction false} CreatedStays(rows: Rows, items: seq<NewRow>, i: nat)
    requires i <= |items| && FreshItems(rows, items) && IndexesHold(rows)
    ensures Extends(CreateAll(rows, items[..i]), CreateAll(rows, items))
    decreases |items|
  {
    if i == |items| {
      assert items[..i] == items;
    } else {
      var rest := items[..|items| - 1];
      assert rest[..i] == items[..i];
      CreatedStays(rows, rest, i);
      LastCreateExtends(rows, items);
    }
  }

  lemma OneOwner(rows: Rows, a: Id, b: Id)
    requires IndexesHold(rows) && a in rows && b in rows && SameEntry(ClientRow, rows[a], rows[b])
    ensures a == b
  {
  }

  /** Item `j` repeats the cashier and client row id of the earlier item `i`. */
  predicate Repeats(items: seq<NewRow>, i: int, j: int) {
    && 0 <= i < j < |items| && items[i].doc.Some? && items[j].doc.Some?
    && Retryable(items[j].doc.value) && SamePair(items[i].doc.value, items[j].doc.value)
  }

  /** Of two items in one request with the same cashier and client row id, the second is
      answered "already exists" with a stored row of that pair: the first item's own row,
      when nothing before it had the pair. */
  lemma SecondIsRecognised(rows: Rows, items: seq<NewRow>, i: nat, j: nat, slot: Slot)
    requires Repeats(items, i, j) && FreshItems(rows, items) && IndexesHold(rows)
    requires SlotRight(slot, rows, items, j)
    ensures slot.outcome == AlreadyExists && slot.saved.Some? && SamePair(slot.saved.value, items[j].doc.value)
    ensures !StoredPair(CreateAll(rows, items[..i]), items[i].doc.value)
      ==> slot.saved == Some(items[i].doc.value)
  {
    var d, e := items[i].doc.value, items[j].doc.value;
    var mid := CreateAll(rows, items[..i + 1]);
    var now := CreateAll(rows, items[..j]);
    FirstHasIt(rows, items, i, e);
    assert items[..j][..i + 1] == items[..i + 1] && FreshItems(rows, items[..j]);
    CreatedStays(rows, items[..j], i + 1);
    RetryIsRecognised(now, e);
    var id :| id in SameClientRow(now, ClientRowKey(e).value) && slot.saved == Some(now[id]);
    if !StoredPair(CreateAll(rows, items[..i]), d) {
      FirstIsStored(rows, items, i);
      CreateAllKeepsIndexes(rows, items[..j]);
      SameEntryMeans(now[items[i].id], now[id]);
      OneOwner(now, items[i].id, id);
    }
  }

  lemma FirstHasIt(rows: Rows, items: seq<NewRow>, i: nat, e: Doc)
    requires i < |items| && items[i].doc.Some? && RegisterDoc(items[i].doc.value)
    requires Retryable(e) && SamePair(items[i].doc.value, e)
    ensures StoredPair(CreateAll(rows, items[..i + 1]), e)
  {
    var d := items[i].doc.value;
    CreateNext(rows, items, i);
    RetryIsRecognised(CreateAll(rows, items[..i]), d);
    var after := CreateAll(rows, items[..i + 1]);
    if id :| id in CreateAll(rows, items[..i]) && SamePair(CreateAll(rows, items[..i])[id], d) {
      assert id in after && SamePair(after[id], e);
    } else {
      assert SamePair(after[items[i].id], e);
    }
  }

  lemma FirstIsStored(rows: Rows, items: seq<NewRow>, i: nat)
    requires i < |items| && items[i].doc.Some? && RegisterDoc(items[i].doc.value) && Retryable(items[i].doc.value)
    requires !StoredPair(CreateAll(rows, items[..i]), items[i].doc.value)
    ensures var after := CreateAll(rows, items[..i + 1]);
      items[i].id in after && after[items[i].id] == items[i].doc.value
  {
    CreateNext(rows, items, i);
    RetryIsRecognised(CreateAll(rows, items[..i]), items[i].doc.value);
  }
}
