/** Creating register rows: one at a time by `client_row_id`, or many with one
    prefetch and one unordered `insert_many` that must give the same answers. */
module Creation {
  import opened Mongo
  import opened Badges
  import opened Lifecycle

  /** `_create_document` never sets an import key, so only the client-row index covers it. */
  predicate RegisterDoc(d: Doc) {
    IndexEntry(DailyRow, d).None? && IndexEntry(MasterRow, d).None?
  }

  datatype Slot = Slot(outcome: Outcome, saved: Option<Doc>)

  /** A prepared document waiting for `insert_many`, with its place in the request. */
  datatype Insertion = Insertion(index: nat, id: Id, doc: Doc)

  function InsertRow(rows: Rows, ins: Insertion): Rows {
    if Clashes(rows, ins.doc) then rows else rows[ins.id := ins.doc]
  }

  /** Unordered `insert_many`, in list order: each clash is reported and skipped. */
  function InsertAll(rows: Rows, list: seq<Insertion>): Rows {
    if list == [] then rows else InsertRow(InsertAll(rows, list[..|list| - 1]), list[|list| - 1])
  }

  lemma InsertNext(rows: Rows, list: seq<Insertion>, j: nat)
    requires j < |list|
    ensures InsertAll(rows, list[..j + 1]) == InsertRow(InsertAll(rows, list[..j]), list[j])
  {
    assert list[..j + 1][..j] == list[..j];
  }

  predicate FreshItems(rows: Rows, items: seq<NewRow>) {
    && (forall i, j | 0 <= i < j < |items| :: items[i].id != items[j].id)
    && (forall i | 0 <= i < |items| :: items[i].id !in rows)
    && (forall i | 0 <= i < |items| && items[i].doc.Some? :: RegisterDoc(items[i].doc.value))
  }

  /** For register documents the unique index and the lookup see the same duplicates. */
  lemma ClashMeansSameClientRow(rows: Rows, d: Doc)
    requires RegisterDoc(d)
    ensures ClientRowKey(d).Some? ==>
      (Clashes(rows, d) <==> SameClientRow(rows, ClientRowKey(d).value) != {})
    ensures CreateOutcome(rows, d) == Created <==> !Clashes(rows, d)
    ensures CreateOutcome(rows, d) == AlreadyExists <==> Clashes(rows, d) && ClientRowKey(d).Some?
  {
    if ClientRowKey(d).Some? {
      var key := ClientRowKey(d).value;
      if Clashes(rows, d) {
        var id, ix: Index :| id in rows && SameEntry(ix, rows[id], d);
        assert ix == ClientRow;
        assert id in SameClientRow(rows, key);
      }
      if SameClientRow(rows, key) != {} {
        var id :| id in SameClientRow(rows, key);
        assert SameEntry(ClientRow, rows[id], d);
      }
    }
  }

  lemma {:induction false} InsertAllGrows(rows: Rows, list: seq<Insertion>)
    requires forall j | 0 <= j < |list| :: list[j].id !in rows
    requires forall i, j | 0 <= i < j < |list| :: list[i].id != list[j].id
    ensures forall id | id in rows :: id in InsertAll(rows, list) && InsertAll(rows, list)[id] == rows[id]
    ensures forall id | id in InsertAll(rows, list) ::
      id in rows || exists j | 0 <= j < |list| :: list[j].id == id
    decreases |list|
  {
    if list != [] {
      InsertAllGrows(rows, list[..|list| - 1]);
    }
  }

  /** Accepting only documents that do not clash keeps every unique index. */
  lemma {:induction false} InsertAllKeepsIndexes(rows: Rows, list: seq<Insertion>)
    requires IndexesHold(rows)
    ensures IndexesHold(InsertAll(rows, list))
    decreases |list|
  {
    if list != [] {
      var n := |list| - 1;
      InsertAllKeepsIndexes(rows, list[..n]);
      var mid := InsertAll(rows, list[..n]);
      var after := InsertRow(mid, list[n]);
      forall i, j, ix: Index | i in after && j in after && i != j
        ensures !SameEntry(ix, after[i], after[j])
      {
        if !Clashes(mid, list[n].doc) {
          if j == list[n].id {
            assert !SameEntry(ix, mid[i], list[n].doc);
          } else if i == list[n].id {
            assert !SameEntry(ix, mid[j], list[n].doc);
          }
        }
      }
    }
  }

  lemma CreateNext(rows: Rows, items: seq<NewRow>, i: nat)
    requires i < |items| && items[i].doc.Some?
    ensures CreateAll(rows, items[..i + 1]) == CreateRow(CreateAll(rows, items[..i]), items[i].id, items[i].doc.value)
  {
    assert items[..i + 1][..i] == items[..i];
  }

  /** A row that held the key before still holds it. */
  lemma KeyStaysTaken(rows: Rows, mid: Rows, d: Doc)
    requires RegisterDoc(d) && ClientRowKey(d).Some? && SameClientRow(rows, ClientRowKey(d).value) != {}
    requires forall id | id in rows :: id in mid && mid[id] == rows[id]
    ensures Clashes(mid, d) && CreateOutcome(mid, d) == AlreadyExists
  {
    var id :| id in SameClientRow(rows, ClientRowKey(d).value);
    assert id in SameClientRow(mid, ClientRowKey(d).value);
    ClashMeansSameClientRow(mid, d);
  }

  /** A prefetched key is skipped; any other document inserts exactly when a single
      create would have created it. */
  lemma PrepareStep(rows: Rows, items: seq<NewRow>, i: nat, list: seq<Insertion>)
    requires i < |items| && FreshItems(rows, items) && items[i].doc.Some?
    requires InsertAll(rows, list) == CreateAll(rows, items[..i])
    requires forall id | id in rows :: id in InsertAll(rows, list) && InsertAll(rows, list)[id] == rows[id]
    ensures var d := items[i].doc.value;
      if ClientRowKey(d).Some? && SameClientRow(rows, ClientRowKey(d).value) != {}
      then CreateAll(rows, items[..i + 1]) == InsertAll(rows, list)
        && CreateOutcome(CreateAll(rows, items[..i]), d) == AlreadyExists
      else InsertAll(rows, list + [Insertion(i, items[i].id, d)]) == CreateAll(rows, items[..i + 1])
  {
    var d, mid := items[i].doc.value, CreateAll(rows, items[..i]);
    CreateNext(rows, items, i);
    if ClientRowKey(d).Some? && SameClientRow(rows, ClientRowKey(d).value) != {} {
      KeyStaysTaken(rows, mid, d);
    } else {
      InsertOneMore(rows, list, Insertion(i, items[i].id, d));
      ClashMeansSameClientRow(mid, d);
    }
  }

  lemma InsertOneMore(rows: Rows, list: seq<Insertion>, ins: Insertion)
    ensures InsertAll(rows, list + [ins]) == InsertRow(InsertAll(rows, list), ins)
  {
    assert (list + [ins])[..|list|] == list;
  }

  /** Which documents of an unordered `insert_many` were refused. */
  predicate FailuresRight(rows: Rows, list: seq<Insertion>, failed: seq<bool>) {
    |failed| <= |list| &&
    forall j | 0 <= j < |failed| :: failed[j] == Clashes(InsertAll(rows, list[..j]), list[j].doc)
  }

  lemma OneMoreFailure(rows: Rows, list: seq<Insertion>, failed: seq<bool>, clash: bool)
    requires FailuresRight(rows, list, failed) && |failed| < |list|
    requires clash == Clashes(InsertAll(rows, list[..|failed|]), list[|failed|].doc)
    ensures FailuresRight(rows, list, failed + [clash])
  {
  }

  /** The answer `_create_one_transaction_doc` gives for document `d` in state `rows`. */
  ghost predicate AnswersLike(slot: Slot, rows: Rows, d: Doc) {
    && slot.outcome == CreateOutcome(rows, d)
    && match slot.outcome {
         case Created => slot.saved == Some(d)
         case AlreadyExists => exists id | id in SameClientRow(rows, ClientRowKey(d).value) ::
           slot.saved == Some(rows[id])
         case Failed => slot.saved == None
       }
  }

  /** Slot `i` is what creating the items one request at a time would answer. */
  ghost predicate SlotRight(slot: Slot, rows: Rows, items: seq<NewRow>, i: nat)
    requires i < |items|
  {
    if items[i].doc.None? then slot == Slot(Failed, None)
    else AnswersLike(slot, CreateAll(rows, items[..i]), items[i].doc.value)
  }

  /** Under the unique index the row found after the batch is the one that was there
      when the document clashed. */
  lemma LateLookupFindsTheSameRow(mid: Rows, after: Rows, d: Doc, found: Id)
    requires RegisterDoc(d) && ClientRowKey(d).Some? && Clashes(mid, d)
    requires forall id | id in mid :: id in after && after[id] == mid[id]
    requires IndexesHold(after)
    requires found in SameClientRow(after, ClientRowKey(d).value)
    ensures found in SameClientRow(mid, ClientRowKey(d).value) && after[found] == mid[found]
  {
    ClashMeansSameClientRow(mid, d);
    var there :| there in SameClientRow(mid, ClientRowKey(d).value);
    assert found == there by {
      if found != there {
        assert SameEntry(ClientRow, after[found], after[there]);
      }
    }
  }

  /** Rows added by a batch, one note each. */
  ghost predicate Added(before: Rows, after: Rows, created: seq<Insertion>) {
    && (forall i, j | 0 <= i < j < |created| :: created[i].id != created[j].id)
    && (forall id | (forall j | 0 <= j < |created| :: created[j].id != id) :: At(before, id) == At(after, id))
    && (forall j | 0 <= j < |created| ::
          created[j].id !in before && At(after, created[j].id) == Some(created[j].doc))
  }

  function CreateNotes(created: seq<Insertion>): seq<Change> {
    seq(|created|, j requires 0 <= j < |created| => Change(None, Some(created[j].doc)))
  }

  lemma CreateNotesFollow(before: Rows, after: Rows, created: seq<Insertion>, k: CounterKey)
    requires Added(before, after, created)
    ensures Noted(CreateNotes(created), k) == Tally(after, k) - Tally(before, k)
  {
    var ids := seq(|created|, j requires 0 <= j < |created| => created[j].id);
    forall id | id !in ids ensures At(before, id) == At(after, id) {
      forall j | 0 <= j < |created| ensures created[j].id != id {
        assert ids[j] == created[j].id;
      }
    }
    NotedFollowsRecount(before, after, ids, CreateNotes(created), k);
  }

  /** Prepared documents, in request order, each facing the state that the
      one-at-a-time creates would have reached. */
  ghost predicate Planned(rows: Rows, items: seq<NewRow>, upto: nat, list: seq<Insertion>)
    requires upto <= |items|
  {
    && (forall j | 0 <= j < |list| :: list[j].index < upto
          && items[list[j].index] == NewRow(list[j].id, Some(list[j].doc))
          && InsertAll(rows, list[..j]) == CreateAll(rows, items[..list[j].index]))
    && (forall i, j | 0 <= i < j < |list| :: list[i].index < list[j].index)
    && InsertAll(rows, list) == CreateAll(rows, items[..upto])
  }

  lemma PlannedIsFresh(rows: Rows, items: seq<NewRow>, upto: nat, list: seq<Insertion>)
    requires upto <= |items| && FreshItems(rows, items) && Planned(rows, items, upto, list)
    ensures forall j | 0 <= j < |list| :: list[j].id !in rows && RegisterDoc(list[j].doc)
    ensures forall i, j | 0 <= i < j < |list| :: list[i].id != list[j].id
  {
    forall i, j | 0 <= i < j < |list| ensures list[i].id != list[j].id {
      assert list[i].index < list[j].index;
      assert items[list[i].index].id == list[i].id && items[list[j].index].id == list[j].id;
    }
  }

  lemma PlanGrows(rows: Rows, items: seq<NewRow>, i: nat, list: seq<Insertion>, ins: Insertion)
    requires i < |items| && Planned(rows, items, i, list)
    requires items[i] == NewRow(ins.id, Some(ins.doc)) && ins.index == i
    requires InsertAll(rows, list + [ins]) == CreateAll(rows, items[..i + 1])
    ensures Planned(rows, items, i + 1, list + [ins])
  {
    var more := list + [ins];
    forall j | 0 <= j < |more|
      ensures more[j].index < i + 1
        && items[more[j].index] == NewRow(more[j].id, Some(more[j].doc))
        && InsertAll(rows, more[..j]) == CreateAll(rows, items[..more[j].index])
    {
      assert more[..j] == if j < |list| then list[..j] else list;
    }
  }

  lemma PlanNext(rows: Rows, items: seq<NewRow>, i: nat, list: seq<Insertion>)
    requires i < |items| && FreshItems(rows, items) && Planned(rows, items, i, list)
    requires items[i].doc.Some?
    ensures var d := items[i].doc.value;
      if ClientRowKey(d).Some? && SameClientRow(rows, ClientRowKey(d).value) != {}
      then Planned(rows, items, i + 1, list)
        && AnswersLikeExisting(rows, items, i)
      else Planned(rows, items, i + 1, list + [Insertion(i, items[i].id, d)])
  {
    var d := items[i].doc.value;
    PlannedIsFresh(rows, items, i, list);
    InsertAllGrows(rows, list);
    PrepareStep(rows, items, i, list);
    if ClientRowKey(d).Some? && SameClientRow(rows, ClientRowKey(d).value) != {} {
      ExistingAnswers(rows, items, i, d);
    } else {
      PlanGrows(rows, items, i, list, Insertion(i, items[i].id, d));
    }
  }

  lemma ExistingAnswers(rows: Rows, items: seq<NewRow>, i: nat, d: Doc)
    requires i < |items| && items[i].doc == Some(d) && ClientRowKey(d).Some?
    requires CreateOutcome(CreateAll(rows, items[..i]), d) == AlreadyExists
    requires forall id | id in rows ::
      id in CreateAll(rows, items[..i]) && CreateAll(rows, items[..i])[id] == rows[id]
    ensures AnswersLikeExisting(rows, items, i)
  {
    var mid, key := CreateAll(rows, items[..i]), ClientRowKey(d).value;
    forall id | id in SameClientRow(rows, key) ensures id in SameClientRow(mid, key) && mid[id] == rows[id] {
    }
  }

  /** Any row that already held the key answers item `i`. */
  ghost predicate AnswersLikeExisting(rows: Rows, items: seq<NewRow>, i: nat)
    requires i < |items| && items[i].doc.Some?
  {
    var d := items[i].doc.value;
    ClientRowKey(d).Some? &&
    forall id | id in SameClientRow(rows, ClientRowKey(d).value) ::
      SlotRight(Slot(AlreadyExists, Some(rows[id])), rows, items, i)
  }

  lemma PlanSkip(rows: Rows, items: seq<NewRow>, i: nat, list: seq<Insertion>)
    requires i < |items| && Planned(rows, items, i, list) && items[i].doc.None?
    ensures Planned(rows, items, i + 1, list)
    ensures SlotRight(Slot(Failed, None), rows, items, i)
  {
    assert items[..i + 1][..i] == items[..i];
  }

  /** A clash is always resolved: the row that caused it is still there after the batch. */
  lemma ClashHasHolder(mid: Rows, after: Rows, d: Doc)
    requires RegisterDoc(d) && ClientRowKey(d).Some? && Clashes(mid, d)
    requires forall id | id in mid :: id in after && after[id] == mid[id]
    ensures SameClientRow(after, ClientRowKey(d).value) != {}
  {
    ClashMeansSameClientRow(mid, d);
    var there :| there in SameClientRow(mid, ClientRowKey(d).value);
    assert there in SameClientRow(after, ClientRowKey(d).value);
  }

  /** What looking the key of a clashing document up after the whole batch finds. */
  ghost predicate Resolves(after: Rows, d: Doc, found: Option<Id>) {
    if found.Some?
    then ClientRowKey(d).Some? && found.value in SameClientRow(after, ClientRowKey(d).value)
    else ClientRowKey(d).Some? ==> SameClientRow(after, ClientRowKey(d).value) == {}
  }

  function ResolvedSlot(after: Rows, found: Option<Id>): Slot
    requires found.Some? ==> found.value in after
  {
    if found.Some? then Slot(AlreadyExists, Some(after[found.value])) else Slot(Failed, None)
  }

  lemma ResolvedAnswersLike(mid: Rows, after: Rows, d: Doc, found: Option<Id>)
    requires RegisterDoc(d) && Clashes(mid, d) && IndexesHold(after)
    requires forall id | id in mid :: id in after && after[id] == mid[id]
    requires Resolves(after, d, found)
    ensures AnswersLike(ResolvedSlot(after, found), mid, d)
  {
    ClashMeansSameClientRow(mid, d);
    if ClientRowKey(d).Some? {
      ClashHasHolder(mid, after, d);
      LateLookupFindsTheSameRow(mid, after, d, found.value);
    }
  }

  lemma ResolvedRight(
      rows: Rows, items: seq<NewRow>, list: seq<Insertion>, j: nat, after: Rows, found: Option<Id>)
    requires FreshItems(rows, items) && Planned(rows, items, |items|, list) && IndexesHold(rows)
    requires j < |list| && after == InsertAll(rows, list)
    requires Clashes(InsertAll(rows, list[..j]), list[j].doc)
    requires Resolves(after, list[j].doc, found)
    ensures SlotRight(ResolvedSlot(after, found), rows, items, list[j].index)
  {
    PlannedIsFresh(rows, items, |items|, list);
    PrefixGrows(rows, list, j);
    InsertAllKeepsIndexes(rows, list);
    ResolvedAnswersLike(InsertAll(rows, list[..j]), after, list[j].doc, found);
  }

  predicate Extends(before: Rows, after: Rows) {
    forall id | id in before :: id in after && after[id] == before[id]
  }

  lemma LastGrows(rows: Rows, list: seq<Insertion>)
    requires list != [] && forall i | 0 <= i < |list| :: list[i].id !in rows
    requires forall i, m | 0 <= i < m < |list| :: list[i].id != list[m].id
    ensures Extends(InsertAll(rows, list[..|list| - 1]), InsertAll(rows, list))
  {
    InsertAllGrows(rows, list[..|list| - 1]);
  }

  lemma {:induction false} PrefixGrows(rows: Rows, list: seq<Insertion>, j: nat)
    requires j <= |list|
    requires forall i | 0 <= i < |list| :: list[i].id !in rows
    requires forall i, m | 0 <= i < m < |list| :: list[i].id != list[m].id
    ensures Extends(InsertAll(rows, list[..j]), InsertAll(rows, list))
    decreases |list|
  {
    if j == |list| {
      assert list[..j] == list;
    } else {
      var rest := list[..|list| - 1];
      assert rest[..j] == list[..j];
      PrefixGrows(rows, rest, j);
      LastGrows(rows, list);
    }
  }

  lemma AddedOne(before: Rows, mid: Rows, created: seq<Insertion>, ins: Insertion)
    requires Added(before, mid, created) && ins.id !in mid && ins.id !in before
    ensures Added(before, mid[ins.id := ins.doc], created + [ins])
  {
    var after: Rows, more := mid[ins.id := ins.doc], created + [ins];
    assert At(mid, ins.id) == None;
    forall j | 0 <= j < |created|
      ensures created[j].id != ins.id && At(after, created[j].id) == Some(created[j].doc)
    {
      assert At(mid, created[j].id) == Some(created[j].doc);
    }
    forall i | forall j | 0 <= j < |more| :: more[j].id != i
      ensures At(before, i) == At(after, i)
    {
      assert more[|created|].id != i;
      assert forall j | 0 <= j < |created| :: more[j] == created[j];
    }
  }

  lemma AddedStep(rows: Rows, list: seq<Insertion>, j: nat, created: seq<Insertion>)
    requires j < |list|
    requires forall i | 0 <= i < |list| :: list[i].id !in rows
    requires forall i, m | 0 <= i < m < |list| :: list[i].id != list[m].id
    requires Added(rows, InsertAll(rows, list[..j]), created)
    ensures Added(rows, InsertAll(rows, list[..j + 1]),
      if Clashes(InsertAll(rows, list[..j]), list[j].doc) then created else created + [list[j]])
  {
    assert list[..j + 1][..j] == list[..j];
    NotYetInserted(rows, list, j);
    var mid := InsertAll(rows, list[..j]);
    assert InsertAll(rows, list[..j + 1]) == InsertRow(mid, list[j]);
    if !Clashes(mid, list[j].doc) {
      AddedOne(rows, mid, created, list[j]);
    }
  }

  lemma NotYetInserted(rows: Rows, list: seq<Insertion>, j: nat)
    requires j < |list|
    requires forall i | 0 <= i < |list| :: list[i].id !in rows
    requires forall i, m | 0 <= i < m < |list| :: list[i].id != list[m].id
    ensures list[j].id !in InsertAll(rows, list[..j])
  {
    InsertAllGrows(rows, list[..j]);
  }

  // ---------------------------------------------------------------- filling the answer

  /** The answers that are already given are right. */
  ghost predicate RightSoFar(rows: Rows, items: seq<NewRow>, slots: seq<Option<Slot>>)
    requires |slots| <= |items|
  {
    forall i | 0 <= i < |slots| && slots[i].Some? :: SlotRight(slots[i].value, rows, items, i)
  }

  /** Exactly the planned documents still wait for an answer. */
  predicate OpenSlots(slots: seq<Option<Slot>>, list: seq<Insertion>) {
    && (forall i | 0 <= i < |slots| && slots[i].None? :: Awaits(list, 0, i))
    && (forall j | 0 <= j < |list| :: list[j].index < |slots| && slots[list[j].index].None?)
  }

  /** Answers given before anything is inserted. */
  ghost predicate Drafted(
      rows: Rows, items: seq<NewRow>, slots: seq<Option<Slot>>, list: seq<Insertion>)
    requires |slots| <= |items|
  {
    Planned(rows, items, |slots|, list) && RightSoFar(rows, items, slots) && OpenSlots(slots, list)
  }

  predicate Awaits(list: seq<Insertion>, from: nat, i: nat) {
    exists j | from <= j < |list| :: list[j].index == i
  }

  lemma DraftAnswer(
      rows: Rows, items: seq<NewRow>, slots: seq<Option<Slot>>, list: seq<Insertion>, slot: Slot)
    requires |slots| < |items| && Drafted(rows, items, slots, list)
    requires Planned(rows, items, |slots| + 1, list)
    requires SlotRight(slot, rows, items, |slots|)
    ensures Drafted(rows, items, slots + [Some(slot)], list)
  {
  }

  lemma OneMoreOpen(slots: seq<Option<Slot>>, list: seq<Insertion>, ins: Insertion)
    requires OpenSlots(slots, list) && ins.index == |slots|
    ensures OpenSlots(slots + [None], list + [ins])
  {
    var more := list + [ins];
    assert more[|list|].index == |slots|;
    forall i | 0 <= i < |slots| && slots[i].None? ensures Awaits(more, 0, i) {
      var j :| 0 <= j < |list| && list[j].index == i;
      assert more[j].index == i;
    }
  }

  lemma DraftOpen(
      rows: Rows, items: seq<NewRow>, slots: seq<Option<Slot>>, list: seq<Insertion>, ins: Insertion)
    requires |slots| < |items| && Drafted(rows, items, slots, list)
    requires Planned(rows, items, |slots| + 1, list + [ins]) && ins.index == |slots|
    ensures Drafted(rows, items, slots + [None], list + [ins])
  {
    OneMoreOpen(slots, list, ins);
    assert RightSoFar(rows, items, slots + [None]);
  }

  /** While the batch is answered: documents before `j` have their slot. */
  ghost predicate Filling(
      rows: Rows, items: seq<NewRow>, list: seq<Insertion>, j: nat, slots: seq<Option<Slot>>)
  {
    && |slots| == |items|
    && (forall i | 0 <= i < |slots| && slots[i].Some? :: SlotRight(slots[i].value, rows, items, i))
    && (forall i | 0 <= i < |slots| && slots[i].None? :: Awaits(list, j, i))
  }

  lemma FillStep(rows: Rows, items: seq<NewRow>, list: seq<Insertion>, j: nat,
      slots: seq<Option<Slot>>, slot: Slot)
    requires j < |list| && list[j].index < |items| && Filling(rows, items, list, j, slots)
    requires SlotRight(slot, rows, items, list[j].index)
    ensures Filling(rows, items, list, j + 1, slots[list[j].index := Some(slot)])
  {
    var more := slots[list[j].index := Some(slot)];
    forall i | 0 <= i < |more| && more[i].None? ensures Awaits(list, j + 1, i) {
      assert slots[i].None?;
      var m :| j <= m < |list| && list[m].index == i;
      assert m != j;
    }
  }

  /** No slot is left empty. */
  lemma FilledUp(rows: Rows, items: seq<NewRow>, list: seq<Insertion>, slots: seq<Option<Slot>>)
    requires Filling(rows, items, list, |list|, slots)
    ensures forall i | 0 <= i < |items| :: slots[i].Some? && SlotRight(slots[i].value, rows, items, i)
  {
  }

  lemma CreatedRight(rows: Rows, items: seq<NewRow>, list: seq<Insertion>, j: nat)
    requires FreshItems(rows, items) && Planned(rows, items, |items|, list)
    requires j < |list| && !Clashes(InsertAll(rows, list[..j]), list[j].doc)
    ensures SlotRight(Slot(Created, Some(list[j].doc)), rows, items, list[j].index)
  {
    PlannedIsFresh(rows, items, |items|, list);
    ClashMeansSameClientRow(InsertAll(rows, list[..j]), list[j].doc);
  }

  function Outcomes(slots: seq<Slot>, o: Outcome): nat {
    if slots == [] then 0
    else Outcomes(slots[..|slots| - 1], o) + (if slots[|slots| - 1].outcome == o then 1 else 0)
  }

  /** Created, already existing and failed items add up to the items of the request. */
  lemma {:induction false} OutcomesAddUp(slots: seq<Slot>)
    ensures Outcomes(slots, Created) + Outcomes(slots, AlreadyExists) + Outcomes(slots, Failed) == |slots|
    decreases |slots|
  {
    if slots != [] { OutcomesAddUp(slots[..|slots| - 1]); }
  }
}
