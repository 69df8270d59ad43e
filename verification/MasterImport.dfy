/** `commit_master_import`: prefetching known serials saves inserts that the unique
    index would refuse anyway, and changes nothing else. */
module MasterImport {
  import opened Mongo

  /** A valid staged row: its serial, if any, and everything else it stores apart from
      the upload id and the time stamps. */
  datatype SheetRow = SheetRow(serial: Option<int>, content: int)

  /** Rows covered by the (master_import_source, master_serial) index, and the others. */
  datatype Ledger = Ledger(keyed: map<(string, int), int>, loose: seq<int>)

  predicate Refused(s: Ledger, source: string, r: SheetRow) {
    r.serial.Some? && (source, r.serial.value) in s.keyed
  }

  function Store(s: Ledger, source: string, r: SheetRow): Ledger {
    if r.serial.None? then s.(loose := s.loose + [r.content])
    else if Refused(s, source, r) then s
    else s.(keyed := s.keyed[(source, r.serial.value) := r.content])
  }

  /** The rows stored one at a time. */
  function StoreAll(s: Ledger, source: string, rows: seq<SheetRow>): Ledger {
    if rows == [] then s
    else Store(StoreAll(s, source, rows[..|rows| - 1]), source, rows[|rows| - 1])
  }

  function Accepted(s: Ledger, source: string, rows: seq<SheetRow>): nat {
    if rows == [] then 0
    else
      var rest, last := rows[..|rows| - 1], rows[|rows| - 1];
      Accepted(s, source, rest) + (if Refused(StoreAll(s, source, rest), source, last) then 0 else 1)
  }

  lemma Append(s: Ledger, source: string, rows: seq<SheetRow>, r: SheetRow)
    ensures StoreAll(s, source, rows + [r]) == Store(StoreAll(s, source, rows), source, r)
    ensures Accepted(s, source, rows + [r]) ==
      Accepted(s, source, rows) + (if Refused(StoreAll(s, source, rows), source, r) then 0 else 1)
  {
    assert (rows + [r])[..|rows|] == rows;
  }

  /** Stored serials stay stored, each with the content that came first. */
  lemma {:induction false} KeepsSerials(s: Ledger, source: string, rows: seq<SheetRow>, key: (string, int))
    requires key in s.keyed
    ensures key in StoreAll(s, source, rows).keyed && StoreAll(s, source, rows).keyed[key] == s.keyed[key]
    decreases |rows|
  {
    if rows != [] { KeepsSerials(s, source, rows[..|rows| - 1], key); }
  }

  /** What is stored for a serial afterwards, without mentioning the order of inserts:
      the old row, or the first sheet row that carries the serial. */
  lemma {:induction false} FirstCopyWins(s: Ledger, source: string, rows: seq<SheetRow>, i: nat)
    requires i < |rows| && rows[i].serial.Some?
    requires (source, rows[i].serial.value) !in s.keyed
    requires forall j | 0 <= j < i :: rows[j].serial != rows[i].serial
    ensures var key := (source, rows[i].serial.value);
      key in StoreAll(s, source, rows).keyed && StoreAll(s, source, rows).keyed[key] == rows[i].content
    decreases |rows|
  {
    var rest := rows[..|rows| - 1];
    if i < |rest| {
      FirstCopyWins(s, source, rest, i);
    } else {
      NotStoredBefore(s, source, rest, rows[i].serial.value);
    }
  }

  lemma {:induction false} NotStoredBefore(s: Ledger, source: string, rows: seq<SheetRow>, serial: int)
    requires (source, serial) !in s.keyed
    requires forall j | 0 <= j < |rows| :: rows[j].serial != Some(serial)
    ensures (source, serial) !in StoreAll(s, source, rows).keyed
    decreases |rows|
  {
    if rows != [] { NotStoredBefore(s, source, rows[..|rows| - 1], serial); }
  }

  // ---------------------------------------------------------------- what a sheet leaves

  /** The rows without a serial among the first `m`. */
  function LooseUpTo(rows: seq<SheetRow>, m: nat): set<int>
    requires m <= |rows|
  {
    set i | 0 <= i < m && rows[i].serial.None?
  }

  /** The serials of the first `m` rows. */
  function SerialsUpTo(rows: seq<SheetRow>, m: nat): set<int>
    requires m <= |rows|
  {
    set i | 0 <= i < m && rows[i].serial.Some? :: rows[i].serial.value
  }

  /** Row `i`, which has no serial, is stored at the place it has among such rows. */
  predicate LooseAt(loose: seq<int>, from: nat, rows: seq<SheetRow>, i: nat)
    requires i < |rows|
  {
    var j := from + |LooseUpTo(rows, i)|; j < |loose| && loose[j] == rows[i].content
  }

  lemma LooseNext(rows: seq<SheetRow>, m: nat)
    requires m < |rows|
    ensures |LooseUpTo(rows, m + 1)| == |LooseUpTo(rows, m)| + (if rows[m].serial.None? then 1 else 0)
  {
    assert LooseUpTo(rows, m + 1) == LooseUpTo(rows, m) + if rows[m].serial.None? then {m} else {};
  }

  lemma LooseMonotone(rows: seq<SheetRow>, i: nat, m: nat)
    requires i < m <= |rows| && rows[i].serial.None?
    ensures |LooseUpTo(rows, i)| < |LooseUpTo(rows, m)|
    decreases m
  {
    LooseNext(rows, m - 1);
    if i < m - 1 { LooseMonotone(rows, i, m - 1); }
  }

  /** Every row without a serial is stored, whatever is stored already, behind the old
      ones and in the order of the sheet; nothing else is added there. */
  lemma {:induction false} LooseRowsAreStored(s: Ledger, source: string, rows: seq<SheetRow>, m: nat)
    requires m <= |rows|
    ensures var after := StoreAll(s, source, rows[..m]).loose;
      && s.loose <= after && |after| == |s.loose| + |LooseUpTo(rows, m)|
      && forall i | 0 <= i < m && rows[i].serial.None? :: LooseAt(after, |s.loose|, rows, i)
    decreases m
  {
    if m > 0 {
      LooseRowsAreStored(s, source, rows, m - 1);
      assert rows[..m] == rows[..m - 1] + [rows[m - 1]];
      Append(s, source, rows[..m - 1], rows[m - 1]);
      LooseNext(rows, m - 1);
      forall i | 0 <= i < m - 1 && rows[i].serial.None? ensures |LooseUpTo(rows, i)| < |LooseUpTo(rows, m - 1)| {
        LooseMonotone(rows, i, m - 1);
      }
    }
  }

  /** Under a serial something is stored exactly when there was, or when the sheet has a
      row with it and is imported for that source. */
  lemma {:induction false} StoredSerials(s: Ledger, source: string, rows: seq<SheetRow>, m: nat, key: (string, int))
    requires m <= |rows|
    ensures key in StoreAll(s, source, rows[..m]).keyed <==>
      key in s.keyed || (key.0 == source && key.1 in SerialsUpTo(rows, m))
    decreases m
  {
    if m > 0 {
      StoredSerials(s, source, rows, m - 1, key);
      assert rows[..m] == rows[..m - 1] + [rows[m - 1]];
      Append(s, source, rows[..m - 1], rows[m - 1]);
      SerialsNext(rows, m - 1);
    }
  }

  lemma SerialsNext(rows: seq<SheetRow>, m: nat)
    requires m < |rows|
    ensures SerialsUpTo(rows, m + 1) ==
      SerialsUpTo(rows, m) + if rows[m].serial.Some? then {rows[m].serial.value} else {}
  {
  }

  function NewSerials(s: Ledger, source: string, serials: set<int>): set<int> {
    set n | n in serials && (source, n) !in s.keyed
  }

  lemma NewSerialsNext(s: Ledger, source: string, serials: set<int>, n: int)
    ensures |NewSerials(s, source, serials + {n})| ==
      |NewSerials(s, source, serials)| + (if n in serials || (source, n) in s.keyed then 0 else 1)
  {
    var was, now := NewSerials(s, source, serials), NewSerials(s, source, serials + {n});
    if n in serials || (source, n) in s.keyed { assert now == was; } else { assert now == was + {n}; }
  }

  /** As many rows are inserted as have no serial, and as there are serials that were not
      stored for the source. */
  lemma {:induction false} InsertedIs(s: Ledger, source: string, rows: seq<SheetRow>, m: nat)
    requires m <= |rows|
    ensures Accepted(s, source, rows[..m]) ==
      |LooseUpTo(rows, m)| + |NewSerials(s, source, SerialsUpTo(rows, m))|
    decreases m
  {
    if m == 0 {
      assert LooseUpTo(rows, 0) == {} && NewSerials(s, source, SerialsUpTo(rows, 0)) == {};
    } else {
      var r := rows[m - 1];
      InsertedIs(s, source, rows, m - 1);
      assert rows[..m] == rows[..m - 1] + [r];
      Append(s, source, rows[..m - 1], r);
      LooseNext(rows, m - 1);
      SerialsNext(rows, m - 1);
      if r.serial.Some? {
        NewSerialsNext(s, source, SerialsUpTo(rows, m - 1), r.serial.value);
        StoredSerials(s, source, rows, m - 1, (source, r.serial.value));
      } else {
        assert SerialsUpTo(rows, m) == SerialsUpTo(rows, m - 1);
      }
    }
  }

  class MasterImporter {
    var ledger: Ledger

    constructor (s: Ledger)
      ensures ledger == s
    {
      ledger := s;
    }

    /** `insert_many_idempotent`. */
    method InsertMany(source: string, batch: seq<SheetRow>) returns (inserted: nat, dupes: nat)
      modifies this
      ensures ledger == StoreAll(old(ledger), source, batch)
      ensures inserted == Accepted(old(ledger), source, batch) && inserted + dupes == |batch|
    {
      ghost var was := ledger;
      inserted, dupes := 0, 0;
      for i := 0 to |batch|
        invariant ledger == StoreAll(was, source, batch[..i])
        invariant inserted == Accepted(was, source, batch[..i]) && inserted + dupes == i
      {
        assert batch[..i + 1] == batch[..i] + [batch[i]];
        Append(was, source, batch[..i], batch[i]);
        var r := batch[i];
        if r.serial.None? {
          ledger, inserted := ledger.(loose := ledger.loose + [r.content]), inserted + 1;
        } else if (source, r.serial.value) in ledger.keyed {
          dupes := dupes + 1;
        } else {
          ledger := ledger.(keyed := ledger.keyed[(source, r.serial.value) := r.content]);
          inserted := inserted + 1;
        }
      }
      assert batch[..|batch|] == batch;
    }

    /** The serials of the sheet that are already stored for this source. */
    method Prefetch(source: string, rows: seq<SheetRow>) returns (existing: set<int>)
      ensures forall serial | serial in existing :: (source, serial) in ledger.keyed
      ensures forall i | 0 <= i < |rows| && Refused(ledger, source, rows[i]) :: rows[i].serial.value in existing
    {
      existing := {};
      for i := 0 to |rows|
        invariant forall serial | serial in existing :: (source, serial) in ledger.keyed
        invariant forall j | 0 <= j < i && Refused(ledger, source, rows[j]) :: rows[j].serial.value in existing
      {
        if rows[i].serial.Some? && (source, rows[i].serial.value) in ledger.keyed {
          existing := existing + {rows[i].serial.value};
        }
      }
    }

    /** With or without the prefetch the same rows are stored and the same numbers are
        reported: both are those of storing the sheet one row at a time. */
    method Commit(source: string, rows: seq<SheetRow>, skipDuplicates: bool, size: nat)
      returns (inserted: nat, duplicates: nat)
      requires size > 0
      modifies this
      ensures ledger == StoreAll(old(ledger), source, rows)
      ensures inserted == Accepted(old(ledger), source, rows)
      ensures inserted + duplicates == |rows|
    {
      ghost var was := ledger;
      inserted, duplicates := 0, 0;
      var existing: set<int> := {};
      if skipDuplicates { existing := Prefetch(source, rows); }
      var batch: seq<SheetRow> := [];
      for i := 0 to |rows|
        invariant forall serial | serial in existing :: (source, serial) in was.keyed
        invariant StoreAll(ledger, source, batch) == StoreAll(was, source, rows[..i])
        invariant inserted + Accepted(ledger, source, batch) == Accepted(was, source, rows[..i])
        invariant inserted + duplicates + |batch| == i
      {
        assert rows[..i + 1] == rows[..i] + [rows[i]];
        Append(was, source, rows[..i], rows[i]);
        if rows[i].serial.Some? && rows[i].serial.value in existing {
          KeepsSerials(was, source, rows[..i], (source, rows[i].serial.value));
          duplicates := duplicates + 1;
          continue;
        }
        Append(ledger, source, batch, rows[i]);
        batch := batch + [rows[i]];
        if |batch| >= size {
          var n, d := InsertMany(source, batch);
          inserted, duplicates, batch := inserted + n, duplicates + d, [];
        }
      }
      if batch != [] {
        var n, d := InsertMany(source, batch);
        inserted, duplicates := inserted + n, duplicates + d;
      }
      assert rows[..|rows|] == rows;
    }
  }
}
