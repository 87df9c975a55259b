/** Flushing memory tables: oldest first, with the transaction ids whose markers the table holds. */
module MemTables {
  import opened Keys
  import opened LittleEndian
  import opened Entries
  import opened SkipListHeap
  import opened VersionStore
  import opened Transactions
  import Spec = SkipListSpec

  const MAX_ID: nat := 0xFFFF_FFFF_FFFF_FFFF

  /** What a flush hands to the file builder. */
  datatype Flushed = Flushed(data: seq<Entry>, minId: nat, maxId: nat, ids: seq<nat>)

  /** `minId` and `maxId` bound the ids of `data` and are attained, or are the values the scan starts with. */
  ghost predicate Bounds(data: seq<Entry>, minId: nat, maxId: nat) {
    && (forall i :: 0 <= i < |data| ==> minId <= data[i].tid <= maxId)
    && (minId == MAX_ID || exists i :: 0 <= i < |data| && data[i].tid == minId)
    && (maxId == 0 || exists i :: 0 <= i < |data| && data[i].tid == maxId)
  }

  lemma {:induction false} MarkersStep(s: seq<Entry>, e: Entry)
    ensures Markers(s + [e]) == Markers(s) + if e.key == [] && e.value == [] then [e.tid] else []
  {
    if s == [] {
      assert s + [e] == [e];
    } else {
      MarkersStep(s[1..], e);
      assert (s + [e])[1..] == s[1..] + [e];
    }
  }

  /** The loop over the flushed data. */
  method Scan(data: seq<Entry>, before: seq<nat>) returns (minId: nat, maxId: nat, ids: seq<nat>)
    ensures ids == before + Markers(data) && Bounds(data, minId, maxId)
  {
    hide Markers, Bounds;
    minId, maxId, ids := MAX_ID, 0, before;
    NothingScanned(data);
    var i := 0;
    while i < |data|
      invariant 0 <= i <= |data|
      invariant ids == before + Markers(data[..i]) && Bounds(data[..i], minId, maxId)
    {
      var e := data[i];
      if e.key == [] && e.value == [] {
        ids := ids + [e.tid];
      }
      BoundsStep(data[..i], minId, maxId, e);
      MarkersStep(data[..i], e);
      assert data[..i] + [e] == data[..i + 1];
      maxId := if maxId < e.tid then e.tid else maxId;
      minId := if e.tid < minId then e.tid else minId;
      i := i + 1;
    }
    assert data[..i] == data;
  }

  lemma NothingScanned(data: seq<Entry>)
    ensures Bounds(data[..0], MAX_ID, 0) && Markers(data[..0]) == []
  {
  }

  lemma {:induction false} BoundsStep(s: seq<Entry>, minId: nat, maxId: nat, e: Entry)
    requires Bounds(s, minId, maxId)
    ensures Bounds(s + [e], if e.tid < minId then e.tid else minId, if maxId < e.tid then e.tid else maxId)
  {
    var r := s + [e];
    assert r[|s|] == e;
    if minId != MAX_ID {
      var i :| 0 <= i < |s| && s[i].tid == minId;
      assert r[i].tid == minId;
    }
    if maxId != 0 {
      var j :| 0 <= j < |s| && s[j].tid == maxId;
      assert r[j].tid == maxId;
    }
  }

  class MemTable {
    var current: SkipList
    var frozen: seq<SkipList>      // newest first
    var frozenBytes: nat

    /** Every table is well formed and the byte count of the frozen ones is kept, modulo 2^64. */
    ghost predicate Valid()
      reads *
    {
      && current.Valid() && (forall i :: 0 <= i < |frozen| ==> frozen[i].Valid())
      && frozenBytes == TotalSize(frozen) % TWO_64
    }

    constructor ()
      ensures Valid() && current.Contents() == [] && frozen == []
    {
      current := new SkipList(16);
      frozen, frozenBytes := [], 0;
    }

    /** With no frozen table, a current table whose size counter is not zero is frozen. */
    method FreezeIfLone() returns (any: bool)
      requires Valid()
      modifies this
      ensures Valid()
      ensures any <==> old(frozen) != [] || old(current).sizeBytes != 0
      ensures old(frozen) == [] ==> ((any <==> old(Contents(current)) != []) <==> old(TellsEmpty(current)))
      ensures !any || old(frozen) != [] ==>
                current == old(current) && frozen == old(frozen) && frozenBytes == old(frozenBytes)
      ensures any && old(frozen) == [] ==> frozen == [old(current)] && fresh(current) && Contents(current) == []
    {
      hide Linked, AtLevel, LevelList, Counts, Footprint, Distinct, NodesSorted, Sized, Stored;
      EmptinessTest(current);
      if frozen == [] {
        if current.sizeBytes == 0 {
          return false;
        }
        frozen := [current];
        frozenBytes := (frozenBytes + current.sizeBytes) % TWO_64;
        current := new SkipList(16);
      }
      any := true;
    }

    /** Takes the oldest frozen table off the list. */
    method PopOldest() returns (table: SkipList)
      requires Valid() && frozen != []
      modifies this
      ensures Valid() && current == old(current) && frozen == old(frozen)[..|old(frozen)| - 1]
      ensures table == old(frozen)[|old(frozen)| - 1] && table.Valid()
    {
      hide Linked, AtLevel, LevelList, Counts, Footprint, Distinct, NodesSorted, Sized, Stored;
      table := frozen[|frozen| - 1];
      RemoveSize(frozen, frozenBytes);
      frozen := frozen[..|frozen| - 1];
      frozenBytes := (frozenBytes - table.sizeBytes) % TWO_64;
    }

    /** Flushes the oldest table: the last frozen one, or the current one when none is frozen and its
        size counter is not zero. Ids of markers are appended to `before`. */
    method FlushLast(before: seq<nat>) returns (built: Option<Flushed>)
      requires Valid()
      modifies this
      ensures Valid()
      ensures built.None? <==> old(frozen) == [] && old(current).sizeBytes == 0
      ensures built.None? ==> current == old(current) && frozen == old(frozen) && frozenBytes == old(frozenBytes)
      ensures old(frozen) == [] ==>
                ((built.None? <==> old(Contents(current)) == []) <==> old(TellsEmpty(current)))
      ensures built.Some? && old(frozen) != [] ==>
                && current == old(current) && frozen == old(frozen)[..|old(frozen)| - 1]
                && built.value.data == old(Contents(frozen[|frozen| - 1]))
      ensures built.Some? && old(frozen) == [] ==>
                && fresh(current) && Contents(current) == [] && frozen == []
                && built.value.data == old(Contents(current))
      ensures built.Some? ==> built.value.ids == before + Markers(built.value.data)
      ensures built.Some? ==> Bounds(built.value.data, built.value.minId, built.value.maxId)
    {
      hide Markers, Bounds, Linked, AtLevel, LevelList, Counts, Footprint, Distinct, NodesSorted, Sized, Stored,
           TotalSize, TellsEmpty;
      var any := FreezeIfLone();
      if !any {
        return None;
      }
      var table := PopOldest();
      var flushed := Emit(table, before);
      built := Some(flushed);
    }
  }

  method Emit(table: SkipList, before: seq<nat>) returns (f: Flushed)
    requires table.Valid()
    ensures f.data == Contents(table) && f.ids == before + Markers(f.data) && Bounds(f.data, f.minId, f.maxId)
  {
    var data := table.Flush();
    var minId, maxId, ids := Scan(data, before);
    f := Flushed(data, minId, maxId, ids);
  }

  /** The table's size counter can be trusted as a test for emptiness. */
  ghost predicate TellsEmpty(t: SkipList)
    reads t, t.repr
    requires t.Valid()
  {
    if t.Contents() == [] then t.overwritten % TWO_64 == 0
    else t.overwritten % TWO_64 != Footprint(t.Contents()) % TWO_64
  }

  /** With nothing frozen, `flush_last` skips exactly the empty tables if and only if this holds. */
  lemma {:induction false} EmptinessTest(t: SkipList)
    requires t.Valid()
    ensures (t.sizeBytes == 0 <==> t.Contents() == []) <==> TellsEmpty(t)
  {
    hide Linked, AtLevel, LevelList, Distinct, NodesSorted, Sized, Stored, Footprint, Counts;
    ZeroMeansEmptyIff(t.sizeBytes, t.Contents(), t.overwritten);
  }

  ghost function Contents(t: SkipList): seq<Entry>
    reads t, t.repr
    requires t.Valid()
  {
    t.Contents()
  }

  ghost function TotalSize(tables: seq<SkipList>): nat
    reads tables
  {
    if tables == [] then 0 else TotalSize(tables[..|tables| - 1]) + tables[|tables| - 1].sizeBytes
  }

  lemma RemoveSize(tables: seq<SkipList>, bytes: nat)
    requires tables != [] && bytes == TotalSize(tables) % TWO_64
    ensures (bytes - tables[|tables| - 1].sizeBytes) % TWO_64 == TotalSize(tables[..|tables| - 1]) % TWO_64
  {
    var n, last := TotalSize(tables), tables[|tables| - 1].sizeBytes;
    var q := n / TWO_64;
    assert n - last == (bytes - last) + q * TWO_64;
    ModShift(bytes - last, q);
  }

  /** Three writes of the same version leave one entry and a counter of zero. */
  method LooksEmpty() returns (table: SkipList)
    ensures table.Valid() && table.Contents() != [] && table.sizeBytes == 0
  {
    hide Linked, AtLevel, LevelList, Distinct, NodesSorted, Sized, Stored;
    var e := Entry([1], [0, 0, 0, 0, 0, 0, 0, 0, 0], 1);
    table := new SkipList(16);
    table.Put(e.key, e.value, 1);
    PutAgain(e, []);
    table.Put(e.key, e.value, 1);
    table.Put(e.key, e.value, 1);
    assert Footprint([e]) == 18;
  }

  /** Overwriting a version and removing it leaves an empty table whose counter has wrapped around. */
  method LooksFull() returns (table: SkipList)
    ensures table.Valid() && table.Contents() == [] && table.sizeBytes != 0
  {
    hide Linked, AtLevel, LevelList, Distinct, NodesSorted, Sized, Stored;
    var e := Entry([1], [0], 1);
    table := new SkipList(16);
    table.Put(e.key, e.value, 1);
    PutAgain(e, []);
    table.Put(e.key, e.value, 1);
    table.Remove(e.key);
    assert [e][..0] + [e][1..] == [];
    assert Footprint([]) == 0;
  }

  lemma PutAgain(e: Entry, none: seq<Entry>)
    requires none == []
    ensures Spec.Put(none, e) == [e] && !Spec.Overwrites(none, e.key, e.tid)
    ensures Spec.Put([e], e) == [e] && Spec.Overwrites([e], e.key, e.tid) && Spec.Remove([e], e.key) == []
  {
    KeyTrichotomy(e.key, e.key);
    assert Spec.Bound([e], e.key) == 0;
  }
}
