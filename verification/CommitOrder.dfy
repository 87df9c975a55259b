/** When every writer checks for conflicts, the versions of a key reach the store in the order of
    their ids, in every run. */
module CommitOrder {
  import opened Keys
  import opened Entries
  import opened IdSets
  import opened WalRecords
  import opened VersionStore
  import opened Checkpoint
  import opened Transactions
  import opened TransactionRuns
  import opened CheckpointSafety
  import Sl = SkipListSpec

  /** Whoever has written is a transaction that checks for conflicts. */
  ghost predicate CheckedWriters(s: State) {
    && s.plain == {}
    && forall id :: id in s.trans && Writes(s.trans[id]) != map[] ==> Checks(s.trans[id].level)
  }

  /** A commit lands whole in one table. */
  ghost predicate Whole(s: Store) {
    forall i, e :: At(s, i, e) ==> At(s, i, Marker(e.tid))
  }

  ghost predicate FilesBelow(s: Store, max: nat) {
    forall i, e :: At(s, i, e) && i >= s.mem ==> e.tid <= max
  }

  /** Newer versions always lie above older ones, across all tables. */
  ghost predicate InOrder(s: Store) {
    forall k: Key :: k != [] ==> Descending(Stack(s.tables, k))
  }

  ghost predicate Orderly(s: State)
    requires s.man.flushed != {}
  {
    Whole(s.store) && FilesBelow(s.store, Max(s.man.flushed)) && InOrder(s.store)
  }

  // ---- the stack of a key under a commit -------------------------------------------------------------

  lemma {:induction false} WriteAllStacks(table: seq<Entry>, order: seq<Key>, temp: map<Key, Value>, id: nat, k: Key)
    requires KeySorted(table) && forall x :: x in order ==> x in temp
    ensures KeySorted(WriteAll(table, order, temp, id))
    ensures Versions(WriteAll(table, order, temp, id), k) ==
            if k in order then Sl.PutStack(Versions(table, k), Entry(k, temp[k], id)) else Versions(table, k)
  {
    hide Versions, KeySorted, Sl.Put;
    if order != [] {
      var most, x := order[..|order| - 1], order[|order| - 1];
      assert order == most + [x];
      WriteAllStacks(table, most, temp, id, k);
      Sl.PutRefines(WriteAll(table, most, temp, id), Entry(x, temp[x], id), k);
    }
  }

  lemma {:induction false} CommitTop(t: Tran, s: Store, order: seq<Key>, testFail: bool, k: Key)
    requires Shaped(s) && Orders(order, t.temp.Keys) && k != [] && Silent(s, t.id)
    requires !Buffers(t.level) ==> t.temp == map[]
    ensures var top := Versions(s.tables[0], k);
            Versions(CommitStore(t, s, order, testFail).tables[0], k) ==
            if k in t.temp && !testFail then [Entry(k, t.temp[k], t.id)] + top else top
  {
    hide Versions, KeySorted, Sl.Put, WriteAll;
    var table := s.tables[0];
    var all := if Buffers(t.level) && !testFail then WriteAll(table, order, t.temp, t.id) else table;
    WriteAllStacks(table, order, t.temp, t.id, k);
    Sl.PutRefines(all, Marker(t.id), k);
    var st := Versions(table, k);
    if st != [] {
      VersionsMembers(table, k, st[0]);
      assert At(s, 0, st[0]);
    }
  }

  /** Only the current table's stack changes; below it everything stays. */
  lemma {:induction false} CommitStack(t: Tran, s: Store, order: seq<Key>, testFail: bool, k: Key)
    requires Shaped(s) && Orders(order, t.temp.Keys) && k != [] && Silent(s, t.id)
    requires !Buffers(t.level) ==> t.temp == map[]
    ensures var now := CommitStore(t, s, order, testFail);
            Stack(now.tables, k) ==
            if k in t.temp && !testFail then [Entry(k, t.temp[k], t.id)] + Stack(s.tables, k) else Stack(s.tables, k)
  {
    hide Versions, KeySorted, Stack, Sl.Put, WriteAll, Silent;
    var now := CommitStore(t, s, order, testFail);
    CommitTop(t, s, order, testFail, k);
    assert now.tables[1..] == s.tables[1..];
    StackStep(s.tables, k);
    StackStep(now.tables, k);
    if k in t.temp && !testFail {
      PushedOn(Entry(k, t.temp[k], t.id), Versions(s.tables[0], k), Stack(s.tables[1..], k));
    }
  }

  lemma StackStep(tables: seq<seq<Entry>>, k: Key)
    requires tables != []
    ensures Stack(tables, k) == Versions(tables[0], k) + Stack(tables[1..], k)
  {
  }

  lemma PushedOn(e: Entry, top: seq<Entry>, rest: seq<Entry>)
    ensures ([e] + top) + rest == [e] + (top + rest)
  {
  }

  /** Without a conflict on `k`, every version of `k` in the store is older than the transaction. */
  lemma {:induction false} NoConflictIsNewest(t: Tran, s: Store, m: Manager, k: Key)
    requires Shaped(s) && m.flushed != {} && Silent(s, t.id) && FilesBelow(s, Max(m.flushed))
    requires Descending(Stack(s.tables, k)) && !Conflict(t, s, m, k)
    ensures forall e :: e in Stack(s.tables, k) ==> e.tid < t.id
  {
    hide Versions, KeySorted, Stack, MemGet;
    var a, b := s.tables[..s.mem], s.tables[s.mem..];
    assert s.tables == a + b;
    StackConcat(a, b, k);
    DescendingParts(Stack(a, k), Stack(b, k));
    MemGetLatest(a, k);
    SstGetIsFirstVisible(b, k, 0);
    forall e | e in Stack(s.tables, k) ensures e.tid < t.id {
      StackMembers(s.tables, k, e);
      NotMine(s, t.id, e);
      if Stack(a, k) != [] {
        TopIsNewest(Stack(a, k) + Stack(b, k), e);
      } else if Max(m.flushed) > t.id {
        TopIsNewest(Stack(b, k), e);
      } else {
        InFilesBelow(s, Max(m.flushed), k, e);
      }
    }
  }

  lemma NotMine(s: Store, id: nat, e: Entry)
    requires Silent(s, id) && Somewhere(s.tables, e)
    ensures e.tid != id
  {
    var n :| 0 <= n < |s.tables| && e in s.tables[n];
    assert At(s, n, e);
  }

  lemma InFilesBelow(s: Store, max: nat, k: Key, e: Entry)
    requires s.mem <= |s.tables| && FilesBelow(s, max) && e in Stack(s.tables[s.mem..], k)
    ensures e.tid <= max
  {
    var b := s.tables[s.mem..];
    StackMembers(b, k, e);
    var i :| 0 <= i < |b| && e in b[i];
    assert At(s, s.mem + i, e);
  }

  /** And a conflict is one: some stored version of the key is newer than the transaction. */
  lemma {:induction false} ConflictIsNewer(t: Tran, s: Store, m: Manager, k: Key)
    requires Shaped(s) && m.flushed != {} && Conflict(t, s, m, k)
    ensures exists e :: e in Stack(s.tables, k) && e.tid > t.id
  {
    hide KeySorted, Stack, MemGet, SstGet;
    var a, b := s.tables[..s.mem], s.tables[s.mem..];
    assert s.tables == a + b;
    StackConcat(a, b, k);
    MemGetLatest(a, k);
    SstGetIsFirstVisible(b, k, 0);
    var top, low := MemGet(a, k, 0), SstGet(b, k, 0);
    if top.Some? && top.value.tid > t.id {
      assert top.value in Stack(s.tables, k);
    } else {
      assert low.value in Stack(s.tables, k);
    }
  }

  /** In every run with checked writers: a transaction that checks may commit if and only if no key it wrote has
      a version newer than its id; one that does not check always may. */
  lemma {:induction false} MayCommitIff(steps: seq<Step>, id: nat)
    requires CheckedWriters(After(steps)) && Running(After(steps), id)
    ensures var s := After(steps);
            MayCommit(s.trans[id], s.store, s.man) <==>
            (Checks(s.trans[id].level) ==>
               forall k, e :: k in Writes(s.trans[id]) && e in Stack(s.store.tables, k) ==> e.tid <= id)
  {
    hide Do, Fold, KeySorted, Conflict, Stack, Pending, Marked, Descending, CheckedWriters;
    var s := After(steps);
    var t := s.trans[id];
    RunsOrderly(steps);
    assert Logged(t) && t.id == id;
    RunningIsUnmarked(s, id);
    if Checks(t.level) {
      forall k | k in t.temp
        ensures Conflict(t, s.store, s.man, k) <==> exists e :: e in Stack(s.store.tables, k) && e.tid > id
      {
        if Conflict(t, s.store, s.man, k) {
          ConflictIsNewer(t, s.store, s.man, k);
        } else {
          NoConflictIsNewest(t, s.store, s.man, k);
        }
      }
    }
  }

  lemma TopIsNewest(st: seq<Entry>, e: Entry)
    requires Descending(st) && e in st
    ensures e.tid <= st[0].tid && FirstVisible(st, 0) == Some(st[0])
  {
    var i :| 0 <= i < |st| && st[i] == e;
  }

  lemma {:induction false} CommitInOrder(s: State, id: nat, order: seq<Key>, testFail: bool)
    requires Kept(s) && Settles(s) && Orderly(s) && CheckedWriters(s) && Enabled(s, Commit(id, order, testFail))
    requires MayCommit(s.trans[id], s.store, s.man)
    ensures InOrder(CommitStore(s.trans[id], s.store, order, testFail))
  {
    hide KeySorted, Sound, Fold, Marked, Versions, Stack, WriteAll, Conflict, Descending;
    var t := s.trans[id];
    RunningIsUnmarked(s, id);
    forall k: Key | k != [] ensures Descending(Stack(CommitStore(t, s.store, order, testFail).tables, k)) {
      CommitStack(t, s.store, order, testFail, k);
      if k in t.temp && !testFail {
        NoConflictIsNewest(t, s.store, s.man, k);
        PushKeepsOrder(Entry(k, t.temp[k], id), Stack(s.store.tables, k));
      }
    }
  }

  /** A commit at any buffering level keeps the versions in order if and only if no key it writes has
      a newer version already; the levels that do not check commit regardless. */
  lemma {:induction false} CommitKeepsOrderIff(s: State, id: nat, order: seq<Key>)
    requires Kept(s) && Settles(s) && InOrder(s.store) && Enabled(s, Commit(id, order, false))
    requires Buffers(s.trans[id].level)
    ensures InOrder(CommitStore(s.trans[id], s.store, order, false)) <==>
            forall k, e :: k in s.trans[id].temp && e in Stack(s.store.tables, k) ==> e.tid < id
  {
    hide KeySorted, Sound, Fold, Marked, Versions, Stack, WriteAll, Descending;
    var t := s.trans[id];
    var now := CommitStore(t, s.store, order, false);
    RunningIsUnmarked(s, id);
    assert Logged(t);
    forall k: Key | k != []
      ensures Descending(Stack(now.tables, k)) <==>
              (k in t.temp ==> forall e :: e in Stack(s.store.tables, k) ==> e.tid < id)
    {
      CommitStack(t, s.store, order, false, k);
      if k in t.temp {
        PushIff(Entry(k, t.temp[k], id), Stack(s.store.tables, k));
      }
    }
  }

  lemma PushIff(e: Entry, st: seq<Entry>)
    requires Descending(st)
    ensures Descending([e] + st) <==> forall x :: x in st ==> x.tid < e.tid
  {
    if Descending([e] + st) {
      HeadIsNewest(e, st);
    }
  }

  lemma PushKeepsOrder(e: Entry, st: seq<Entry>)
    requires Descending(st) && forall x :: x in st ==> x.tid < e.tid
    ensures Descending([e] + st)
  {
  }

  lemma {:induction false} CommitWhole(s: State, id: nat, order: seq<Key>, testFail: bool)
    requires Kept(s) && Settles(s) && CheckedWriters(s) && Enabled(s, Commit(id, order, testFail))
    requires Whole(s.store) && FilesBelow(s.store, Max(s.man.flushed))
    ensures var now := CommitStore(s.trans[id], s.store, order, testFail);
            Whole(now) && FilesBelow(now, Max(s.man.flushed))
  {
    hide KeySorted, Sound, Fold, Marked, WriteAll, Write;
    var t := s.trans[id];
    var now := CommitStore(t, s.store, order, testFail);
    RunningIsUnmarked(s, id);
    if !Buffers(t.level) {
      WriteAdds(s.store, Marker(id));
    } else {
      CommitAdds(t, s.store, order);
    }
    forall i, e | At(now, i, e) ensures At(now, i, Marker(e.tid)) && (i >= now.mem ==> e.tid <= Max(s.man.flushed)) {
      if now != s.store {
        AddsAt(s.store, now, id, i, e);
        AddsAt(s.store, now, id, i, Marker(e.tid));
      }
    }
  }

  lemma {:induction false} FreezeOrderly(s: Store, max: nat)
    requires Whole(s) && FilesBelow(s, max) && InOrder(s)
    ensures Whole(Freeze(s)) && FilesBelow(Freeze(s), max) && InOrder(Freeze(s))
  {
    hide At, Descending;
    forall i, e ensures At(Freeze(s), i, e) <==> At(s, i - 1, e) { FreezeAt(s, i, e); }
    forall k: Key | k != [] ensures Descending(Stack(Freeze(s).tables, k)) {
      assert Freeze(s).tables[1..] == s.tables;
      assert Versions([], k) + Stack(s.tables, k) == Stack(s.tables, k);
    }
  }

  /** A flush reports every id of the table it writes, so the greatest flushed id covers the file. */
  lemma {:induction false} FlushOrderly(s: State)
    requires Kept(s) && Settles(s) && Orderly(s) && s.plain == {}
    ensures Do(s, Flush).man.flushed != {} && Orderly(Do(s, Flush))
  {
    hide Fold, KeySorted, Marked, Markers, AddAllFlushed, Stack, Descending, Logged;
    FreezeOrderly(s.store, Max(s.man.flushed));
    var from := if s.store.mem == 1 then Freeze(s.store) else s.store;
    var f := FlushOldest(s.store);
    assert f == from.(mem := from.mem - 1);
    var ids := Markers(f.tables[f.mem]);
    AddAllFlushedMeaning(s.man, ids);
    var max := Max(AddAllFlushed(s.man, ids).flushed);
    forall i, e ensures At(f, i, e) <==> At(from, i, e) {}
    forall i, e | At(f, i, e) && i >= f.mem ensures e.tid <= max {
      if i == f.mem {
        assert At(from, i, Marker(e.tid)) && i < from.mem;
        MarkersMember(f.tables[f.mem], e.tid);
        MarkerIsReady(s, from, e.tid, i);
      }
    }
  }

  /** A marker in memory belongs to a committed transaction that is still to be reported. */
  lemma {:induction false} MarkerIsReady(s: State, from: Store, id: nat, i: int)
    requires Kept(s) && Settles(s) && s.plain == {} && (from == s.store || from == Freeze(s.store))
    requires At(from, i, Marker(id)) && i < from.mem
    ensures id in s.man.ready && s.man.ready[id].Committed?
  {
    hide Fold, KeySorted, Pending, At;
    FreezeAt(s.store, i, Marker(id));
    assert Known(s, Marker(id).tid);
    assert MarkedFor(s, id);
    var t := s.trans[id];
    FreezeHolds(s.store, t, id in s.man.ready);
    assert Marked(from, t, id in s.man.ready);
    assert OwnedBy(t, Marker(id));
  }

  lemma {:induction false} NothingToUndo(s: State, id: nat)
    requires Kept(s) && CheckedWriters(s) && id in s.trans
    ensures s.trans[id].rollback == map[]
  {
    hide Fold, KeySorted, Sound, Pending;
    var t := s.trans[id];
    assert Logged(t);
    if !Buffers(t.level) {
      assert t.rollback.Keys == {};
    }
  }

  lemma {:induction false} WriterBuffers(s: State, id: nat, r: Record)
    requires Kept(s) && Running(s, id) && IsWrite(r, id) && CheckedWriters(DoChange(s, id, r))
    ensures Buffers(s.trans[id].level)
  {
    hide Fold, KeySorted, Sound, Pending, EngineGet, Write;
    LoggedChange(s.trans[id], s.store, r);
    assert r.key in Writes(ChangeTran(s.trans[id], s.store, r));
    assert DoChange(s, id, r).trans[id] == ChangeTran(s.trans[id], s.store, r);
  }

  lemma {:induction false} StepOrderly(s: State, step: Step)
    requires Kept(s) && Settles(s) && Orderly(s) && CheckedWriters(s)
    requires CheckedWriters(Do(s, step))
    ensures Do(s, step).man.flushed != {} && Orderly(Do(s, step))
  {
    hide Pending, Logged, KeySorted, Marked, Whole, FilesBelow, InOrder, DoFlush, CommitStore, MayCommit, GetTran,
         WriteBatch, Fold;
    if Enabled(s, step) {
      match step
      case Begin(level) =>
      case SkipId =>
      case PlainWrite(batch) =>
      case LogFails(id) =>
      case Put(id, k, v) => WriterBuffers(s, id, PutRecord(id, k, v));
      case Remove(id, k) => WriterBuffers(s, id, DeleteRecord(id, k));
      case Get(id, k) =>
      case Commit(id, order, testFail) =>
        if MayCommit(s.trans[id], s.store, s.man) {
          CommitInOrder(s, id, order, testFail);
          CommitWhole(s, id, order, testFail);
        }
      case Abort(id, order) =>
        NothingToUndo(s, id);
        OrdersNothing(order, s.trans[id].rollback.Keys);
      case FreezeTable => FreezeOrderly(s.store, Max(s.man.flushed));
      case Flush => FlushOrderly(s);
    }
  }

  /** Writes are never forgotten, so a condition on the writers of a state binds every earlier one. */
  lemma {:induction false} CheckedBefore(s: State, step: Step)
    requires Kept(s) && CheckedWriters(Do(s, step))
    ensures CheckedWriters(s)
  {
    hide Do, Kept, Fold, Ready;
    PlainGrows(s, step);
    forall id | id in s.trans && Writes(s.trans[id]) != map[] ensures Checks(s.trans[id].level) {
      WritesStay(s, step, id);
    }
  }

  lemma PlainGrows(s: State, step: Step)
    requires Kept(s)
    ensures s.plain <= Do(s, step).plain
  {
    hide Pending, Logged, KeySorted, AddAllFlushed, CommitStore, MayCommit, Write, Rollback, EngineGet, Markers,
         Fold, WriteBatch;
  }

  lemma {:induction false} WritesStay(s: State, step: Step, id: nat)
    requires Kept(s) && id in s.trans
    ensures var now := Do(s, step).trans;
            && id in now && now[id].level == s.trans[id].level
            && Writes(s.trans[id]).Keys <= Writes(now[id]).Keys
  {
    hide Do, EngineGet, MayCommit, KeySorted, Pending, Fold;
    TranAfter(s, step, id);
    if Enabled(s, step) {
      match step
      case Put(x, k, v) => LoggedChange(s.trans[x], s.store, PutRecord(x, k, v));
      case Remove(x, k) => LoggedChange(s.trans[x], s.store, DeleteRecord(x, k));
      case Commit(x, order, testFail) => LoggedCommit(s.trans[x]);
      case LogFails(x) => LoggedCommit(s.trans[x]);
      case _ =>
    }
  }

  lemma {:induction false} CheckedIsUndoFree(s: State)
    requires Kept(s) && CheckedWriters(s)
    ensures NothingUndone(s)
  {
    hide Kept;
    forall id | id in s.trans && s.trans[id].aborted ensures s.trans[id].rollback == map[] {
      NothingToUndo(s, id);
    }
  }

  lemma {:induction false} InitOrderly()
    ensures Init().man.flushed != {} && Orderly(Init())
  {
    forall k: Key ensures Stack([[]], k) == [] {
      assert Stack([], k) == [] && Versions([], k) == [];
      var none: seq<seq<Entry>> := [[]];
      assert none[1..] == [];
    }
  }

  lemma {:induction false} RunsOrderly(steps: seq<Step>)
    requires CheckedWriters(After(steps))
    ensures Settles(After(steps)) && Orderly(After(steps))
  {
    hide Kept, Do, CheckedWriters, NothingUndone, Settles;
    CheckedIsUndoFree(After(steps));
    RunsHold(steps);
    if steps == [] {
      InitOrderly();
    } else {
      var most, last := steps[..|steps| - 1], steps[|steps| - 1];
      assert steps == most + [last];
      AfterStep(most, last);
      CheckedBefore(After(most), last);
      RunsOrderly(most);
      StepOrderly(After(most), last);
    }
  }

  // ---- the theorem ---------------------------------------------------------------------------------

  /** A table in node order, leaving aside the order of the markers among themselves. */
  ghost predicate NodeOrder(table: seq<Entry>) {
    forall i, j :: 0 <= i < j < |table| && table[j].key != [] ==> EntryLess(table[i], table[j])
  }

  lemma {:induction false} VersionsInPlace(s: seq<Entry>, i: nat, j: nat)
    requires i < j < |s| && s[i].key == s[j].key && Descending(Versions(s, s[i].key))
    ensures s[i].tid > s[j].tid
    decreases |s|
  {
    hide Versions, Descending;
    var k, rest := s[i].key, s[1..];
    assert s == [s[0]] + rest && rest[j - 1] == s[j];
    VersionsCons(s[0], rest, k);
    if s[0].key == k {
      HeadIsNewest(s[0], Versions(rest, k));
    }
    if i == 0 {
      VersionsMembers(rest, k, s[j]);
    } else {
      assert rest[i - 1] == s[i];
      VersionsInPlace(rest, i - 1, j - 1);
    }
  }

  lemma {:induction false} HeadIsNewest(e: Entry, st: seq<Entry>)
    requires Descending([e] + st)
    ensures Descending(st) && forall x :: x in st ==> x.tid < e.tid
  {
    forall i | 0 <= i < |st| ensures st[i].tid < e.tid {
      assert ([e] + st)[0].tid > ([e] + st)[i + 1].tid;
    }
    DescendingParts([e], st);
  }

  lemma {:induction false} TableInOrder(tables: seq<seq<Entry>>, n: nat, k: Key)
    requires n < |tables| && Descending(Stack(tables, k))
    ensures Descending(Versions(tables[n], k))
  {
    hide Versions, Descending;
    DescendingParts(Versions(tables[0], k), Stack(tables[1..], k));
    if n > 0 {
      TableInOrder(tables[1..], n - 1, k);
    }
  }

  /** In every run whose writers all check for conflicts, the versions of each key lie in strictly
      descending id order over all tables, and each table is in node order apart from the markers. */
  lemma {:induction false} VersionsCommitInOrder(steps: seq<Step>)
    requires CheckedWriters(After(steps))
    ensures var s := After(steps).store;
            && (forall k: Key :: k != [] ==> Descending(Stack(s.tables, k)))
            && (forall n :: 0 <= n < |s.tables| ==> NodeOrder(s.tables[n]))
  {
    hide Do, Fold, Descending, Stack, Versions, EntryLess, CheckedWriters;
    RunsOrderly(steps);
    var s := After(steps).store;
    forall n | 0 <= n < |s.tables| ensures NodeOrder(s.tables[n]) {
      var table := s.tables[n];
      forall i, j | 0 <= i < j < |table| && table[j].key != [] ensures EntryLess(table[i], table[j]) {
        TableInOrder(s.tables, n, table[j].key);
        NodesInOrder(table, i, j);
      }
    }
  }

  lemma {:induction false} NodesInOrder(table: seq<Entry>, i: nat, j: nat)
    requires KeySorted(table) && i < j < |table| && Descending(Versions(table, table[j].key))
    ensures EntryLess(table[i], table[j])
  {
    hide Versions, Descending;
    KeyTrichotomy(table[i].key, table[j].key);
    if table[i].key == table[j].key {
      VersionsInPlace(table, i, j);
    }
  }

  /** So a read without a snapshot bound returns the newest version, and a snapshot read does so
      exactly when no memory table shadows it. */
  lemma {:induction false} ReadsAreNewestIff(steps: seq<Step>, k: Key, t: nat)
    requires CheckedWriters(After(steps)) && k != []
    ensures var s := After(steps).store;
            Find(s, k, t) == FirstVisible(Stack(s.tables, k), t) <==> Unshadowed(s, k, t)
  {
    hide Do, Stack, Find, Answering, CheckedWriters;
    VersionsCommitInOrder(steps);
    FindExactIff(After(steps).store, k, t);
  }
}
