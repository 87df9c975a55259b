/** Undoing direct writes: when a rollback takes another transaction's write along. */
module Rollbacks {
  import opened Keys
  import opened Entries
  import opened IdSets
  import opened WalRecords
  import opened VersionStore
  import opened Checkpoint
  import opened Transactions
  import opened TransactionRuns
  import opened CheckpointSafety
  import Sl = SkipListSpec

  // ---- one rollback ----------------------------------------------------------------------------------

  /** Below the current table nothing changes; on it, each saved key is put once. */
  lemma {:induction false} RollbackStacks(s: Store, t: Tran, order: seq<Key>, k: Key)
    requires Shaped(s) && Orders(order, set x | x in order) && forall x :: x in order ==> x in t.rollback
    ensures var now, top := Rollback(s, t, order), Versions(s.tables[0], k);
            && Shaped(now) && now.tables[1..] == s.tables[1..]
            && Versions(now.tables[0], k) == if k in order then Sl.PutStack(top, Undo(t, k)) else top
  {
    hide Versions, KeySorted, Sl.Put;
    if order != [] {
      var most, last := order[..|order| - 1], order[|order| - 1];
      assert order == most + [last];
      assert last !in most;
      RollbackStacks(s, t, most, k);
      var r := Rollback(s, t, most);
      Sl.PutRefines(r.tables[0], Undo(t, last), k);
      ShapedWrite(r, Undo(t, last));
      assert Write(r, Undo(t, last)).tables[1..] == r.tables[1..];
    }
  }

  /** A saved version of `k` is about to overwrite the only copy of a different write with the same id. */
  ghost predicate Erases(s: Store, t: Tran, k: Key)
    requires s.tables != []
  {
    var own := Versions(s.tables[0], k);
    && k in t.rollback && t.rollback[k].Some? && t.rollback[k].value.tid != t.id
    && own != [] && own[0].tid == t.rollback[k].value.tid && own[0].value != t.rollback[k].value.value
    && own[0] !in own[1..] && own[0] !in Stack(s.tables[1..], k)
  }

  /** Every entry of the other transactions is still somewhere. */
  ghost predicate KeepsOthers(s: Store, now: Store, id: nat) {
    forall x :: Somewhere(s.tables, x) && x.tid != id ==> Somewhere(now.tables, x)
  }

  lemma {:induction false} SomewhereIs(s: Store, x: Entry)
    requires s.tables != []
    ensures Somewhere(s.tables, x) <==> x in Versions(s.tables[0], x.key) || x in Stack(s.tables[1..], x.key)
  {
    StackMembers(s.tables, x.key, x);
  }

  lemma {:induction false} TopIsItsKey(s: Store, k: Key)
    requires s.tables != []
    ensures var own := Versions(s.tables[0], k); own != [] ==> own[0].key == k
  {
    var own := Versions(s.tables[0], k);
    if own != [] {
      VersionsMembers(s.tables[0], k, own[0]);
    }
  }

  lemma {:induction false} KeptUnlessErased(s: Store, t: Tran, order: seq<Key>, x: Entry)
    requires Shaped(s) && Orders(order, t.rollback.Keys) && Somewhere(s.tables, x) && x.tid != t.id
    requires !Erases(s, t, x.key)
    ensures Somewhere(Rollback(s, t, order).tables, x)
  {
    hide Versions, Stack, KeySorted, Rollback;
    RollbackStacks(s, t, order, x.key);
    SomewhereIs(s, x);
    SomewhereIs(Rollback(s, t, order), x);
    TopIsItsKey(s, x.key);
    var own := Versions(s.tables[0], x.key);
    assert own != [] ==> own == [own[0]] + own[1..];
  }

  lemma {:induction false} ErasedIsGone(s: Store, t: Tran, order: seq<Key>, k: Key)
    requires Shaped(s) && Orders(order, t.rollback.Keys) && Erases(s, t, k)
    ensures var x := FirstOf(s, t, k);
            x.tid != t.id && Somewhere(s.tables, x) && !Somewhere(Rollback(s, t, order).tables, x)
  {
    hide Versions, Stack, KeySorted, Rollback;
    var x := Versions(s.tables[0], k)[0];
    RollbackStacks(s, t, order, k);
    TopIsItsKey(s, k);
    SomewhereIs(s, x);
    SomewhereIs(Rollback(s, t, order), x);
  }

  /** A rollback keeps every entry of the other transactions if and only if it erases none: no saved
      version meets, on top of its key in the current table, the only copy of a different write with the
      saved version's id. */
  lemma {:induction false} RollbackKeepsIff(s: Store, t: Tran, order: seq<Key>)
    requires Shaped(s) && Orders(order, t.rollback.Keys)
    ensures KeepsOthers(s, Rollback(s, t, order), t.id) <==> forall k :: k in t.rollback ==> !Erases(s, t, k)
  {
    hide Erases, Rollback, Somewhere, KeySorted;
    if k :| k in t.rollback && Erases(s, t, k) {
      ErasedIsGone(s, t, order, k);
      var x := FirstOf(s, t, k);
      assert Somewhere(s.tables, x) && x.tid != t.id;
    } else {
      forall x | Somewhere(s.tables, x) && x.tid != t.id ensures Somewhere(Rollback(s, t, order).tables, x) {
        if Erases(s, t, x.key) {
          ErasesSaved(s, t, x.key);
        }
        KeptUnlessErased(s, t, order, x);
      }
    }
  }

  ghost function FirstOf(s: Store, t: Tran, k: Key): Entry
    requires s.tables != [] && Erases(s, t, k)
  {
    Versions(s.tables[0], k)[0]
  }

  lemma ErasesSaved(s: Store, t: Tran, k: Key)
    requires s.tables != [] && Erases(s, t, k)
    ensures k in t.rollback
  {
  }

  // ---- what an abort restores ------------------------------------------------------------------------------

  /** After a rollback an unbounded read of a saved key finds what was saved, whoever has written it since. */
  lemma {:induction false} RollbackReads(s: Store, t: Tran, order: seq<Key>, k: Key)
    requires Shaped(s) && Orders(order, t.rollback.Keys) && k in t.rollback
    requires t.rollback[k].Some? ==> t.rollback[k].value.key == k && t.rollback[k].value.value != []
    ensures EngineGet(Rollback(s, t, order), k, 0) == t.rollback[k]
  {
    hide Versions, Stack, KeySorted, Rollback, EngineGet;
    var now := Rollback(s, t, order);
    RollbackStacks(s, t, order, k);
    EngineGetIs(now, k, 0);
    StackTop(now.tables, k);
  }

  lemma StackTop(tables: seq<seq<Entry>>, k: Key)
    requires tables != []
    ensures Stack(tables, k) == Versions(tables[0], k) + Stack(tables[1..], k)
  {
  }

  /** What a direct write saves: the answer of an unbounded read before it, put or remove alike. */
  lemma {:induction false} DirectWriteSaves(t: Tran, s: Store, r: Record)
    requires Shaped(s) && !Buffers(t.level)
    ensures var saved, st := ChangeTran(t, s, r).rollback, Stack(s.tables, r.key);
            && r.key in saved && saved[r.key] == ValueOf(if st == [] then None else Some(st[0]))
            && (saved[r.key].Some? ==> saved[r.key].value.key == r.key && saved[r.key].value.value != [])
            && forall k :: k != r.key ==>
                 (k in saved <==> k in t.rollback) && (k in saved ==> saved[k] == t.rollback[k])
  {
    hide KeySorted, Stack, EngineGet;
    EngineGetIs(s, r.key, 0);
    var st := Stack(s.tables, r.key);
    if st != [] {
      StackMembers(s.tables, r.key, st[0]);
    }
  }

  /** One direct write and a rollback of all that the writer saved: an unbounded read of the key answers as it did
      before that write. */
  lemma {:induction false} WriteThenRollback(t: Tran, s: Store, r: Record, order: seq<Key>)
    requires Shaped(s) && !Buffers(t.level) && Orders(order, ChangeTran(t, s, r).rollback.Keys)
    ensures var back := Rollback(ChangeStore(t, s, r), ChangeTran(t, s, r), order);
            EngineGet(back, r.key, 0) == EngineGet(s, r.key, 0)
  {
    hide KeySorted, Stack, EngineGet, Write, Rollback;
    DirectWriteSaves(t, s, r);
    EngineGetIs(s, r.key, 0);
    ShapedWrite(s, Entry(r.key, r.value, t.id));
    RollbackReads(ChangeStore(t, s, r), ChangeTran(t, s, r), order, r.key);
  }

  predicate WritesKey(step: Step, id: nat, k: Key) {
    (step.Put? || step.Remove?) && step.id == id && step.k == k
  }

  /** What a transaction has saved for a key stays while it does not write the key again. */
  lemma {:induction false} SavedKeeps(steps: seq<Step>, more: seq<Step>, id: nat, k: Key)
    requires id in After(steps).trans && k in After(steps).trans[id].rollback
    requires forall i :: 0 <= i < |more| ==> !WritesKey(more[i], id, k)
    ensures var s, now := After(steps), After(steps + more);
            && id in now.trans && now.trans[id].id == s.trans[id].id && now.trans[id].level == s.trans[id].level
            && k in now.trans[id].rollback && now.trans[id].rollback[k] == s.trans[id].rollback[k]
  {
    hide Do, After, Kept;
    if more == [] {
      assert steps + more == steps;
    } else {
      var most, last := more[..|more| - 1], more[|more| - 1];
      SavedKeeps(steps, most, id, k);
      assert steps + more == (steps + most) + [last];
      AfterStep(steps + most, last);
      SavedStep(After(steps + most), last, id, k);
    }
  }

  lemma {:induction false} SavedStep(s: State, step: Step, id: nat, k: Key)
    requires Kept(s) && id in s.trans && k in s.trans[id].rollback && !WritesKey(step, id, k)
    ensures var now := Do(s, step).trans;
            && id in now && now[id].id == s.trans[id].id && now[id].level == s.trans[id].level
            && k in now[id].rollback && now[id].rollback[k] == s.trans[id].rollback[k]
  {
    hide Do, EngineGet, MayCommit, KeySorted, Logged, Pending;
    TranAfter(s, step, id);
  }

  ghost function WriteOf(id: nat, k: Key, v: Option<Value>): Step {
    match v
    case Some(x) => Put(id, k, x)
    case None => Remove(id, k)
  }

  /** In every run: a direct writer puts or removes a key, whatever anybody does happens except another write of
      that key by the same transaction, and then it aborts. An unbounded read of the key answers as it did
      before the write. */
  lemma {:induction false} AbortRestores(steps: seq<Step>, id: nat, k: Key, v: Option<Value>, more: seq<Step>,
                                         order: seq<Key>)
    requires Running(After(steps), id) && After(steps).trans[id].level.ReadUncommitted? && k != []
    requires forall i :: 0 <= i < |more| ==> !WritesKey(more[i], id, k)
    requires Enabled(After(steps + [WriteOf(id, k, v)] + more), Abort(id, order))
    ensures EngineGet(After(steps + [WriteOf(id, k, v)] + more + [Abort(id, order)]).store, k, 0) ==
            EngineGet(After(steps).store, k, 0)
  {
    hide Do, After, EngineGet, KeySorted, Pending, Logged, Rollback, WritesKey, Write;
    var s, w := After(steps), WriteOf(id, k, v);
    var wrote := After(steps + [w]);
    AfterStep(steps, w);
    WriteIs(s, id, k, v);
    SavedKeeps(steps + [w], more, id, k);
    var last := After(steps + [w] + more);
    AfterStep(steps + [w] + more, Abort(id, order));
    AbortIs(last, id, order);
    RollbackReads(last.store, last.trans[id], order, k);
  }

  lemma {:induction false} WriteIs(s: State, id: nat, k: Key, v: Option<Value>)
    requires Kept(s) && Running(s, id) && s.trans[id].level.ReadUncommitted? && k != []
    ensures var t := Do(s, WriteOf(id, k, v)).trans;
            && id in t && k in t[id].rollback && t[id].rollback[k] == EngineGet(s.store, k, 0)
            && (t[id].rollback[k].Some? ==> t[id].rollback[k].value.key == k && t[id].rollback[k].value.value != [])
  {
    hide Do, KeySorted, Pending, Logged, EngineGet;
    var r := match v { case Some(x) => PutRecord(id, k, x) case None => DeleteRecord(id, k) };
    TranAfter(s, WriteOf(id, k, v), id);
    DirectWriteSaves(s.trans[id], s.store, r);
  }

  lemma AbortIs(s: State, id: nat, order: seq<Key>)
    requires Kept(s) && Enabled(s, Abort(id, order))
    ensures Do(s, Abort(id, order)).store == Rollback(s.store, s.trans[id], order)
  {
    hide Rollback, KeySorted, Pending, Logged;
  }

  // ---- a run that loses a write ------------------------------------------------------------------------

  const K: Key := [1]
  const FIRST: Entry := Entry([1], [10], 1)
  const OTHER: Entry := Entry([1], [20], 2)
  const LATER: Entry := Entry([1], [30], 1)

  /** Two direct writers interleave on one key, the younger one aborts, the older one commits. */
  ghost function Written3(): seq<Step> {
    [Begin(ReadUncommitted), Begin(ReadUncommitted), Put(1, K, [10]), Put(2, K, [20]), Put(1, K, [30])]
  }

  ghost function LosingRun(): seq<Step> {
    Written3() + [Abort(2, [K])] + [Commit(1, [], false)] + [Flush]
  }

  lemma DirectPut(s: State, id: nat, k: Key, v: Value)
    requires Kept(s) && Running(s, id) && !Buffers(s.trans[id].level) && k != []
    ensures Do(s, Put(id, k, v)) ==
            State(Write(s.store, Entry(k, v, s.trans[id].id)), s.man,
                  s.trans[id := ChangeTran(s.trans[id], s.store, PutRecord(id, k, v))], s.plain)
  {
    hide Write, EngineGet;
  }

  lemma PutOnTop(table: seq<Entry>, e: Entry)
    requires table == [] || table[0].key == e.key
    ensures Write(Store([table], 1), e) ==
            Store([if table != [] && table[0].tid == e.tid then [e] + table[1..] else [e] + table], 1)
  {
    KeyTrichotomy(e.key, e.key);
    assert Sl.Bound(table, e.key) == 0;
    var put := Sl.Put(table, e);
    assert put == if table != [] && table[0].tid == e.tid then [e] + table[1..] else [e] + table;
    assert [table][0 := put] == [put];
  }

  lemma ReadTop(table: seq<Entry>, k: Key)
    requires table != [] && table[0].key == k && table[0].value != []
    ensures EngineGet(Store([table], 1), k, 0) == Some(table[0])
  {
    KeyTrichotomy(k, k);
    assert Sl.Bound(table, k) == 0;
    var s := Store([table], 1);
    assert s.tables[..1] == s.tables;
  }

  /** Two running direct writers; the first has asked for the writes `w`, the second has saved `saved`. */
  ghost predicate Looks(s: State, table: seq<Entry>, w: map<Key, Value>, saved: map<Key, Option<Entry>>) {
    && Kept(s) && s.store == Store([table], 1) && s.man == Manager(3, map[], {0})
    && Running(s, 1) && Running(s, 2)
    && s.trans[1].level.ReadUncommitted? && Writes(s.trans[1]) == w
    && s.trans[2].level.ReadUncommitted? && s.trans[2].rollback == saved
  }

  lemma {:induction false} TwoBegun()
    ensures After([Begin(ReadUncommitted), Begin(ReadUncommitted)]) ==
            State(Store([[]], 1), Manager(3, map[], {0}),
                  map[1 := NewTran(1, ReadUncommitted), 2 := NewTran(2, ReadUncommitted)], {})
  {
    hide Do;
    var b := Begin(ReadUncommitted);
    assert [b, b] == ([] + [b]) + [b];
    AfterStep([], b);
    AfterStep([] + [b], b);
    BeginStep(Init(), ReadUncommitted);
    BeginStep(After([] + [b]), ReadUncommitted);
  }

  lemma {:induction false} FirstWrites(s: State, table: seq<Entry>, w: map<Key, Value>, saved: map<Key,
                                       Option<Entry>>, v: Value)
    requires Looks(s, table, w, saved) && (table != [] ==> table[0].key == K && table[0].tid != 1)
    ensures Looks(Do(s, Put(1, K, v)), [Entry(K, v, 1)] + table, w[K := v], saved)
  {
    hide Do, EngineGet, Write, Logged, KeySorted, Pending;
    DirectPut(s, 1, K, v);
    PutOnTop(table, Entry(K, v, 1));
    LoggedChange(s.trans[1], s.store, PutRecord(1, K, v));
    StepKeeps(s, Put(1, K, v));
  }

  lemma {:induction false} SecondWrites(s: State, table: seq<Entry>, w: map<Key, Value>, v: Value)
    requires Looks(s, table, w, map[]) && table != [] && table[0].key == K && table[0].tid != 2 && table[0].value != []
    ensures Looks(Do(s, Put(2, K, v)), [Entry(K, v, 2)] + table, w, map[K := Some(table[0])])
  {
    hide Do, EngineGet, Write, Logged, KeySorted, Pending;
    DirectPut(s, 2, K, v);
    PutOnTop(table, Entry(K, v, 2));
    ReadTop(table, K);
    StepKeeps(s, Put(2, K, v));
  }

  lemma {:induction false} ThreeWritten()
    ensures Looks(After(Written3()), [LATER, OTHER, FIRST], map[K := [30]], map[K := Some(FIRST)])
  {
    hide Do, Kept, Writes;
    var p := [Begin(ReadUncommitted), Begin(ReadUncommitted)];
    var x, y, z := Put(1, K, [10]), Put(2, K, [20]), Put(1, K, [30]);
    assert Written3() == ((p + [x]) + [y]) + [z];
    AfterStep(p, x);
    AfterStep(p + [x], y);
    AfterStep((p + [x]) + [y], z);
    TwoBegun();
    NobodyWrote();
    FirstWrites(After(p), [], map[], map[], [10]);
    assert [Entry(K, [10], 1)] + [] == [FIRST] && map[][K := [10]] == map[K := [10]];
    SecondWrites(After(p + [x]), [FIRST], map[K := [10]], [20]);
    assert [Entry(K, [20], 2)] + [FIRST] == [OTHER, FIRST];
    FirstWrites(After((p + [x]) + [y]), [OTHER, FIRST], map[K := [10]], map[K := Some(FIRST)], [30]);
    assert [Entry(K, [30], 1)] + [OTHER, FIRST] == [LATER, OTHER, FIRST];
    assert map[K := [10]][K := [30]] == map[K := [30]];
  }

  lemma NobodyWrote()
    ensures Looks(After([Begin(ReadUncommitted), Begin(ReadUncommitted)]), [], map[], map[])
  {
    hide Do;
    TwoBegun();
    LoggedNew(1, ReadUncommitted);
  }

  /** The abort puts the first version back, over the later one. */
  lemma {:induction false} AbortErases(s: State)
    requires Looks(s, [LATER, OTHER, FIRST], map[K := [30]], map[K := Some(FIRST)])
    ensures var now := Do(s, Abort(2, [K]));
            && Kept(now) && now.store == Store([[FIRST, OTHER, FIRST]], 1)
            && now.man == Manager(3, map[2 := Aborted], {0})
            && Running(now, 1) && now.trans[1] == s.trans[1]
  {
    hide Logged, KeySorted, Pending, Write;
    var order := [K];
    assert order[..0] == [] && Rollback(s.store, s.trans[2], []) == s.store;
    PutOnTop([LATER, OTHER, FIRST], FIRST);
    assert [FIRST] + [LATER, OTHER, FIRST][1..] == [FIRST, OTHER, FIRST];
    assert Rollback(s.store, s.trans[2], order) == Store([[FIRST, OTHER, FIRST]], 1);
    StepKeeps(s, Abort(2, [K]));
  }

  lemma {:induction false} CommitMarks(s: State)
    requires Kept(s) && s.store == Store([[FIRST, OTHER, FIRST]], 1) && s.man == Manager(3, map[2 := Aborted], {0})
    requires Running(s, 1) && s.trans[1].level.ReadUncommitted?
    ensures var now := Do(s, Commit(1, [], false));
            && Kept(now) && now.store == Store([[Marker(1), FIRST, OTHER, FIRST]], 1)
            && now.man == Manager(3, map[2 := Aborted, 1 := Committed], {0})
            && 1 in now.trans && now.trans[1] == CommitTran(s.trans[1])
  {
    hide KeySorted, Pending, Conflict, Fold;
    assert Logged(s.trans[1]);
    var table := [FIRST, OTHER, FIRST];
    assert Sl.Bound(table, []) == 0 && Sl.Put(table, Marker(1)) == [Marker(1)] + table;
    assert [table][0 := [Marker(1)] + table] == [[Marker(1)] + table];
    assert [Marker(1)] + table == [Marker(1), FIRST, OTHER, FIRST];
    StepKeeps(s, Commit(1, [], false));
  }

  lemma {:induction false} FlushPasses(m: Manager)
    requires m == Manager(3, map[2 := Aborted, 1 := Committed], {0})
    ensures AddAllFlushed(m, [1]).flushed == {1}
  {
    var moved := Settled(m.ready, 1);
    assert moved == {1};
    var all := {0, 1};
    assert m.flushed + moved == all;
    assert Min(all) == 0 && EndsRun(all, 1);
    RunEndUnique(all, 1);
    assert Compress(all) == {1};
    var ids := [1];
    assert ids[..0] == [] && AddAllFlushed(m, []) == m;
  }

  lemma {:induction false} OnlyMarker()
    ensures Markers([Marker(1), FIRST, OTHER, FIRST]) == [1]
  {
    hide Markers;
    var none: seq<Entry> := [];
    MarkersCons(FIRST, none);
    MarkersCons(OTHER, [FIRST]);
    MarkersCons(FIRST, [OTHER, FIRST]);
    MarkersCons(Marker(1), [FIRST, OTHER, FIRST]);
    NoMarkers();
    assert [FIRST] + none == [FIRST] && [OTHER] + [FIRST] == [OTHER, FIRST];
    assert [FIRST] + [OTHER, FIRST] == [FIRST, OTHER, FIRST];
    assert [Marker(1)] + [FIRST, OTHER, FIRST] == [Marker(1), FIRST, OTHER, FIRST];
  }

  lemma NoMarkers()
    ensures Markers([]) == []
  {
  }

  /** The claim of the checkpoint fails on this run: the older transaction is committed and at the checkpoint,
      but its last write is in no file. */
  lemma {:induction false} RollbackDefeatsCheckpoint()
    ensures var s := After(LosingRun());
            && 1 in s.trans && s.trans[1].committed && 1 <= Min(s.man.flushed)
            && !InFiles(s, 1) && !NotRestored(s, 1)
  {
    hide Do, Kept, Looks, Writes, InFiles, NotRestored, AddAllFlushed;
    var p := Written3();
    var a, c := Abort(2, [K]), Commit(1, [], false);
    AfterStep(p, a);
    AfterStep(p + [a], c);
    AfterStep(p + [a] + [c], Flush);
    ThreeWritten();
    AbortErases(After(p));
    LastStages(After(p), After(p + [a]), After(p + [a] + [c]), After(LosingRun()));
  }

  lemma {:induction false} LastStages(s5: State, s6: State, s7: State, s8: State)
    requires Looks(s5, [LATER, OTHER, FIRST], map[K := [30]], map[K := Some(FIRST)])
    requires s6 == Do(s5, Abort(2, [K])) && Kept(s6) && s7 == Do(s6, Commit(1, [], false)) && Kept(s7)
    requires s8 == Do(s7, Flush)
    ensures 1 in s8.trans && s8.trans[1].committed && s8.man.flushed != {} && 1 <= Min(s8.man.flushed)
    ensures !InFiles(s8, 1) && !NotRestored(s8, 1)
  {
    hide Do, KeySorted, Pending, Logged, Fold, InFiles, NotRestored;
    AbortErases(s5);
    CommitMarks(s6);
    LoggedCommit(s6.trans[1]);
    FlushOutcome(s7);
    WriteIsLost(s8);
    SavedStays(s5, s6, s7, s8);
  }

  lemma {:induction false} SavedStays(s5: State, s6: State, s7: State, s8: State)
    requires Kept(s5) && Running(s5, 2) && s5.trans[2].rollback == map[K := Some(FIRST)]
    requires s6 == Do(s5, Abort(2, [K])) && Kept(s6) && s7 == Do(s6, Commit(1, [], false)) && Kept(s7)
    requires s8 == Do(s7, Flush)
    ensures !NotRestored(s8, 1)
  {
    hide Do, Kept, MayCommit, EngineGet;
    AbortedStays(s5, s6);
    TranAfter(s6, Commit(1, [], false), 2);
    TranAfter(s7, Flush, 2);
    assert SavesFrom(s8.trans[2], K, 1);
  }

  lemma AbortedStays(s5: State, s6: State)
    requires Kept(s5) && Running(s5, 2) && s5.trans[2].rollback == map[K := Some(FIRST)] && s6 == Do(s5, Abort(2, [K]))
    ensures 2 in s6.trans && s6.trans[2].aborted && s6.trans[2].rollback == map[K := Some(FIRST)]
  {
    hide Do, KeySorted, Pending, Logged;
    TranAfter(s5, Abort(2, [K]), 2);
    var keys := s5.trans[2].rollback.Keys;
    assert keys == {K} && Orders([K], keys);
  }

  lemma {:induction false} WriteIsLost(s: State)
    requires s.store == Store([[], [Marker(1), FIRST, OTHER, FIRST]], 1)
    requires 1 in s.trans && Writes(s.trans[1]) == map[K := [30]]
    ensures !InFiles(s, 1)
  {
    hide Fold;
    assert K in Writes(s.trans[1]) && Entry(K, Writes(s.trans[1])[K], 1) == LATER;
    forall i | 0 <= i < 2 ensures LATER !in s.store.tables[i] {}
    assert forall i :: !At(s.store, i, LATER);
  }

  lemma {:induction false} FlushOutcome(s: State)
    requires Kept(s) && s.store == Store([[Marker(1), FIRST, OTHER, FIRST]], 1)
    requires s.man == Manager(3, map[2 := Aborted, 1 := Committed], {0})
    ensures var now := Do(s, Flush);
            && now.store == Store([[], [Marker(1), FIRST, OTHER, FIRST]], 1) && now.man.flushed == {1}
            && now.trans == s.trans
  {
    hide AddAllFlushed, Markers, Pending, Logged, KeySorted;
    OnlyMarker();
    FlushPasses(s.man);
    var table := [Marker(1), FIRST, OTHER, FIRST];
    assert [[]] + [table] == [[], table];
  }
}
