/** Checkpoint safety over every run: what the checkpoint has passed is in the files. */
module CheckpointSafety {
  import opened Keys
  import opened Entries
  import opened IdSets
  import opened WalRecords
  import opened VersionStore
  import opened Checkpoint
  import opened Transactions
  import opened TransactionRuns
  import Sl = SkipListSpec

  ghost predicate At(s: Store, i: int, e: Entry) {
    0 <= i < |s.tables| && e in s.tables[i]
  }

  /** The store holds the last write of `t` to each of its keys. */
  ghost predicate Written(s: Store, t: Tran) {
    forall k :: k in Writes(t) ==> Somewhere(s.tables, Entry(k, Writes(t)[k], t.id))
  }

  /** An entry that `t` may have put into the store. */
  ghost predicate OwnedBy(t: Tran, e: Entry) {
    if e.key == [] then e == Marker(e.tid) && t.committed
    else
      && e.key in Writes(t)
      && (Buffers(t.level) ==> t.committed && Writes(t)[e.key] == e.value)
  }

  // ---- what holds for one transaction ------------------------------------------------------------------

  ghost predicate Owned(s: Store, t: Tran) {
    forall i, e :: At(s, i, e) && e.tid == t.id ==> OwnedBy(t, e)
  }

  /** Its marker is never older than the writes it stands for. */
  ghost predicate MarkerFirst(s: Store, t: Tran) {
    forall i, m, e :: At(s, i, e) && e.tid == t.id && At(s, m, Marker(t.id)) ==> m <= i
  }

  ghost predicate MarkerReady(s: Store, t: Tran, isReady: bool) {
    forall i :: At(s, i, Marker(t.id)) && i < s.mem ==> isReady
  }

  ghost predicate Durable(s: Store, t: Tran) {
    (!Buffers(t.level) && !t.aborted) || Somewhere(s.tables, Marker(t.id)) ==> Written(s, t)
  }

  ghost predicate Accounted(s: Store, t: Tran, isReady: bool) {
    t.committed ==> isReady || Somewhere(s.tables, Marker(t.id))
  }

  ghost predicate Marked(s: Store, t: Tran, isReady: bool) {
    && Owned(s, t) && MarkerFirst(s, t) && MarkerReady(s, t, isReady)
    && Durable(s, t) && Accounted(s, t, isReady)
  }

  ghost predicate MarkedFor(s: State, id: nat) {
    id in s.trans ==> Marked(s.store, s.trans[id], id in s.man.ready)
  }

  /** No rollback has put a version of `id` back. */
  ghost predicate NotRestored(s: State, id: nat) {
    forall x, k :: x in s.trans && s.trans[x].aborted && k in s.trans[x].rollback ==>
                     !SavesFrom(s.trans[x], k, id)
  }

  /** The version of `k` that `t` saved before it wrote the key belongs to `id`. */
  predicate SavesFrom(t: Tran, k: Key, id: nat) {
    k in t.rollback && t.rollback[k].Some? && t.rollback[k].value.tid == id
  }

  // ---- table updates -------------------------------------------------------------------------------

  lemma {:induction false} PutMembers(table: seq<Entry>, e: Entry)
    ensures e in Sl.Put(table, e)
    ensures forall x :: x in Sl.Put(table, e) ==> x == e || x in table
    ensures forall x :: x in table && !(x.key == e.key && x.tid == e.tid) ==> x in Sl.Put(table, e)
  {
    var p := Sl.Bound(table, e.key);
    var r := Sl.Put(table, e);
    assert r[p] == e;
    forall x | x in table && !(x.key == e.key && x.tid == e.tid) ensures x in r {
      var i :| 0 <= i < |table| && table[i] == x;
      if Sl.Overwrites(table, e.key, e.tid) {
        assert r[i] == x;
      } else {
        assert r[if i < p then i else i + 1] == x;
      }
    }
  }

  lemma {:induction false} WriteAllMembers(table: seq<Entry>, order: seq<Key>, temp: map<Key, Value>, id: nat)
    requires forall k :: k in order ==> k in temp
    ensures var r := WriteAll(table, order, temp, id);
            && (forall x :: x in r ==> x in table || (x.tid == id && x.key in order && x.value == temp[x.key]))
            && (forall x :: x in table && x.tid != id ==> x in r)
            && (forall k :: k in order ==> Entry(k, temp[k], id) in r)
  {
    hide Sl.Put;
    if order != [] {
      var most, k := order[..|order| - 1], order[|order| - 1];
      assert order == most + [k];
      WriteAllMembers(table, most, temp, id);
      PutMembers(WriteAll(table, most, temp, id), Entry(k, temp[k], id));
    }
  }

  /** `now` adds entries of `id` to the current table of `was` and changes nothing of the others. */
  ghost predicate Adds(was: Store, now: Store, id: nat) {
    && now.mem == was.mem && |now.tables| == |was.tables| > 0
    && now.tables[1..] == was.tables[1..]
    && (forall x :: x in was.tables[0] && x.tid != id ==> x in now.tables[0])
    && (forall x :: x in now.tables[0] ==> x in was.tables[0] || x.tid == id)
  }

  lemma {:induction false} AddsAt(was: Store, now: Store, id: nat, i: int, e: Entry)
    requires Adds(was, now, id)
    ensures At(was, i, e) && (i > 0 || e.tid != id) ==> At(now, i, e)
    ensures At(now, i, e) && (i > 0 || e.tid != id) ==> At(was, i, e)
  {
    if 0 < i < |was.tables| {
      assert was.tables[i] == was.tables[1..][i - 1] && now.tables[i] == now.tables[1..][i - 1];
    }
  }

  lemma {:induction false} AddsTwice(a: Store, b: Store, c: Store, id: nat)
    requires Adds(a, b, id) && Adds(b, c, id)
    ensures Adds(a, c, id)
  {
  }

  lemma {:induction false} WriteAdds(s: Store, e: Entry)
    requires s.tables != []
    ensures var w := Write(s, e);
            && Adds(s, w, e.tid) && At(w, 0, e) && Somewhere(w.tables, e)
            && (forall i, x :: At(w, i, x) ==> At(s, i, x) || x == e)
            && (forall i, x :: At(s, i, x) && !(x.key == e.key && x.tid == e.tid) ==> At(w, i, x))
            && (forall x :: Somewhere(s.tables, x) && x.key != e.key ==> Somewhere(w.tables, x))
  {
    hide Sl.Put;
    var w := Write(s, e);
    PutMembers(s.tables[0], e);
    assert w.tables[1..] == s.tables[1..];
    forall x | Somewhere(s.tables, x) && x.key != e.key ensures Somewhere(w.tables, x) {
      var i :| 0 <= i < |s.tables| && x in s.tables[i];
      assert x in w.tables[i];
    }
  }

  lemma {:induction false} BatchAdds(s: Store, batch: seq<(Key, Value)>, id: nat)
    requires s.tables != [] && forall i :: 0 <= i < |batch| ==> batch[i].0 != []
    ensures var w := WriteBatch(s, batch, id);
            Adds(s, w, id) && forall i, x :: At(w, i, x) ==> At(s, i, x) || (x.tid == id && x.key != [])
  {
    hide Write, Adds;
    if batch == [] {
      AddsNothing(s, id);
    } else {
      var most, last := batch[..|batch| - 1], batch[|batch| - 1];
      var w := WriteBatch(s, most, id);
      BatchAdds(s, most, id);
      WriteAdds(w, Entry(last.0, last.1, id));
      AddsTwice(s, w, WriteBatch(s, batch, id), id);
    }
  }

  lemma AddsNothing(s: Store, id: nat)
    requires s.tables != []
    ensures Adds(s, s, id)
  {
  }

  /** What a buffered commit puts into the current table. */
  lemma {:induction false} CommitAdds(t: Tran, s: Store, order: seq<Key>)
    requires s.tables != [] && Buffers(t.level) && Orders(order, t.temp.Keys)
    ensures var now := CommitStore(t, s, order, false);
            && Adds(s, now, t.id) && At(now, 0, Marker(t.id))
            && (forall k :: k in t.temp && k != [] ==> Somewhere(now.tables, Entry(k, t.temp[k], t.id)))
            && (forall i, x :: At(now, i, x) ==>
                  At(s, i, x) || x == Marker(t.id) || (x.tid == t.id && x.key in t.temp && x.value == t.temp[x.key]))
  {
    hide Sl.Put, WriteAll;
    var now := CommitStore(t, s, order, false);
    WriteAllMembers(s.tables[0], order, t.temp, t.id);
    PutMembers(WriteAll(s.tables[0], order, t.temp, t.id), Marker(t.id));
    assert now.tables[1..] == s.tables[1..];
    forall k | k in t.temp && k != [] ensures Somewhere(now.tables, Entry(k, t.temp[k], t.id)) {
      assert Entry(k, t.temp[k], t.id) in now.tables[0];
    }
  }

  /** What undoing `k` writes. */
  function Undo(t: Tran, k: Key): Entry
    requires k in t.rollback
  {
    match t.rollback[k]
    case Some(e) => Entry(k, e.value, e.tid)
    case None => Entry(k, [], t.id)
  }

  lemma {:induction false} RollbackAt(s: Store, t: Tran, order: seq<Key>, i: int, x: Entry)
    requires s.tables != [] && forall k :: k in order ==> k in t.rollback
    ensures var now := Rollback(s, t, order);
            && now.mem == s.mem
            && (At(now, i, x) ==> At(s, i, x) || exists k :: k in order && x == Undo(t, k))
            && (At(s, i, x) && (forall k :: k in order ==> !(x.key == k && x.tid == Undo(t, k).tid)) ==> At(now, i, x))
  {
    hide Write;
    if order != [] {
      var most, k := order[..|order| - 1], order[|order| - 1];
      assert order == most + [k];
      RollbackAt(s, t, most, i, x);
      WriteAdds(Rollback(s, t, most), Undo(t, k));
    }
  }

  // ---- where versions come from ---------------------------------------------------------------------

  ghost predicate Known(s: State, id: nat) { id in s.trans || id in s.plain }

  /** Every version, stored or saved for a rollback, carries an id that was handed out to a writer. */
  ghost predicate Sourced(s: State) {
    && (forall i, e :: At(s.store, i, e) ==> Known(s, e.tid))
    && (forall x, k :: x in s.trans && k in s.trans[x].rollback && s.trans[x].rollback[k].Some? ==>
                         Known(s, s.trans[x].rollback[k].value.tid))
  }

  lemma {:induction false} ReadIsKnown(s: State, k: Key, t: nat)
    requires Kept(s) && Sourced(s)
    ensures var r := EngineGet(s.store, k, t); r.Some? ==> Known(s, r.value.tid)
  {
    hide Known, KeySorted, Find, Books;
    FindMember(s.store, k, t);
    var r := EngineGet(s.store, k, t);
    if r.Some? {
      var i :| 0 <= i < |s.store.tables| && r.value in s.store.tables[i];
      assert At(s.store, i, r.value);
    }
  }

  lemma {:induction false} TransGrow(s: State, step: Step, id: nat)
    requires Kept(s)
    ensures Known(s, id) ==> Known(Do(s, step), id)
    ensures id in s.trans ==> id in Do(s, step).trans
    ensures id in Do(s, step).trans && id !in s.trans ==>
              step.Begin? && id == s.man.next && Do(s, step).trans[id] == NewTran(id, step.level)
  {
    hide Pending, Logged, KeySorted, AddAllFlushed, CommitStore, MayCommit, Write, Rollback, EngineGet, Markers,
         Fold, WriteBatch;
  }

  /** Where the entries of the next store come from. */
  lemma {:induction false} StepSources(s: State, step: Step, i: int, e: Entry)
    requires Kept(s) && Sourced(s) && At(Do(s, step).store, i, e)
    ensures Known(Do(s, step), e.tid)
  {
    hide KeySorted, Pending, Fold, Write, WriteAll, Rollback, EngineGet, MayCommit, AddAllFlushed, Markers, WriteBatch;
    TransGrow(s, step, e.tid);
    if Enabled(s, step) {
      match step
      case Put(id, k, v) => ChangeSources(s, id, PutRecord(id, k, v), i, e);
      case Remove(id, k) => ChangeSources(s, id, DeleteRecord(id, k), i, e);
      case Commit(id, order, testFail) => CommitSources(s, id, order, testFail, i, e);
      case Abort(id, order) => AbortSources(s, id, order, i, e);
      case PlainWrite(batch) => BatchAdds(s.store, batch, s.man.next); PlainKnown(s, step, batch);
      case FreezeTable => FreezeAt(s.store, i, e);
      case Flush => FreezeAt(s.store, i, e); FlushAt(s.store, i, e);
      case _ =>
    }
  }

  lemma PlainKnown(s: State, step: Step, batch: seq<(Key, Value)>)
    requires Ready(s) && step == PlainWrite(batch) && Enabled(s, step)
    ensures Known(Do(s, step), s.man.next)
  {
  }

  lemma {:induction false} ChangeSources(s: State, id: nat, r: Record, i: int, e: Entry)
    requires Kept(s) && Running(s, id) && At(DoChange(s, id, r).store, i, e)
    ensures At(s.store, i, e) || e.tid == id
  {
    hide Write, EngineGet, KeySorted;
    WriteAdds(s.store, Entry(r.key, r.value, id));
  }

  lemma {:induction false} CommitSources(s: State, id: nat, order: seq<Key>, testFail: bool, i: int, e: Entry)
    requires Kept(s) && Enabled(s, Commit(id, order, testFail)) && At(DoCommit(s, id, order, testFail).store, i, e)
    ensures At(s.store, i, e) || e.tid == id
  {
    hide Write, WriteAll, KeySorted, MayCommit;
    var t := s.trans[id];
    if Buffers(t.level) {
      CommitAdds(t, s.store, order);
    } else {
      WriteAdds(s.store, Marker(id));
    }
  }

  lemma {:induction false} AbortSources(s: State, id: nat, order: seq<Key>, i: int, e: Entry)
    requires Kept(s) && Sourced(s) && Enabled(s, Abort(id, order)) && At(Rollback(s.store, s.trans[id], order), i, e)
    ensures Known(s, e.tid)
  {
    hide Rollback, KeySorted, Logged, Pending;
    RollbackAt(s.store, s.trans[id], order, i, e);
  }

  lemma {:induction false} FreezeAt(s: Store, i: int, e: Entry)
    ensures At(Freeze(s), i, e) <==> At(s, i - 1, e)
  {
  }

  lemma {:induction false} FlushAt(s: Store, i: int, e: Entry)
    requires s.mem >= 1
    ensures At(FlushOldest(s), i, e) <==> At(if s.mem == 1 then Freeze(s) else s, i, e)
  {
  }

  lemma {:induction false} StepSavesKnown(s: State, step: Step, x: nat, k: Key)
    requires Kept(s) && Sourced(s) && x in Do(s, step).trans
    requires k in Do(s, step).trans[x].rollback && Do(s, step).trans[x].rollback[k].Some?
    ensures Known(Do(s, step), Do(s, step).trans[x].rollback[k].value.tid)
  {
    hide Do, EngineGet, MayCommit, KeySorted, Logged, Pending, Known;
    TransGrow(s, step, x);
    if x in s.trans {
      TranAfter(s, step, x);
      ReadIsKnown(s, k, 0);
      TransGrow(s, step, Do(s, step).trans[x].rollback[k].value.tid);
    }
  }

  lemma {:induction false} StepSourced(s: State, step: Step)
    requires Kept(s) && Sourced(s)
    ensures Sourced(Do(s, step))
  {
    hide Do, Known, At, Pending, Logged, KeySorted;
    var now := Do(s, step);
    forall i, e | At(now.store, i, e) ensures Known(now, e.tid) {
      StepSources(s, step, i, e);
    }
    forall x, k | x in now.trans && k in now.trans[x].rollback && now.trans[x].rollback[k].Some?
      ensures Known(now, now.trans[x].rollback[k].value.tid)
    {
      StepSavesKnown(s, step, x, k);
    }
  }

  lemma {:induction false} RunsSourced(steps: seq<Step>)
    ensures Sourced(After(steps))
  {
    hide Kept, Do, Sourced;
    if steps == [] {
      NothingStored();
    } else {
      RunsSourced(steps[..|steps| - 1]);
      StepSourced(After(steps[..|steps| - 1]), steps[|steps| - 1]);
    }
  }

  lemma NothingStored()
    ensures Sourced(Init())
  {
  }

  // ---- the invariant, step by step -----------------------------------------------------------------

  /** `id` has nothing in the store yet. */
  ghost predicate Silent(s: Store, id: nat) {
    forall i, e :: At(s, i, e) ==> e.tid != id
  }

  /** The two stores hold the same entries of `id`, in the same places. */
  ghost predicate SameFor(was: Store, now: Store, id: nat) {
    now.mem == was.mem && forall i, e: Entry :: e.tid == id ==> (At(was, i, e) <==> At(now, i, e))
  }

  lemma {:induction false} SameSomewhere(was: Store, now: Store, id: nat, e: Entry)
    requires SameFor(was, now, id) && e.tid == id
    ensures Somewhere(was.tables, e) <==> Somewhere(now.tables, e)
  {
    if Somewhere(was.tables, e) {
      var i :| 0 <= i < |was.tables| && e in was.tables[i];
      assert At(was, i, e) && At(now, i, e);
    }
    if Somewhere(now.tables, e) {
      var i :| 0 <= i < |now.tables| && e in now.tables[i];
      assert At(now, i, e) && At(was, i, e);
    }
  }

  /** A step of somebody else. */
  lemma {:induction false} OthersKeep(was: Store, now: Store, t: Tran, isReady: bool, isReady': bool)
    requires Marked(was, t, isReady) && SameFor(was, now, t.id) && (isReady ==> isReady')
    ensures Marked(now, t, isReady')
  {
    hide OwnedBy, At, Fold;
    SameSomewhere(was, now, t.id, Marker(t.id));
    if Written(was, t) {
      forall k | k in Writes(t) ensures Somewhere(now.tables, Entry(k, Writes(t)[k], t.id)) {
        SameSomewhere(was, now, t.id, Entry(k, Writes(t)[k], t.id));
      }
    }
  }

  lemma {:induction false} AddsSame(was: Store, now: Store, id: nat, x: nat)
    requires Adds(was, now, id) && x != id
    ensures SameFor(was, now, x)
  {
    hide Adds, At;
    AddsMem(was, now, id);
    forall i, e: Entry | e.tid == x ensures At(was, i, e) <==> At(now, i, e) {
      AddsAt(was, now, id, i, e);
    }
  }

  lemma AddsMem(was: Store, now: Store, id: nat)
    requires Adds(was, now, id)
    ensures now.mem == was.mem
  {
  }

  /** A transaction that has written nothing into the store. */
  lemma {:induction false} QuietHolds(s: Store, t: Tran, isReady: bool)
    requires Silent(s, t.id)
    requires !Buffers(t.level) && !t.aborted ==> Writes(t) == map[]
    requires t.committed ==> isReady
    ensures Marked(s, t, isReady)
  {
    forall i | 0 <= i < |s.tables| ensures Marker(t.id) !in s.tables[i] {
      assert At(s, i, Marker(t.id)) ==> Marker(t.id).tid != t.id;
    }
  }

  /** A step that adds entries of its own, with its marker or before it. */
  lemma {:induction false} LandedHolds(was: Store, now: Store, t: Tran, isReady: bool)
    requires Adds(was, now, t.id) && (forall i :: !At(was, i, Marker(t.id)))
    requires forall i, e :: At(now, i, e) && e.tid == t.id ==> OwnedBy(t, e)
    requires Written(now, t)
    requires if t.committed then isReady && At(now, 0, Marker(t.id)) else !At(now, 0, Marker(t.id))
    ensures Marked(now, t, isReady)
  {
    hide OwnedBy, Written, Adds;
    forall i | At(now, i, Marker(t.id)) ensures i == 0 {
      AddsAt(was, now, t.id, i, Marker(t.id));
    }
  }

  /** A running transaction has no marker, and at the buffering levels nothing at all. */
  lemma {:induction false} RunningIsUnmarked(s: State, id: nat)
    requires Kept(s) && MarkedFor(s, id) && Running(s, id)
    ensures forall i :: !At(s.store, i, Marker(id))
    ensures Buffers(s.trans[id].level) || Writes(s.trans[id]) == map[] ==> Silent(s.store, id)
  {
    hide MarkerFirst, MarkerReady, Durable, Accounted, Pending, KeySorted, Fold;
    forall i, e | At(s.store, i, e) && e.tid == id ensures OwnedBy(s.trans[id], e) {}
  }

  lemma {:induction false} DirectChange(s: State, id: nat, r: Record)
    requires Kept(s) && MarkedFor(s, id) && Running(s, id) && !Buffers(s.trans[id].level) && IsWrite(r, id)
    ensures MarkedFor(DoChange(s, id, r), id)
  {
    hide Write, EngineGet, Fold, KeySorted, Sound, Adds, MarkerFirst, MarkerReady, Accounted;
    var t, e := s.trans[id], Entry(r.key, r.value, id);
    var t', now := ChangeTran(t, s.store, r), Write(s.store, e);
    RunningIsUnmarked(s, id);
    LoggedChange(t, s.store, r);
    WriteAdds(s.store, e);
    forall i, x | At(now, i, x) && x.tid == id ensures OwnedBy(t', x) {
      assert At(s.store, i, x) ==> OwnedBy(t, x);
    }
    assert Written(now, t') by {
      forall k | k in Writes(t') ensures Somewhere(now.tables, Entry(k, Writes(t')[k], id)) {
        if k != r.key {
          assert Somewhere(s.store.tables, Entry(k, Writes(t)[k], id));
        }
      }
    }
    LandedHolds(s.store, now, t', id in s.man.ready);
  }

  lemma {:induction false} DirectCommit(s: State, id: nat)
    requires Kept(s) && MarkedFor(s, id) && Running(s, id) && !Buffers(s.trans[id].level)
    ensures Marked(Write(s.store, Marker(id)), CommitTran(s.trans[id]), true)
  {
    hide Write, Fold, KeySorted, Sound, Adds, MarkerFirst, MarkerReady, Accounted;
    var t := s.trans[id];
    var t', now := CommitTran(t), Write(s.store, Marker(id));
    RunningIsUnmarked(s, id);
    LoggedCommit(t);
    WriteAdds(s.store, Marker(id));
    forall i, x | At(now, i, x) && x.tid == id ensures OwnedBy(t', x) {
      assert At(s.store, i, x) ==> OwnedBy(t, x);
    }
    assert Written(now, t') by {
      forall k | k in Writes(t') ensures Somewhere(now.tables, Entry(k, Writes(t')[k], id)) {
        assert Somewhere(s.store.tables, Entry(k, Writes(t)[k], id));
      }
    }
    LandedHolds(s.store, now, t', true);
  }

  lemma {:induction false} BufferedCommit(s: State, id: nat, order: seq<Key>)
    requires Kept(s) && MarkedFor(s, id) && Enabled(s, Commit(id, order, false)) && Buffers(s.trans[id].level)
    ensures Marked(CommitStore(s.trans[id], s.store, order, false), CommitTran(s.trans[id]), true)
  {
    hide CommitStore, Fold, KeySorted, Sound, Marked, Adds;
    var t := s.trans[id];
    var t', now := CommitTran(t), CommitStore(t, s.store, order, false);
    RunningIsUnmarked(s, id);
    LoggedCommit(t);
    CommitAdds(t, s.store, order);
    forall i, x | At(now, i, x) && x.tid == id ensures OwnedBy(t', x) {
      assert !At(s.store, i, x);
    }
    LandedHolds(s.store, now, t', true);
  }

  lemma {:induction false} CommitHolds(s: State, id: nat, order: seq<Key>, testFail: bool)
    requires Kept(s) && MarkedFor(s, id) && Enabled(s, Commit(id, order, testFail))
    ensures MarkedFor(DoCommit(s, id, order, testFail), id)
  {
    hide Conflict, Fold, KeySorted, Sound, Marked, Write, WriteAll;
    var t := s.trans[id];
    RunningIsUnmarked(s, id);
    if MayCommit(t, s.store, s.man) {
      if !Buffers(t.level) {
        DirectCommit(s, id);
      } else if testFail {
        QuietHolds(s.store, CommitTran(t), true);
      } else {
        BufferedCommit(s, id, order);
      }
    } else {
      QuietHolds(s.store, AbortTran(t), true);
    }
  }

  lemma {:induction false} CommitOthers(s: State, id: nat, order: seq<Key>, testFail: bool, x: nat)
    requires Kept(s) && MarkedFor(s, x) && Enabled(s, Commit(id, order, testFail)) && x != id
    ensures MarkedFor(DoCommit(s, id, order, testFail), x)
  {
    hide MayCommit, Fold, KeySorted, Sound, Marked, Write, WriteAll, Adds;
    var t := s.trans[id];
    if Buffers(t.level) {
      CommitAdds(t, s.store, order);
      AddsSame(s.store, CommitStore(t, s.store, order, false), id, x);
    } else {
      WriteAdds(s.store, Marker(id));
      AddsSame(s.store, Write(s.store, Marker(id)), id, x);
    }
    if x in s.trans {
      StoreOthers(s, DoCommit(s, id, order, testFail), x);
    }
  }

  lemma {:induction false} StoreOthers(s: State, now: State, x: nat)
    requires MarkedFor(s, x) && x in s.trans && x in now.trans && now.trans[x] == s.trans[x] && s.trans[x].id == x
    requires now.store == s.store || SameFor(s.store, now.store, x)
    requires x in s.man.ready ==> x in now.man.ready
    ensures MarkedFor(now, x)
  {
    hide Marked;
    if now.store == s.store {
      SameAsItself(s.store, x);
    }
    OthersKeep(s.store, now.store, s.trans[x], x in s.man.ready, x in now.man.ready);
  }

  lemma SameAsItself(s: Store, id: nat)
    ensures SameFor(s, s, id)
  {
  }

  lemma {:induction false} ChangeHolds(s: State, id: nat, r: Record, x: nat)
    requires Kept(s) && MarkedFor(s, x) && Running(s, id) && IsWrite(r, id)
    ensures MarkedFor(DoChange(s, id, r), x)
  {
    hide Fold, KeySorted, Sound, Marked, Write, EngineGet, Adds;
    if x != id {
      WriteAdds(s.store, Entry(r.key, r.value, id));
      AddsSame(s.store, Write(s.store, Entry(r.key, r.value, id)), id, x);
      if x in s.trans {
        StoreOthers(s, DoChange(s, id, r), x);
      }
    } else if Buffers(s.trans[id].level) {
      RunningIsUnmarked(s, id);
      QuietHolds(s.store, ChangeTran(s.trans[id], s.store, r), id in s.man.ready);
    } else {
      DirectChange(s, id, r);
    }
  }

  /** A call that leaves the store, the log of writes and the outcome alone. */
  lemma {:induction false} HarmlessHolds(s: Store, t: Tran, t': Tran, isReady: bool)
    requires Marked(s, t, isReady) && t'.id == t.id && Writes(t') == Writes(t)
    requires t'.level == t.level && t'.committed == t.committed && t'.aborted == t.aborted
    ensures Marked(s, t', isReady)
  {
    hide Fold, At;
  }

  lemma {:induction false} GetHolds(s: State, id: nat, k: Key, x: nat)
    requires Kept(s) && MarkedFor(s, x) && Running(s, id)
    ensures MarkedFor(Do(s, Get(id, k)), x)
  {
    hide Fold, KeySorted, Sound, Marked, EngineGet;
    if x == id {
      HarmlessHolds(s.store, s.trans[id], GetTran(s.trans[id], s.store, k), id in s.man.ready);
    }
  }

  lemma {:induction false} LogFailsHolds(s: State, id: nat, x: nat)
    requires Kept(s) && MarkedFor(s, x) && Running(s, id)
    ensures MarkedFor(Do(s, LogFails(id)), x)
  {
    hide Fold, KeySorted, Sound, Marked, MayCommit;
    if x == id {
      LoggedCommit(s.trans[id]);
      HarmlessHolds(s.store, s.trans[id], LogTran(s.trans[id]), id in s.man.ready);
    }
  }

  lemma {:induction false} BeginHolds(s: State, level: Level, x: nat)
    requires Kept(s) && MarkedFor(s, x) && Sourced(s)
    ensures MarkedFor(Do(s, Begin(level)), x)
  {
    hide Fold, KeySorted, Marked, At, Pending;
    if x == s.man.next {
      LoggedNew(x, level);
      NextIsSilent(s);
      QuietHolds(s.store, NewTran(x, level), x in s.man.ready);
    }
  }

  lemma NextIsSilent(s: State)
    requires Kept(s) && Sourced(s)
    ensures Silent(s.store, s.man.next)
  {
    hide At, KeySorted, Logged, Pending;
  }

  lemma {:induction false} PlainHolds(s: State, batch: seq<(Key, Value)>, x: nat)
    requires Kept(s) && MarkedFor(s, x) && Enabled(s, PlainWrite(batch))
    ensures MarkedFor(Do(s, PlainWrite(batch)), x)
  {
    hide Fold, KeySorted, Marked, WriteBatch, Pending, Adds;
    if x in s.trans {
      BatchAdds(s.store, batch, s.man.next);
      AddsSame(s.store, WriteBatch(s.store, batch, s.man.next), s.man.next, x);
      StoreOthers(s, Do(s, PlainWrite(batch)), x);
    }
  }

  lemma OrdersNothing(order: seq<Key>, keys: set<Key>)
    requires Orders(order, keys)
    ensures order != [] ==> keys != {}
  {
    if order != [] {
      assert order[0] in keys;
    }
  }

  lemma {:induction false} AbortSelf(s: State, id: nat, order: seq<Key>)
    requires Kept(s) && MarkedFor(s, id) && Enabled(s, Abort(id, order))
    ensures Marked(Rollback(s.store, s.trans[id], order), AbortTran(s.trans[id]), true)
  {
    hide Fold, KeySorted, Sound, Rollback, MarkerFirst, MarkerReady, Durable, Accounted, Marked;
    var t := s.trans[id];
    RunningIsUnmarked(s, id);
    if Buffers(t.level) {
      OrdersNothing(order, t.rollback.Keys);
      ShapedRollback(s.store, t, order);
      QuietHolds(s.store, AbortTran(t), true);
    } else {
      UndoneHolds(s.store, Rollback(s.store, t, order), s, id, order);
    }
  }

  lemma {:induction false} UndoneHolds(was: Store, now: Store, s: State, id: nat, order: seq<Key>)
    requires Kept(s) && MarkedFor(s, id) && Enabled(s, Abort(id, order)) && !Buffers(s.trans[id].level)
    requires was == s.store && now == Rollback(was, s.trans[id], order)
    ensures Marked(now, AbortTran(s.trans[id]), true)
  {
    hide Fold, KeySorted, Sound, Rollback, MarkerFirst, MarkerReady, Durable, Accounted;
    var t := s.trans[id];
    RunningIsUnmarked(s, id);
    assert t.rollback.Keys == Writes(t).Keys && [] !in Writes(t) by { assert Logged(t); }
    forall i, e | At(now, i, e) && e.tid == id ensures OwnedBy(AbortTran(t), e) && e != Marker(id) {
      RollbackAt(was, t, order, i, e);
    }
    UnmarkedAborted(now, AbortTran(t));
  }

  lemma UnmarkedAborted(s: Store, t: Tran)
    requires Owned(s, t) && t.aborted && !t.committed && forall i :: !At(s, i, Marker(t.id))
    ensures Marked(s, t, true)
  {
    forall i | 0 <= i < |s.tables| ensures Marker(t.id) !in s.tables[i] {
      assert !At(s, i, Marker(t.id));
    }
  }

  lemma {:induction false} AbortOthers(s: State, id: nat, order: seq<Key>, x: nat)
    requires Kept(s) && MarkedFor(s, x) && Enabled(s, Abort(id, order)) && x != id
    requires forall k :: k in s.trans[id].rollback ==> !SavesFrom(s.trans[id], k, x)
    ensures MarkedFor(Do(s, Abort(id, order)), x)
  {
    hide Fold, KeySorted, Sound, Rollback, Marked, At, Logged;
    var t := s.trans[id];
    var now := Rollback(s.store, t, order);
    RollbackAt(s.store, t, order, 0, Marker(0));
    forall i, e: Entry | e.tid == x ensures At(s.store, i, e) <==> At(now, i, e) {
      RollbackAt(s.store, t, order, i, e);
    }
    if x in s.trans {
      StoreOthers(s, Do(s, Abort(id, order)), x);
    }
  }

  lemma {:induction false} FreezeSomewhere(s: Store, e: Entry)
    ensures Somewhere(Freeze(s).tables, e) <==> Somewhere(s.tables, e)
  {
    if Somewhere(s.tables, e) {
      var i :| 0 <= i < |s.tables| && e in s.tables[i];
      assert e in Freeze(s).tables[i + 1];
    }
  }

  lemma {:induction false} FreezeHolds(s: Store, t: Tran, isReady: bool)
    requires Marked(s, t, isReady)
    ensures Marked(Freeze(s), t, isReady)
  {
    hide Fold, OwnedBy, At;
    forall i, e ensures At(Freeze(s), i, e) <==> At(s, i - 1, e) { FreezeAt(s, i, e); }
    forall e ensures Somewhere(Freeze(s).tables, e) <==> Somewhere(s.tables, e) { FreezeSomewhere(s, e); }
  }

  /** The oldest memory table is handed over; `leaves` says whether it holds the marker of `t`. */
  lemma {:induction false} HandOver(s: Store, t: Tran, isReady: bool, isReady': bool)
    requires Marked(s, t, isReady) && 1 < s.mem <= |s.tables|
    requires isReady' ==> isReady && !At(s, s.mem - 1, Marker(t.id))
    requires isReady && !isReady' ==> At(s, s.mem - 1, Marker(t.id)) || !t.committed
    ensures Marked(s.(mem := s.mem - 1), t, isReady')
  {
    hide Fold;
    var f := s.(mem := s.mem - 1);
    forall i, e ensures At(f, i, e) <==> At(s, i, e) {}
    forall i | At(f, i, Marker(t.id)) && i < f.mem ensures isReady' {
      assert At(s, i, Marker(t.id)) && Marker(t.id).tid == t.id;
      assert OwnedBy(t, Marker(t.id));
    }
    if t.committed && isReady && At(s, f.mem, Marker(t.id)) {
      assert Marker(t.id) in f.tables[f.mem];
    }
  }

  /** The flushed table's markers are the ids that leave the ready map. */
  lemma {:induction false} FlushHolds(s: State, x: nat)
    requires Kept(s) && MarkedFor(s, x)
    ensures MarkedFor(Do(s, Flush), x)
  {
    hide Fold, KeySorted, Marked, Markers, AddAllFlushed, Pending, Logged;
    if x in s.trans {
      var t := s.trans[x];
      FreezeHolds(s.store, t, x in s.man.ready);
      var from := if s.store.mem == 1 then Freeze(s.store) else s.store;
      var f := FlushOldest(s.store);
      var ids := Markers(f.tables[f.mem]);
      AddAllFlushedMeaning(s.man, ids);
      MarkersMember(f.tables[f.mem], x);
      HandOver(from, t, x in s.man.ready, x in AddAllFlushed(s.man, ids).ready);
    }
  }

  // ---- every run ---------------------------------------------------------------------------------

  lemma {:induction false} AbortHolds(s: State, id: nat, order: seq<Key>, x: nat)
    requires Kept(s) && MarkedFor(s, x) && Enabled(s, Abort(id, order)) && NotRestored(Do(s, Abort(id, order)), x)
    ensures MarkedFor(Do(s, Abort(id, order)), x)
  {
    hide Fold, KeySorted, Sound, Rollback, Marked, Logged;
    if x == id {
      AbortSelf(s, id, order);
    } else {
      assert Do(s, Abort(id, order)).trans[id] == AbortTran(s.trans[id]);
      forall k | k in s.trans[id].rollback ensures !SavesFrom(s.trans[id], k, x) {
        assert !SavesFrom(AbortTran(s.trans[id]), k, x);
      }
      AbortOthers(s, id, order, x);
    }
  }

  /** Every step keeps the invariant of every transaction of which no version has been put back. */
  lemma {:induction false} StepHolds(s: State, step: Step, x: nat)
    requires Kept(s) && Sourced(s) && MarkedFor(s, x) && NotRestored(Do(s, step), x)
    ensures MarkedFor(Do(s, step), x)
  {
    hide Pending, Logged, KeySorted, Marked, Sourced, NotRestored, DoCommit, DoFlush, DoChange, Rollback, GetTran,
         WriteBatch, MayCommit;
    if Enabled(s, step) {
      match step
      case Begin(level) => BeginHolds(s, level, x);
      case SkipId =>
      case PlainWrite(batch) => PlainHolds(s, batch, x);
      case Put(id, k, v) => ChangeHolds(s, id, PutRecord(id, k, v), x);
      case Remove(id, k) => ChangeHolds(s, id, DeleteRecord(id, k), x);
      case Get(id, k) => GetHolds(s, id, k, x);
      case Commit(id, order, testFail) =>
        if x == id { CommitHolds(s, id, order, testFail); } else { CommitOthers(s, id, order, testFail, x); }
      case LogFails(id) => LogFailsHolds(s, id, x);
      case Abort(id, order) => AbortHolds(s, id, order, x);
      case FreezeTable => if x in s.trans { FreezeHolds(s.store, s.trans[x], x in s.man.ready); }
      case Flush => FlushHolds(s, x);
    }
  }

  lemma {:induction false} RestoredStays(s: State, step: Step, id: nat)
    requires Kept(s) && NotRestored(Do(s, step), id)
    ensures NotRestored(s, id)
  {
    hide Do, EngineGet, MayCommit, KeySorted, Logged, Pending, SavesFrom;
    forall x, k | x in s.trans && s.trans[x].aborted && k in s.trans[x].rollback ensures !SavesFrom(s.trans[x], k, id) {
      TranAfter(s, step, x);
      assert Do(s, step).trans[x] == s.trans[x];
    }
  }

  lemma {:induction false} RunsHoldFor(steps: seq<Step>, id: nat)
    requires NotRestored(After(steps), id)
    ensures MarkedFor(After(steps), id)
  {
    hide Kept, Do, NotRestored, MarkedFor, Sourced;
    if steps == [] {
      NobodyYet(id);
    } else {
      var most, last := steps[..|steps| - 1], steps[|steps| - 1];
      assert steps == most + [last];
      AfterStep(most, last);
      RestoredStays(After(most), last, id);
      RunsSourced(most);
      RunsHoldFor(most, id);
      StepHolds(After(most), last, id);
    }
  }

  lemma NobodyYet(id: nat)
    ensures MarkedFor(Init(), id)
  {
  }

  /** Everything `id` wrote is in the files, its last write to each key among it. */
  ghost predicate InFiles(s: State, id: nat)
    requires id in s.trans
  {
    && (forall i, e :: At(s.store, i, e) && e.tid == id ==> i >= s.store.mem)
    && (forall k :: k in Writes(s.trans[id]) ==>
          exists i :: i >= s.store.mem && At(s.store, i, Entry(k, Writes(s.trans[id])[k], id)))
  }

  lemma {:induction false} FlushedWhenSettled(s: State, id: nat)
    requires Kept(s) && MarkedFor(s, id) && id in s.trans && s.trans[id].committed && id !in s.man.ready
    ensures InFiles(s, id)
  {
    hide Fold, KeySorted, OwnedBy, Logged, Pending;
    assert Somewhere(s.store.tables, Marker(id));
    var m :| 0 <= m < |s.store.tables| && Marker(id) in s.store.tables[m];
    assert At(s.store, m, Marker(id));
    assert m >= s.store.mem;
    forall i, e | At(s.store, i, e) && e.tid == id ensures i >= s.store.mem {
      assert At(s.store, m, Marker(id));
    }
    forall k | k in Writes(s.trans[id])
      ensures exists i :: i >= s.store.mem && At(s.store, i, Entry(k, Writes(s.trans[id])[k], id))
    {
      var e := Entry(k, Writes(s.trans[id])[k], id);
      assert Somewhere(s.store.tables, e);
      var i :| 0 <= i < |s.store.tables| && e in s.store.tables[i];
      assert At(s.store, i, e);
    }
  }

  /** In every run, a committed transaction at or below the checkpoint has all its writes in files,
      unless some rollback has put one of its versions back. */
  lemma {:induction false} CheckpointIsSafe(steps: seq<Step>, id: nat)
    requires id in After(steps).trans && After(steps).trans[id].committed
    requires id <= Min(After(steps).man.flushed) && NotRestored(After(steps), id)
    ensures InFiles(After(steps), id)
  {
    hide Do, NotRestored, Marked;
    RunsHoldFor(steps, id);
    FlushedWhenSettled(After(steps), id);
  }

  // ---- all transactions at once ---------------------------------------------------------------------

  /** No transaction has undone direct writes. */
  ghost predicate NothingUndone(s: State) {
    forall id :: id in s.trans && s.trans[id].aborted ==> s.trans[id].rollback == map[]
  }

  ghost predicate Settles(s: State) {
    Sourced(s) && forall id :: MarkedFor(s, id)
  }

  lemma {:induction false} RunsHold(steps: seq<Step>)
    requires NothingUndone(After(steps))
    ensures Settles(After(steps))
  {
    hide Kept, Do, MarkedFor, Sourced;
    RunsSourced(steps);
    forall id ensures MarkedFor(After(steps), id) {
      RunsHoldFor(steps, id);
    }
  }

  lemma OwnedNow(s: State, i: int, x: Entry)
    requires Settles(s)
    ensures At(s.store, i, x) ==> Known(s, x.tid)
    ensures At(s.store, i, x) && x.tid in s.trans && s.trans[x.tid].id == x.tid ==> OwnedBy(s.trans[x.tid], x)
  {
    assert MarkedFor(s, x.tid);
  }
}
