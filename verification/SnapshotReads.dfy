/** What transactions read, over every interleaving. */
module SnapshotReads {
  import opened Keys
  import opened Entries
  import opened WalRecords
  import opened VersionStore
  import opened Checkpoint
  import opened Transactions
  import opened TransactionRuns
  import opened CheckpointSafety
  import opened CommitOrder
  import Sl = SkipListSpec

  /** No transaction has written directly into the store. */
  ghost predicate NoDirectWriters(s: State) {
    forall id :: id in s.trans && !Buffers(s.trans[id].level) ==> Writes(s.trans[id]) == map[]
  }

  /** `e` is what a committed transaction last wrote to a key. */
  ghost predicate CommittedVersion(s: State, e: Entry) {
    && e.tid in s.trans && s.trans[e.tid].committed
    && e.key in Writes(s.trans[e.tid]) && Writes(s.trans[e.tid])[e.key] == e.value
  }

  /** What everybody may read: a committed version, or one written outside any transaction. */
  ghost predicate Public(s: State, e: Entry) {
    CommittedVersion(s, e) || e.tid in s.plain
  }

  ghost predicate Remembered(s: State, id: nat, k: Key, q: Option<Entry>) {
    q.Some? ==> q.value.key == k && q.value.tid <= id && Public(s, q.value)
  }

  /** What a transaction remembers having read was committed and visible to it. */
  ghost predicate Cached(s: State) {
    forall id, k :: id in s.trans && k in s.trans[id].read ==> Remembered(s, id, k, s.trans[id].read[k])
  }

  /** An engine read in such a run returns a committed version. */
  lemma {:induction false} EngineReadsCommitted(s: State, k: Key, t: nat)
    requires Kept(s) && Settles(s) && NoDirectWriters(s)
    ensures var r := EngineGet(s.store, k, t);
            r.Some? ==> r.value.key == k && Visible(r.value, t) && Public(s, r.value)
  {
    hide Fold, KeySorted, Find, Sound, Pending;
    var r := EngineGet(s.store, k, t);
    FindMember(s.store, k, t);
    if r.Some? {
      var i :| 0 <= i < |s.store.tables| && r.value in s.store.tables[i];
      OwnedNow(s, i, r.value);
    }
  }

  lemma {:induction false} FinishedStays(s: State, step: Step, id: nat)
    requires Kept(s) && id in s.trans && !Active(s.trans[id])
    ensures id in Do(s, step).trans && Do(s, step).trans[id] == s.trans[id]
  {
    hide Do, EngineGet, MayCommit, KeySorted, Logged, Pending;
    TranAfter(s, step, id);
  }

  lemma {:induction false} RememberedStays(s: State, step: Step, id: nat, k: Key, q: Option<Entry>)
    requires Kept(s) && Remembered(s, id, k, q)
    ensures Remembered(Do(s, step), id, k, q)
  {
    hide Kept, Do, Fold, Ready;
    PlainGrows(s, step);
    if q.Some? && CommittedVersion(s, q.value) {
      FinishedStays(s, step, q.value.tid);
    }
  }

  lemma {:induction false} StepCached(s: State, step: Step)
    requires Kept(s) && Settles(s) && NoDirectWriters(s) && Cached(s)
    ensures Cached(Do(s, step))
  {
    hide Remembered, Settles, Fold, Logged, Pending, KeySorted, EngineGet, DoFlush, DoCommit, DoChange, Rollback;
    var now := Do(s, step);
    forall id, k | id in now.trans && k in now.trans[id].read ensures Remembered(now, id, k, now.trans[id].read[k]) {
      if step.Get? && step.id == id && Enabled(s, step) {
        NewlyRead(s, id, step.k, k);
      } else {
        UnreadStays(s, step, id);
        RememberedStays(s, step, id, k, s.trans[id].read[k]);
      }
    }
  }

  lemma {:induction false} UnreadStays(s: State, step: Step, id: nat)
    requires Kept(s) && id in Do(s, step).trans && !(step.Get? && step.id == id && Enabled(s, step))
    ensures if id in s.trans then Do(s, step).trans[id].read == s.trans[id].read
            else Do(s, step).trans[id].read == map[]
  {
    hide EngineGet, MayCommit, KeySorted, Logged, Pending, Write, CommitStore, Rollback, Markers, AddAllFlushed;
    if id in s.trans {
      TranAfter(s, step, id);
    }
  }

  lemma {:induction false} NewlyRead(s: State, id: nat, k: Key, j: Key)
    requires Kept(s) && Settles(s) && NoDirectWriters(s) && Cached(s) && Running(s, id)
    requires j in Do(s, Get(id, k)).trans[id].read
    ensures Remembered(Do(s, Get(id, k)), id, j, Do(s, Get(id, k)).trans[id].read[j])
  {
    hide EngineGet, Settles, Fold, KeySorted, Pending, NoDirectWriters;
    var t, now := s.trans[id], Do(s, Get(id, k));
    assert now.trans[id] == GetTran(t, s.store, k);
    IdsArePositive(s, id);
    if j in t.read {
      assert Remembered(s, id, j, t.read[j]);
      RememberedStays(s, Get(id, k), id, j, t.read[j]);
    }
    EngineReadsCommitted(s, k, id);
    if j == k && k !in t.temp && Checks(t.level) && k !in t.read {
      RememberedStays(s, Get(id, k), id, k, EngineGet(s.store, k, id));
    }
  }

  /** Id 0 stands for "no transaction" and is flushed from the start. */
  lemma IdsArePositive(s: State, id: nat)
    requires Kept(s) && Running(s, id)
    ensures id > 0
  {
    assert Pending(s.man, id);
  }

  lemma {:induction false} NoDirectBefore(s: State, step: Step)
    requires Kept(s) && NoDirectWriters(Do(s, step))
    ensures NoDirectWriters(s)
  {
    hide Kept, Do, Fold, Ready;
    forall id | id in s.trans && !Buffers(s.trans[id].level) ensures Writes(s.trans[id]) == map[] {
      WritesStay(s, step, id);
      assert Writes(s.trans[id]).Keys <= {};
    }
  }

  lemma {:induction false} NoDirectIsUndoFree(s: State)
    requires Kept(s) && NoDirectWriters(s)
    ensures NothingUndone(s)
  {
    hide Fold, KeySorted, Sound, Pending;
    forall id | id in s.trans && s.trans[id].aborted ensures s.trans[id].rollback == map[] {
      assert Logged(s.trans[id]);
      assert !Buffers(s.trans[id].level) ==> s.trans[id].rollback.Keys == {};
    }
  }

  lemma {:induction false} RunsCached(steps: seq<Step>)
    requires NoDirectWriters(After(steps))
    ensures Settles(After(steps)) && Cached(After(steps))
  {
    hide Kept, Do, NoDirectWriters, NothingUndone, Settles, Remembered;
    NoDirectIsUndoFree(After(steps));
    RunsHold(steps);
    if steps != [] {
      var most, last := steps[..|steps| - 1], steps[|steps| - 1];
      assert steps == most + [last];
      AfterStep(most, last);
      NoDirectBefore(After(most), last);
      RunsCached(most);
      StepCached(After(most), last);
    }
  }

  /** In every run without direct writers, a value that a transaction reads is its own last write to
      the key, the last write of a committed transaction or a write outside any transaction, and unless it
      reads uncommitted the id of that write is at or below its own. */
  lemma {:induction false} ReadsAreOwnOrCommitted(steps: seq<Step>, id: nat, k: Key)
    requires NoDirectWriters(After(steps)) && Running(After(steps), id)
    ensures var s := After(steps);
            var t := s.trans[id];
            var a := GetAnswer(t, s.store, k);
            && (k in Writes(t) && Buffers(t.level) ==> a == Some(Writes(t)[k]))
            && (k !in Writes(t) && a.Some? ==>
                  exists e :: Public(s, e) && e.key == k && e.value == a.value && (Buffers(t.level) ==> e.tid <= id))
  {
    hide Do, Fold, KeySorted, EngineGet, Settles, NoDirectWriters, Public, Pending;
    RunsCached(steps);
    var s := After(steps);
    var t := s.trans[id];
    assert Logged(t);
    IdsArePositive(s, id);
    EngineReadsCommitted(s, k, 0);
    EngineReadsCommitted(s, k, id);
    var q := Query(t, s.store, k);
    if Checks(t.level) && k in t.read {
      assert Remembered(s, id, k, t.read[k]);
    }
    if k !in Writes(t) && q.Some? {
      assert Public(s, q.value);
    }
  }

  // ---- what a read answers -------------------------------------------------------------------------------

  function Shown(e: Option<Entry>): Option<Value> { if e.Some? then Some(e.value.value) else None }

  /** The answer at every level: the own buffered write; at READ_UNOP_COMMITTED the latest version of all; at
      the checking levels what was read before; and otherwise the newest version visible to the transaction,
      unless a memory table shadows it. A deletion answers nothing. */
  lemma {:induction false} AnswerIs(t: Tran, s: Store, k: Key)
    requires Shaped(s)
    ensures var a, st := GetAnswer(t, s, k), Stack(s.tables, k);
            && (k in t.temp ==> a == Some(t.temp[k]))
            && (k !in t.temp && t.level.ReadUncommitted? ==>
                  a == if st == [] || st[0].value == [] then None else Some(st[0].value))
            && (k !in t.temp && Checks(t.level) && k in t.read ==> a == Shown(t.read[k]))
            && (k !in t.temp && !t.level.ReadUncommitted? && !(Checks(t.level) && k in t.read) &&
                Unshadowed(s, k, t.id) ==>
                  a == Shown(ValueOf(FirstVisible(st, t.id))))
  {
    hide KeySorted, Stack, EngineGet, FirstVisible, Unshadowed;
    EngineGetIs(s, k, t.id);
  }

  /** In every run: a first read at any level but the lowest finds the newest version visible to the reader, if no
      memory table shadows it, and a read at the lowest level finds the latest version of all. */
  lemma {:induction false} RunsAnswer(steps: seq<Step>, id: nat, k: Key)
    requires Running(After(steps), id) && k !in Writes(After(steps).trans[id])
    ensures var s := After(steps);
            var t, st := s.trans[id], Stack(s.store.tables, k);
            && (t.level.ReadUncommitted? ==>
                  GetAnswer(t, s.store, k) == if st == [] || st[0].value == [] then None else Some(st[0].value))
            && (!t.level.ReadUncommitted? && k !in t.read && Unshadowed(s.store, k, id) ==>
                  GetAnswer(t, s.store, k) == Shown(ValueOf(FirstVisible(st, id))))
  {
    hide Do, Fold, KeySorted, Stack, EngineGet, FirstVisible, Unshadowed, Pending, GetAnswer;
    var s := After(steps);
    assert Logged(s.trans[id]);
    AnswerIs(s.trans[id], s.store, k);
  }

  /** One stored version and a reader that may see it: every level answers with it. */
  lemma {:induction false} EveryLevelFinds(level: Level)
    ensures GetAnswer(NewTran(2, level), Store([[Entry([1], [7], 1)]], 1), [1]) == Some([7])
  {
    var e := Entry([1], [7], 1);
    var table := [e];
    var s := Store([table], 1);
    assert KeySorted(table);
    assert table[1..] == [] && Versions(table, [1]) == [e] && s.tables[1..] == [] && s.tables[..1] == s.tables;
    assert Stack(s.tables, [1]) == [e];
    assert FirstVisible([e], 2) == Some(e);
    AnswerIs(NewTran(2, level), s, [1]);
  }

  /** Which levels remember a first read, refuse to commit over a newer version, and write at once. */
  lemma {:induction false} LevelsDiffer(level: Level)
    ensures var s := Store([[Entry([1], [7], 3)]], 1);
            var t := NewTran(4, level).(read := map[[1] := Some(Entry([1], [9], 1))]);
            GetAnswer(t, s, [1]) == Some(if level == RepeatableRead || level == Serializable then [9] else [7])
    ensures var s := Store([[Entry([1], [7], 3)]], 1);
            MayCommit(NewTran(2, level).(temp := map[[1] := [8]]), s, FreshManager()) <==>
            level != RepeatableRead && level != Serializable
    ensures var s := Store([[Entry([1], [7], 3)]], 1);
            ChangeStore(NewTran(4, level), s, PutRecord(4, [1], [8])) ==
            if level == ReadUncommitted then Store([[Entry([1], [8], 4), Entry([1], [7], 3)]], 1) else s
  {
    var e := Entry([1], [7], 3);
    var table := [e];
    var s := Store([table], 1);
    assert KeySorted(table);
    assert table[1..] == [] && Versions(table, [1]) == [e] && s.tables[1..] == [] && s.tables[..1] == s.tables;
    assert Stack(s.tables, [1]) == [e];
    assert FirstVisible([e], 4) == Some(e);
    var both := [Entry([1], [8], 4), e];
    assert Sl.Put(table, Entry([1], [8], 4)) == both;
    assert s.tables[0 := both] == [both];
    AnswerIs(NewTran(4, level).(read := map[[1] := Some(Entry([1], [9], 1))]), s, [1]);
    var t := NewTran(2, level).(temp := map[[1] := [8]]);
    assert MemGet(s.tables[..1], [1], 0) == Some(e);
    assert [1] in t.temp && Conflict(t, s, FreshManager(), [1]);
  }

  // ---- repeatable reads ------------------------------------------------------------------------------

  /** The answer to a read of `k` no longer depends on the store. */
  ghost predicate Pinned(t: Tran, k: Key) {
    Checks(t.level) && (k in t.temp || k in t.read)
  }

  predicate WritesKey(step: Step, id: nat, k: Key) {
    (step.Put? || step.Remove?) && step.id == id && step.k == k
  }

  lemma {:induction false} PinnedStep(s: State, step: Step, id: nat, k: Key)
    requires Kept(s) && id in s.trans && Pinned(s.trans[id], k) && !WritesKey(step, id, k)
    ensures var now := Do(s, step);
            && Kept(now) && id in now.trans && Pinned(now.trans[id], k)
            && GetAnswer(now.trans[id], now.store, k) == GetAnswer(s.trans[id], s.store, k)
  {
    StepKeeps(s, step);
    PinnedTran(s, step, id, k);
  }

  lemma {:induction false} PinnedTran(s: State, step: Step, id: nat, k: Key)
    requires Kept(s) && id in s.trans && Pinned(s.trans[id], k) && !WritesKey(step, id, k)
    ensures var t, now := s.trans[id], Do(s, step).trans;
            && id in now && now[id].level == t.level && (k in now[id].temp <==> k in t.temp)
            && (k in t.temp ==> now[id].temp[k] == t.temp[k])
            && (k in t.read ==> k in now[id].read && now[id].read[k] == t.read[k])
  {
    hide Do, EngineGet, MayCommit, KeySorted, Logged, Pending;
    TranAfter(s, step, id);
  }

  lemma {:induction false} PinnedRun(steps: seq<Step>, more: seq<Step>, id: nat, k: Key)
    requires id in After(steps).trans && Pinned(After(steps).trans[id], k)
    requires forall i :: 0 <= i < |more| ==> !WritesKey(more[i], id, k)
    ensures var s, now := After(steps), After(steps + more);
            && id in now.trans && Pinned(now.trans[id], k)
            && GetAnswer(now.trans[id], now.store, k) == GetAnswer(s.trans[id], s.store, k)
  {
    hide Do, Pinned, GetAnswer, WritesKey, Books;
    if more == [] {
      assert steps + more == steps;
    } else {
      var most, last := more[..|more| - 1], more[|more| - 1];
      PinnedRun(steps, most, id, k);
      assert steps + more == (steps + most) + [last];
      AfterStep(steps + most, last);
      PinnedStep(After(steps + most), last, id, k);
    }
  }

  /** At REPEATABLE_READ and SERIALIZABLE, whatever happens between two reads of a key by one
      transaction, they agree unless the transaction wrote the key itself. */
  lemma {:induction false} ReadsRepeat(steps: seq<Step>, more: seq<Step>, id: nat, k: Key)
    requires Running(After(steps), id) && Checks(After(steps).trans[id].level)
    requires forall i :: 0 <= i < |more| ==> !WritesKey(more[i], id, k)
    ensures var s, now := After(steps), After(steps + [Get(id, k)] + more);
            && id in now.trans
            && GetAnswer(now.trans[id], now.store, k) == GetAnswer(s.trans[id], s.store, k)
  {
    hide EngineGet, Books, Pending, KeySorted, WritesKey;
    var s := After(steps);
    AfterStep(steps, Get(id, k));
    var read := After(steps + [Get(id, k)]);
    assert read.trans[id] == GetTran(s.trans[id], s.store, k);
    PinnedRun(steps + [Get(id, k)], more, id, k);
  }
}
