/** Runs that show what the conditions of the ordering theorems are for. */
module OrderWitnesses {
  import opened Keys
  import opened Entries
  import opened IdSets
  import opened WalRecords
  import opened VersionStore
  import opened Checkpoint
  import opened Transactions
  import opened TransactionRuns
  import opened CheckpointSafety
  import opened CommitOrder
  import Sl = SkipListSpec

  const K: Key := [1]

  /** Nobody writes directly and nobody has aborted. */
  ghost predicate Calm(s: State) {
    forall id :: id in s.trans ==> Buffers(s.trans[id].level) && !s.trans[id].aborted
  }

  lemma {:induction false} CalmSettles(steps: seq<Step>)
    requires Calm(After(steps))
    ensures Settles(After(steps))
  {
    hide Do, Kept, Settles;
    RunsHold(steps);
  }

  // ---- beginning ---------------------------------------------------------------------------------------

  function Begins(level: Level, n: nat): seq<Step> {
    if n == 0 then [] else Begins(level, n - 1) + [Begin(level)]
  }

  /** Transactions 1 to `n` have begun and nothing else has happened. */
  ghost predicate OnlyBegun(s: State, level: Level, n: nat) {
    && s.store == EmptyStore() && s.man == Manager(n + 1, map[], {0}) && s.plain == {}
    && (forall id :: id in s.trans <==> 1 <= id <= n)
    && (forall id :: id in s.trans ==> s.trans[id] == NewTran(id, level))
  }

  lemma {:induction false} Begun(level: Level, n: nat)
    ensures OnlyBegun(After(Begins(level, n)), level, n)
  {
    hide Do, After, Kept, OnlyBegun;
    if n == 0 {
      NoneBegun(level);
    } else {
      Begun(level, n - 1);
      AfterStep(Begins(level, n - 1), Begin(level));
      OneMoreBegun(After(Begins(level, n - 1)), level, n - 1);
    }
  }

  lemma NoneBegun(level: Level)
    ensures OnlyBegun(After([]), level, 0)
  {
  }

  lemma {:induction false} OneMoreBegun(s: State, level: Level, n: nat)
    requires Kept(s) && OnlyBegun(s, level, n)
    ensures OnlyBegun(Do(s, Begin(level)), level, n + 1)
  {
    hide Do, Kept;
    BeginStep(s, level);
  }

  // ---- one write, committed at once ----------------------------------------------------------------------

  ghost function WriteCommit(id: nat, v: Value): seq<Step> {
    [Put(id, K, v)] + [Commit(id, [K], false)]
  }

  /** What the pair of steps does when nothing stands in its way. */
  ghost predicate Wrote(s: State, now: State, id: nat, v: Value) {
    && s.store.tables != [] && now.store.tables != []
    && now.man.flushed == s.man.flushed && now.plain == s.plain && now.trans.Keys == s.trans.Keys
    && (forall x :: x in s.trans && x != id ==> now.trans[x] == s.trans[x])
    && id in s.trans && now.trans[id].level == s.trans[id].level && !now.trans[id].aborted
    && now.store.mem == s.store.mem && now.store.tables[1..] == s.store.tables[1..]
    && Versions(now.store.tables[0], K) == [Entry(K, v, id)] + Versions(s.store.tables[0], K)
  }

  lemma {:induction false} PutStep(s: State, id: nat, v: Value)
    requires Kept(s) && Running(s, id) && Buffers(s.trans[id].level) && s.trans[id].temp == map[]
    ensures var now := Do(s, Put(id, K, v));
            && now == s.(trans := s.trans[id := now.trans[id]])
            && now.trans[id] == ChangeTran(s.trans[id], s.store, PutRecord(id, K, v))
            && now.trans[id].temp == map[K := v] && Running(now, id)
  {
    hide EngineGet, Logged, Pending, KeySorted;
  }

  lemma {:induction false} CommitStep(s: State, id: nat, v: Value)
    requires Kept(s) && MarkedFor(s, id) && Running(s, id) && Buffers(s.trans[id].level)
    requires s.trans[id].temp == map[K := v]
    requires Checks(s.trans[id].level) ==> !Conflict(s.trans[id], s.store, s.man, K)
    ensures var now := Do(s, Commit(id, [K], false));
            && Shaped(now.store) && Wrote(s, now, id, v) && now.trans == s.trans[id := CommitTran(s.trans[id])]
  {
    hide Conflict, Logged, Pending, KeySorted, Marked, Versions, WriteAll, Write, Fold;
    var t, order := s.trans[id], [K];
    assert Orders(order, t.temp.Keys);
    RunningIsUnmarked(s, id);
    ShapedCommit(t, s.store, order, false);
    CommitTop(t, s.store, order, false, K);
    CommitRest(t, s.store, order);
  }

  lemma CommitRest(t: Tran, s: Store, order: seq<Key>)
    requires s.tables != [] && forall k :: k in order ==> k in t.temp
    ensures var now := CommitStore(t, s, order, false); now.mem == s.mem && now.tables[1..] == s.tables[1..]
  {
    hide WriteAll, Sl.Put;
  }

  lemma {:induction false} WritesAndCommits(steps: seq<Step>, id: nat, v: Value)
    requires var s := After(steps);
             && Calm(s) && Running(s, id) && s.trans[id].temp == map[]
             && (Checks(s.trans[id].level) ==> !Conflict(s.trans[id], s.store, s.man, K))
    ensures var s, now := After(steps), After(steps + WriteCommit(id, v));
            Calm(now) && Wrote(s, now, id, v)
  {
    hide Do, Kept, Conflict, Wrote, Calm, MarkedFor, Sourced;
    var p, c := Put(id, K, v), Commit(id, [K], false);
    assert steps + WriteCommit(id, v) == (steps + [p]) + [c];
    AfterStep(steps, p);
    AfterStep(steps + [p], c);
    BothSteps(steps, After(steps), After(steps + [p]), After((steps + [p]) + [c]), id, v);
  }

  lemma {:induction false} BothSteps(steps: seq<Step>, s: State, mid: State, now: State, id: nat, v: Value)
    requires s == After(steps) && mid == After(steps + [Put(id, K, v)]) && mid == Do(s, Put(id, K, v))
    requires now == Do(mid, Commit(id, [K], false))
    requires Calm(s) && Running(s, id) && s.trans[id].temp == map[]
    requires Checks(s.trans[id].level) ==> !Conflict(s.trans[id], s.store, s.man, K)
    ensures Calm(now) && Wrote(s, now, id, v)
  {
    hide Do, After, Conflict, Books, KeySorted, Wrote, Calm, MarkedFor, Sourced;
    CalmLevel(s, id);
    KeptIds(s);
    PutStep(s, id, v);
    CalmChange(s, mid, id);
    CalmSettles(steps + [Put(id, K, v)]);
    assert MarkedFor(mid, id);
    SameConflict(s.trans[id], mid.trans[id], s.store, s.man);
    CommitStep(mid, id, v);
    CalmChange(mid, now, id);
    WroteBefore(s, mid, now, id, v);
  }

  lemma CalmLevel(s: State, id: nat)
    requires Calm(s) && id in s.trans
    ensures Buffers(s.trans[id].level) && !s.trans[id].aborted
  {
  }

  lemma CalmChange(s: State, now: State, id: nat)
    requires Calm(s) && id in now.trans && now.trans == s.trans[id := now.trans[id]]
    requires Buffers(now.trans[id].level) && !now.trans[id].aborted
    ensures Calm(now)
  {
  }

  lemma WroteBefore(s: State, mid: State, now: State, id: nat, v: Value)
    requires id in s.trans && id in mid.trans && mid == s.(trans := s.trans[id := mid.trans[id]])
    requires mid.trans[id].level == s.trans[id].level && Wrote(mid, now, id, v)
    ensures Wrote(s, now, id, v)
  {
    hide Versions;
  }

  lemma SameConflict(t: Tran, t': Tran, s: Store, m: Manager)
    requires t.id == t'.id && s.mem <= |s.tables| && m.flushed != {}
    ensures Conflict(t, s, m, K) <==> Conflict(t', s, m, K)
  {
  }

  /** No version newer than `id`, nothing flushed above it: no conflict. */
  lemma {:induction false} OlderIsFree(t: Tran, s: Store, m: Manager)
    requires Shaped(s) && m.flushed == {0}
    requires forall e :: e in Stack(s.tables[..s.mem], K) ==> e.tid < t.id
    ensures !Conflict(t, s, m, K)
  {
    hide Stack, MemGet, KeySorted;
    MemGetLatest(s.tables[..s.mem], K);
    assert Max(m.flushed) == 0;
  }

  lemma {:induction false} StackOfOne(table: seq<Entry>)
    ensures Stack([table], K) == Versions(table, K)
  {
    assert [table][1..] == [];
  }

  lemma {:induction false} StackOfTwo(a: seq<Entry>, b: seq<Entry>)
    ensures Stack([a, b], K) == Versions(a, K) + Versions(b, K)
  {
    assert [a, b][1..] == [b];
    StackOfOne(b);
  }

  // ---- READ_OP_COMMITTED writers --------------------------------------------------------------------------

  /** The younger transaction commits first; nothing stops the older one from writing on top. */
  lemma {:induction false} LateCommitBreaksOrder()
    ensures var s := After(Begins(ReadCommitted, 2) + WriteCommit(2, [20]) + WriteCommit(1, [10]));
            !InOrder(s.store)
  {
    hide Do, Kept, Versions;
    var p := Begins(ReadCommitted, 2);
    Begun(ReadCommitted, 2);
    WritesAndCommits(p, 2, [20]);
    var s1 := After(p + WriteCommit(2, [20]));
    WritesAndCommits(p + WriteCommit(2, [20]), 1, [10]);
    var s := After(p + WriteCommit(2, [20]) + WriteCommit(1, [10]));
    NothingInEmpty();
    TwoVersions(s, Entry(K, [10], 1), Entry(K, [20], 2));
  }

  lemma NothingInEmpty()
    ensures Versions([], K) == []
  {
  }

  lemma {:induction false} TwoVersions(s: State, top: Entry, low: Entry)
    requires s.store.tables != [] && top.tid < low.tid
    requires Stack(s.store.tables, K) == [top, low] || Versions(s.store.tables[0], K) == [top] + ([low] + [])
    ensures !InOrder(s.store)
  {
    hide Versions;
    var st := Stack(s.store.tables, K);
    StackStep(s.store.tables, K);
    assert st[0] == top && st[1] == low;
    assert !Descending(st);
  }

  // ---- a write outside any transaction ---------------------------------------------------------------------

  /** A plain write leaves no marker, so once it is in a file the greatest flushed id does not cover it, and
      the conflict check of an older transaction does not look there. */
  lemma {:induction false} PlainWriteEscapesCheck()
    ensures var s := After(Begins(RepeatableRead, 1) + [PlainWrite([(K, [20])])] + [Flush] + WriteCommit(1, [10]));
            && s.trans.Keys == {1} && Checks(s.trans[1].level) && !InOrder(s.store)
  {
    hide Do, Kept, Versions;
    var p := Begins(RepeatableRead, 1);
    var w := PlainWrite([(K, [20])]);
    Begun(RepeatableRead, 1);
    AfterStep(p, w);
    AfterStep(p + [w], Flush);
    PlainThenFlush(After(p));
    var s := After(p + [w] + [Flush]);
    NothingInEmpty();
    EmptyTop(s);
    WritesAndCommits(p + [w] + [Flush], 1, [10]);
    var now := After(p + [w] + [Flush] + WriteCommit(1, [10]));
    StackStep(now.store.tables, K);
    assert now.store.tables[1..] == [[Entry(K, [20], 2)]];
    StackOfOne([Entry(K, [20], 2)]);
    LoneVersion(Entry(K, [20], 2));
    assert ([Entry(K, [10], 1)] + []) + [Entry(K, [20], 2)] == [Entry(K, [10], 1), Entry(K, [20], 2)];
    TwoVersions(now, Entry(K, [10], 1), Entry(K, [20], 2));
  }

  lemma EmptyTop(s: State)
    requires Shaped(s.store) && s.store.mem == 1 && s.store.tables[0] == [] && s.man.flushed == {0} && 1 in s.trans
    ensures !Conflict(s.trans[1], s.store, s.man, K)
  {
    assert s.store.tables[..1] == [[]];
    StackOfOne([]);
    OlderIsFree(s.trans[1], s.store, s.man);
  }

  lemma LoneVersion(e: Entry)
    requires e.key == K
    ensures Versions([e], K) == [e]
  {
    assert [e][1..] == [];
  }

  lemma {:induction false} PlainThenFlush(s: State)
    requires Kept(s) && s.store == EmptyStore() && s.man == Manager(2, map[], {0})
    ensures var now := Do(s, PlainWrite([(K, [20])]));
            Kept(now) && Do(now, Flush) ==
            State(Store([[], [Entry(K, [20], 2)]], 1), Manager(3, map[], {0}), s.trans, s.plain + {2})
  {
    hide Do, Logged, Pending, KeySorted;
    PlainAlone(s);
    FlushPlain(Do(s, PlainWrite([(K, [20])])));
  }

  lemma {:induction false} PlainAlone(s: State)
    requires Kept(s) && s.store == EmptyStore() && s.man == Manager(2, map[], {0})
    ensures var now := Do(s, PlainWrite([(K, [20])]));
            Kept(now) && now == State(Store([[Entry(K, [20], 2)]], 1), Manager(3, map[], {0}), s.trans, s.plain + {2})
  {
    hide Logged, Pending, KeySorted;
    var batch := [(K, [20])];
    var e := Entry(K, [20], 2);
    assert batch[..0] == [] && WriteBatch(s.store, [], 2) == s.store;
    assert Sl.Put([], e) == [e] && [[]][0 := [e]] == [[e]];
    assert WriteBatch(s.store, batch, 2) == Store([[e]], 1);
    StepKeeps(s, PlainWrite(batch));
  }

  lemma {:induction false} FlushPlain(s: State)
    requires Kept(s) && s.store == Store([[Entry(K, [20], 2)]], 1) && s.man == Manager(3, map[], {0})
    ensures Do(s, Flush) == s.(store := Store([[], [Entry(K, [20], 2)]], 1))
  {
    hide Logged, Pending, KeySorted;
    var e := Entry(K, [20], 2);
    assert [[]] + [[e]] == [[], [e]];
    MarkersCons(e, []);
    assert [e] + [] == [e];
  }

  // ---- a stale read in a run of checked writers -----------------------------------------------------------

  ghost function StaleRun(): seq<Step> {
    Begins(RepeatableRead, 5) + WriteCommit(2, [20]) + [FreezeTable] + WriteCommit(3, [30]) + WriteCommit(5, [50])
  }

  /** The committed writers 2, 3 and 5, with a freeze after 2. */
  ghost predicate Layered235(s: State) {
    && |s.store.tables| == 2 && s.store.mem == 2
    && Versions(s.store.tables[0], K) == [Entry(K, [50], 5), Entry(K, [30], 3)]
    && Versions(s.store.tables[1], K) == [Entry(K, [20], 2)]
    && CheckedWriters(s) && 4 in s.trans && s.trans[4] == NewTran(4, RepeatableRead)
  }

  ghost predicate AllRepeatable(s: State) {
    && s.plain == {} && s.man.flushed == {0}
    && forall id :: id in s.trans ==> s.trans[id].level.RepeatableRead? && !s.trans[id].aborted
  }

  lemma {:induction false} WroteStaysRepeatable(s: State, now: State, id: nat, v: Value)
    requires Wrote(s, now, id, v) && AllRepeatable(s)
    ensures AllRepeatable(now)
  {
    hide Versions;
    forall x | x in now.trans ensures now.trans[x].level.RepeatableRead? && !now.trans[x].aborted {
      assert x in s.trans.Keys;
    }
  }

  lemma {:induction false} FirstLayer()
    ensures var p := Begins(RepeatableRead, 5);
            var s := After(p + WriteCommit(2, [20]) + [FreezeTable]);
            && s.store.mem == 2 && |s.store.tables| == 2 && s.store.tables[0] == []
            && Versions(s.store.tables[1], K) == [Entry(K, [20], 2)] && AllRepeatable(s) && Calm(s)
            && (forall id :: id in {3, 4, 5} ==> id in s.trans && s.trans[id] == NewTran(id, RepeatableRead))
  {
    hide Do, Kept, Versions;
    var p := Begins(RepeatableRead, 5);
    Begun(RepeatableRead, 5);
    EmptyIsFree(After(p), 2);
    WritesAndCommits(p, 2, [20]);
    var s := After(p + WriteCommit(2, [20]));
    WroteStaysRepeatable(After(p), s, 2, [20]);
    NothingInEmpty();
    AfterStep(p + WriteCommit(2, [20]), FreezeTable);
    FreezeStep(s);
  }

  lemma FreezeStep(s: State)
    requires Kept(s)
    ensures Do(s, FreezeTable) == s.(store := Freeze(s.store))
  {
  }

  lemma EmptyIsFree(s: State, id: nat)
    requires s.store == EmptyStore() && s.man.flushed == {0} && id in s.trans
    ensures !Conflict(s.trans[id], s.store, s.man, K)
  {
    assert s.store.tables[..1] == [[]];
    StackOfOne([]);
    assert KeySorted([]);
    OlderIsFree(s.trans[id], s.store, s.man);
  }

  lemma {:induction false} TwoLayersFree(s: State, id: nat)
    requires Shaped(s.store) && |s.store.tables| == 2 && s.store.mem == 2 && s.man.flushed == {0}
    requires id in s.trans && s.trans[id].id == id
    requires forall e :: e in Versions(s.store.tables[0], K) + Versions(s.store.tables[1], K) ==> e.tid < id
    ensures !Conflict(s.trans[id], s.store, s.man, K)
  {
    hide Versions, KeySorted, Conflict;
    assert s.store.tables[..2] == [s.store.tables[0], s.store.tables[1]];
    StackOfTwo(s.store.tables[0], s.store.tables[1]);
    OlderIsFree(s.trans[id], s.store, s.man);
  }

  /** One more writer over the two layers. */
  lemma {:induction false} LayerGrows(steps: seq<Step>, id: nat, v: Value)
    requires var s := After(steps);
             && |s.store.tables| == 2 && s.store.mem == 2 && AllRepeatable(s) && Calm(s)
             && id in s.trans && s.trans[id] == NewTran(id, RepeatableRead)
             && forall e :: e in Versions(s.store.tables[0], K) + Versions(s.store.tables[1], K) ==> e.tid < id
    ensures var s, now := After(steps), After(steps + WriteCommit(id, v));
            && |now.store.tables| == 2 && now.store.mem == 2 && AllRepeatable(now) && Calm(now)
            && Versions(now.store.tables[0], K) == [Entry(K, v, id)] + Versions(s.store.tables[0], K)
            && now.store.tables[1] == s.store.tables[1]
            && (forall x :: x in s.trans && x != id ==> x in now.trans && now.trans[x] == s.trans[x])
  {
    hide Do, After, Kept, Versions, Fold, Conflict, Calm;
    var s, now := After(steps), After(steps + WriteCommit(id, v));
    KeptIds(s);
    TwoLayersFree(s, id);
    WritesAndCommits(steps, id, v);
    WroteStaysRepeatable(s, now, id, v);
    LowerLayer(s, now);
  }

  lemma {:induction false} LayersWritten()
    ensures Layered235(After(StaleRun()))
  {
    hide Do, After, Kept, Versions, Fold;
    var p := Begins(RepeatableRead, 5) + WriteCommit(2, [20]) + [FreezeTable];
    FirstLayer();
    NothingInEmpty();
    LayerGrows(p, 3, [30]);
    LayerGrows(p + WriteCommit(3, [30]), 5, [50]);
  }

  lemma KeptIds(s: State)
    requires Kept(s)
    ensures Shaped(s.store) && s.man.flushed != {} && forall id :: id in s.trans ==> s.trans[id].id == id
  {
  }

  lemma LowerLayer(s: State, now: State)
    requires |s.store.tables| == 2 && now.store.tables != [] && now.store.tables[1..] == s.store.tables[1..]
    ensures |now.store.tables| == 2 && now.store.tables[1] == s.store.tables[1]
  {
    assert |now.store.tables[1..]| == 1;
    assert now.store.tables[1..][0] == now.store.tables[1] && s.store.tables[1..][0] == s.store.tables[1];
  }

  /** Reader 4 gets the value of 2, although 3 has committed and is visible to it. */
  lemma {:induction false} CheckedRunReadsStale()
    ensures var s := After(StaleRun());
            && CheckedWriters(s) && Running(s, 4)
            && GetAnswer(s.trans[4], s.store, K) == Some([20])
            && FirstVisible(Stack(s.store.tables, K), 4) == Some(Entry(K, [30], 3))
  {
    hide Do, Kept, Versions, Fold;
    LayersWritten();
    StaleAnswer(After(StaleRun()));
  }

  lemma {:induction false} StaleAnswer(s: State)
    requires Kept(s) && Layered235(s)
    ensures GetAnswer(s.trans[4], s.store, K) == Some([20])
    ensures FirstVisible(Stack(s.store.tables, K), 4) == Some(Entry(K, [30], 3))
  {
    hide Versions, Fold, KeySorted, Logged, Pending, Sl.Get;
    var a, b := s.store.tables[0], s.store.tables[1];
    var e5, e3, e2 := Entry(K, [50], 5), Entry(K, [30], 3), Entry(K, [20], 2);
    assert s.store.tables == [a, b] && s.store.tables[..2] == [a, b] && [a, b][1..] == [b];
    Sl.GetLooksAtTop(a, K, 4);
    Sl.GetLooksAtTop(b, K, 4);
    assert MemGet([b], K, 4) == Some(e2);
    assert MemGet([a, b], K, 4) == Some(e2);
    StackOfTwo(a, b);
    assert [e5, e3] + [e2] == [e5, e3, e2] && [e5, e3, e2][1..] == [e3, e2];
    assert FirstVisible([e3, e2], 4) == Some(e3);
  }

  // ---- a file search that does not report deletions --------------------------------------------------------

  /** The file side of the conflict check, if the search returned nothing for a deletion. */
  ghost predicate ConflictSkippingDeletions(t: Tran, s: Store, m: Manager, k: Key)
    requires s.mem <= |s.tables| && m.flushed != {}
  {
    var top := MemGet(s.tables[..s.mem], k, 0);
    || (top.Some? && top.value.tid > t.id)
    || (Max(m.flushed) > t.id &&
        var low := SstGet(s.tables[s.mem..], k, 0); low.Some? && low.value.value != [] && low.value.tid > t.id)
  }

  ghost function RemovedAndFlushed(): seq<Step> {
    Begins(RepeatableRead, 2) + [Remove(2, K)] + [Commit(2, [K], false)] + [Flush]
  }

  lemma {:induction false} RemoveStep(s: State, id: nat)
    requires Kept(s) && Running(s, id) && Buffers(s.trans[id].level) && s.trans[id].temp == map[]
    ensures var now := Do(s, Remove(id, K));
            && now == s.(trans := s.trans[id := now.trans[id]])
            && now.trans[id] == ChangeTran(s.trans[id], s.store, DeleteRecord(id, K))
            && now.trans[id].temp == map[K := []] && Running(now, id)
  {
    hide EngineGet, Logged, Pending, KeySorted;
  }

  /** After the commit: one table with the deletion and the marker. */
  ghost predicate HoldsDeletion(s: State) {
    && Kept(s) && |s.store.tables| == 1 && s.store.mem == 1 && 1 in s.trans && s.trans[1].id == 1
    && Versions(s.store.tables[0], K) == [Entry(K, [], 2)] && Marker(2) in s.store.tables[0]
    && 2 in s.man.ready && s.man.ready[2].Committed?
  }

  lemma {:induction false} DeletionCommitted()
    ensures HoldsDeletion(After(Begins(RepeatableRead, 2) + [Remove(2, K)] + [Commit(2, [K], false)]))
  {
    hide Do, After, Conflict, Kept, Calm, MarkedFor, Sourced, Versions;
    var p := Begins(RepeatableRead, 2);
    var r, c := Remove(2, K), Commit(2, [K], false);
    AfterStep(p, r);
    AfterStep(p + [r], c);
    Begun(RepeatableRead, 2);
    DeletionSteps(p, After(p), After(p + [r]), After(p + [r] + [c]));
  }

  lemma {:induction false} DeletionSteps(p: seq<Step>, s: State, mid: State, now: State)
    requires p == Begins(RepeatableRead, 2) && s == After(p) && mid == After(p + [Remove(2, K)])
    requires mid == Do(s, Remove(2, K)) && now == Do(mid, Commit(2, [K], false)) && Kept(now)
    requires OnlyBegun(s, RepeatableRead, 2)
    ensures HoldsDeletion(now)
  {
    hide Do, After, Conflict, Logged, Pending, KeySorted, MarkedFor, Sourced, Versions;
    RemoveStep(s, 2);
    AllBegunCalm(s);
    CalmChange(s, mid, 2);
    CalmSettles(p + [Remove(2, K)]);
    assert MarkedFor(mid, 2);
    EmptyIsFree(s, 2);
    SameConflict(s.trans[2], mid.trans[2], s.store, s.man);
    CommitStep(mid, 2, []);
    CommitReady(mid, 2);
    NothingInEmpty();
    assert |now.store.tables[1..]| == |mid.store.tables[1..]|;
  }

  lemma AllBegunCalm(s: State)
    requires OnlyBegun(s, RepeatableRead, 2)
    ensures Calm(s)
  {
  }

  lemma {:induction false} CommitReady(s: State, id: nat)
    requires Kept(s) && Running(s, id) && Buffers(s.trans[id].level) && s.trans[id].temp == map[K := []]
    requires s.trans[id].id == id
    requires !Conflict(s.trans[id], s.store, s.man, K)
    ensures var now := Do(s, Commit(id, [K], false));
            && id in now.man.ready && now.man.ready[id].Committed? && now.store.tables != []
            && Marker(id) in now.store.tables[0]
  {
    hide Conflict, Logged, Pending, KeySorted, WriteAll, Write, Fold;
    assert Orders([K], s.trans[id].temp.Keys);
    CommitAdds(s.trans[id], s.store, [K]);
  }

  /** Transaction 2 has removed the key, committed and been flushed. The check of the older transaction finds
      the deletion; a search that skipped deletions would let it commit over it. */
  lemma {:induction false} SkippedDeletionEscapesCheck()
    ensures var s := After(RemovedAndFlushed());
            && Running(s, 1) && Conflict(s.trans[1], s.store, s.man, K)
            && !ConflictSkippingDeletions(s.trans[1], s.store, s.man, K)
  {
    hide Do, Kept, HoldsDeletion, Conflict, ConflictSkippingDeletions;
    var p := Begins(RepeatableRead, 2) + [Remove(2, K)] + [Commit(2, [K], false)];
    DeletionCommitted();
    AfterStep(p, Flush);
    StillRunning();
    DeletionFlushed(After(p));
  }

  lemma {:induction false} StillRunning()
    ensures Running(After(RemovedAndFlushed()), 1)
  {
    hide Do, After, Kept, MayCommit, EngineGet;
    var p := Begins(RepeatableRead, 2);
    var r, c := Remove(2, K), Commit(2, [K], false);
    Begun(RepeatableRead, 2);
    AfterStep(p, r);
    AfterStep(p + [r], c);
    AfterStep(p + [r] + [c], Flush);
    TranAfter(After(p), r, 1);
    TranAfter(After(p + [r]), c, 1);
    TranAfter(After(p + [r] + [c]), Flush, 1);
  }

  lemma {:induction false} DeletionFlushed(s: State)
    requires HoldsDeletion(s)
    ensures var now := Do(s, Flush);
            && now.store.mem <= |now.store.tables| && now.man.flushed != {} && 1 in now.trans
            && Conflict(now.trans[1], now.store, now.man, K)
            && !ConflictSkippingDeletions(now.trans[1], now.store, now.man, K)
  {
    hide Versions, AddAllFlushed, Markers, Logged, Pending, KeySorted;
    var table := s.store.tables[0];
    var now := Do(s, Flush);
    assert s.store.tables == [table] && [[]] + [table] == [[], table];
    var ids := Markers(table);
    AddAllFlushedMeaning(s.man, ids);
    MarkersMember(table, 2);
    assert now.store == Store([[], table], 1) && Max(now.man.flushed) >= 2;
    assert now.store.tables[..1] == [[]] && now.store.tables[1..] == [table];
    NoAnswer();
    SstGetIsFirstVisible([table], K, 0);
    StackOfOne(table);
    assert FirstVisible([Entry(K, [], 2)], 0) == Some(Entry(K, [], 2));
  }

  lemma NoAnswer()
    ensures MemGet([[]], K, 0).None?
  {
    var none: seq<seq<Entry>> := [[]];
    assert none[1..] == [];
  }
}
