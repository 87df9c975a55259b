/** What every run of the transaction layer keeps: the bookkeeping, the checkpoint and the
    repeatable reads. */
module TransactionRuns {
  import opened Keys
  import opened Entries
  import opened IdSets
  import opened WalRecords
  import opened VersionStore
  import opened Checkpoint
  import opened Transactions

  // ---- one step ------------------------------------------------------------------------------------

  lemma {:induction false} BooksBegin(m: Manager, trans: map<nat, Tran>, level: Level)
    requires Books(m, trans)
    ensures Books(TakeId(m), trans) && Books(TakeId(m), trans[m.next := NewTran(m.next, level)])
  {
    hide Logged;
    LoggedNew(m.next, level);
    assert Min(m.flushed) in m.flushed;
  }

  /** A call that leaves its transaction running. */
  lemma {:induction false} BooksUpdate(m: Manager, trans: map<nat, Tran>, id: nat, t: Tran)
    requires Books(m, trans) && id in trans && Active(trans[id])
    requires t.id == id && Active(t) && Logged(t)
    ensures Books(m, trans[id := t])
  {
    hide Logged, Sound;
  }

  /** A call that ends it. */
  lemma {:induction false} BooksFinish(m: Manager, trans: map<nat, Tran>, id: nat, t: Tran, outcome: Outcome)
    requires Books(m, trans) && id in trans && Active(trans[id])
    requires t.id == id && !Active(t) && Logged(t) && t.committed == outcome.Committed?
    ensures Books(AddReady(m, id, outcome), trans[id := t])
  {
    hide Logged;
  }

  lemma {:induction false} BooksFlush(m: Manager, trans: map<nat, Tran>, ids: seq<nat>)
    requires Books(m, trans)
    ensures Books(AddAllFlushed(m, ids), trans) && Min(AddAllFlushed(m, ids).flushed) >= Min(m.flushed)
    ensures AddAllFlushed(m, ids).next == m.next
  {
    hide Logged, AddAllFlushed;
    AddAllFlushedMeaning(m, ids);
  }

  lemma {:induction false} LoggedAbort(t: Tran)
    requires Logged(t) && !t.committed
    ensures Logged(AbortTran(t)) && Writes(AbortTran(t)) == Writes(t)
  {
  }

  lemma {:induction false} ChangeKeeps(s: State, id: nat, r: Record)
    requires Kept(s) && Running(s, id) && IsWrite(r, id)
    ensures Kept(DoChange(s, id, r))
  {
    hide Logged, KeySorted, Write, EngineGet, Sound;
    LoggedChange(s.trans[id], s.store, r);
    ShapedWrite(s.store, Entry(r.key, r.value, id));
    BooksUpdate(s.man, s.trans, id, ChangeTran(s.trans[id], s.store, r));
  }

  lemma {:induction false} CommitKeeps(s: State, id: nat, order: seq<Key>, testFail: bool)
    requires Kept(s) && Enabled(s, Commit(id, order, testFail))
    ensures Kept(DoCommit(s, id, order, testFail))
  {
    hide Logged, KeySorted, CommitStore, MayCommit, Pending;
    var t := s.trans[id];
    LoggedCommit(t);
    LoggedAbort(t);
    ShapedCommit(t, s.store, order, testFail);
    BooksFinish(s.man, s.trans, id, CommitTran(t), Committed);
    BooksFinish(s.man, s.trans, id, AbortTran(t), Aborted);
  }

  lemma {:induction false} LogFailsKeeps(s: State, id: nat)
    requires Kept(s) && Running(s, id)
    ensures Kept(Do(s, LogFails(id)))
  {
    hide KeySorted, MayCommit, Pending, Fold, Logged;
    LoggedCommit(s.trans[id]);
    BooksUpdate(s.man, s.trans, id, LogTran(s.trans[id]));
  }

  lemma {:induction false} AbortKeeps(s: State, id: nat, order: seq<Key>)
    requires Kept(s) && Enabled(s, Abort(id, order))
    ensures Kept(Do(s, Abort(id, order)))
  {
    hide Logged, KeySorted, Rollback, Pending;
    LoggedAbort(s.trans[id]);
    ShapedRollback(s.store, s.trans[id], order);
    BooksFinish(s.man, s.trans, id, AbortTran(s.trans[id]), Aborted);
  }

  lemma {:induction false} GetKeeps(s: State, id: nat, k: Key)
    requires Kept(s) && Running(s, id)
    ensures Kept(Do(s, Get(id, k)))
  {
    hide KeySorted, EngineGet, Pending, Fold;
    BooksUpdate(s.man, s.trans, id, GetTran(s.trans[id], s.store, k));
  }

  lemma {:induction false} FlushKeeps(s: State)
    requires Kept(s)
    ensures Kept(Do(s, Flush)) && Min(Do(s, Flush).man.flushed) >= Min(s.man.flushed)
  {
    hide Logged, KeySorted, Markers, AddAllFlushed;
    ShapedFlush(s.store);
    var f := FlushOldest(s.store);
    BooksFlush(s.man, s.trans, Markers(f.tables[f.mem]));
  }

  /** Every step keeps the bookkeeping and never moves the checkpoint back. */
  lemma {:induction false} StepKeeps(s: State, step: Step)
    requires Kept(s)
    ensures Kept(Do(s, step)) && Min(Do(s, step).man.flushed) >= Min(s.man.flushed)
  {
    hide Logged, KeySorted, DoFlush, Rollback, Write, EngineGet, CommitStore, MayCommit, Pending;
    if Enabled(s, step) {
      match step
      case Begin(level) => BooksBegin(s.man, s.trans, level);
      case SkipId => BooksBegin(s.man, s.trans, ReadCommitted);
      case PlainWrite(batch) =>
        BooksBegin(s.man, s.trans, ReadCommitted);
        ShapedBatch(s.store, batch, s.man.next);
      case LogFails(id) => LogFailsKeeps(s, id);
      case Put(id, k, v) => ChangeKeeps(s, id, PutRecord(id, k, v));
      case Remove(id, k) => ChangeKeeps(s, id, DeleteRecord(id, k));
      case Get(id, k) => GetKeeps(s, id, k);
      case Commit(id, order, testFail) => CommitKeeps(s, id, order, testFail);
      case Abort(id, order) => AbortKeeps(s, id, order);
      case FreezeTable => ShapedFreeze(s.store);
      case Flush => FlushKeeps(s);
    }
  }

  lemma BeginStep(s: State, level: Level)
    requires Kept(s)
    ensures var id := s.man.next;
            Do(s, Begin(level)) == State(s.store, TakeId(s.man), s.trans[id := NewTran(id, level)], s.plain)
  {
  }

  /** What a step makes of one transaction. */
  ghost function NextTran(s: State, step: Step, id: nat): Tran
    requires Ready(s) && id in s.trans
  {
    var t := s.trans[id];
    if !Enabled(s, step) then t
    else
      match step
      case Put(x, k, v) => if x == id then ChangeTran(t, s.store, PutRecord(id, k, v)) else t
      case Remove(x, k) => if x == id then ChangeTran(t, s.store, DeleteRecord(id, k)) else t
      case Get(x, k) => if x == id then GetTran(t, s.store, k) else t
      case LogFails(x) => if x == id && MayCommit(t, s.store, s.man) then LogTran(t) else t
      case Commit(x, _, _) =>
        if x != id then t else if MayCommit(t, s.store, s.man) then CommitTran(t) else AbortTran(t)
      case Abort(x, _) => if x == id then AbortTran(t) else t
      case _ => t
  }

  lemma {:induction false} TranAfter(s: State, step: Step, id: nat)
    requires Kept(s) && id in s.trans
    ensures id in Do(s, step).trans && Do(s, step).trans[id] == NextTran(s, step, id)
  {
    hide Pending, Logged, KeySorted, ChangeTran, GetTran, AddAllFlushed, CommitStore, MayCommit, Write, Rollback,
         EngineGet, Markers, Fold;
  }

  // ---- whole runs ----------------------------------------------------------------------------------

  lemma {:induction false} InitKept()
    ensures Kept(Init())
  {
    assert KeySorted([]);
  }

  /** The state after a run, from a new data directory. */
  ghost function After(steps: seq<Step>): (s: State)
    ensures Kept(s)
  {
    InitKept();
    if steps == [] then Init()
    else
      var s := After(steps[..|steps| - 1]);
      StepKeeps(s, steps[|steps| - 1]);
      Do(s, steps[|steps| - 1])
  }

  lemma {:induction false} AfterStep(steps: seq<Step>, step: Step)
    ensures After(steps + [step]) == Do(After(steps), step)
  {
    assert (steps + [step])[..|steps|] == steps;
  }

  /** The checkpoint never moves back, whatever a run goes on to do. */
  lemma {:induction false} CheckpointNeverMovesBack(steps: seq<Step>, more: seq<Step>)
    ensures Min(After(steps).man.flushed) <= Min(After(steps + more).man.flushed)
  {
    hide Kept, Do, Ready;
    if more == [] {
      assert steps + more == steps;
    } else {
      var most, last := more[..|more| - 1], more[|more| - 1];
      CheckpointNeverMovesBack(steps, most);
      assert steps + more == (steps + most) + [last];
      AfterStep(steps + most, last);
      StepKeeps(After(steps + most), last);
    }
  }
}
