/** The log as a substitute for the store: replaying a transaction's records has the effect of its
    commit, and the cleaner keeps the records of everything that is not in files yet. */
module Recovery {
  import opened Keys
  import opened LittleEndian
  import opened Entries
  import opened IdSets
  import opened WalRecords
  import opened VersionStore
  import opened Checkpoint
  import opened Transactions
  import opened TransactionRuns
  import opened CheckpointSafety
  import opened CommitOrder
  import Cleaner = WalCleaner
  import Sl = SkipListSpec

  /** Recovery applies put and delete records in log order; the others change nothing. */
  function Replay(table: seq<Entry>, rs: seq<Record>): seq<Entry> {
    if rs == [] then table
    else
      var before, r := Replay(table, rs[..|rs| - 1]), rs[|rs| - 1];
      if r.op == OP_PUT then Sl.Put(before, Entry(r.key, r.value, r.tid))
      else if r.op == OP_DELETE then Sl.Put(before, Entry(r.key, [], r.tid))
      else before
  }

  /** The records of one transaction, as the factories make them. */
  ghost predicate LogOf(rs: seq<Record>, id: nat) {
    forall i :: 0 <= i < |rs| ==> rs[i].tid == id && (rs[i].op == OP_DELETE ==> rs[i].value == [])
  }

  /** Replay pushes one version per key, the last one logged. */
  lemma {:induction false} ReplayStacks(table: seq<Entry>, rs: seq<Record>, id: nat, k: Key)
    requires KeySorted(table) && LogOf(rs, id)
    ensures KeySorted(Replay(table, rs))
    ensures Versions(Replay(table, rs), k) ==
            if k in Fold(rs) then Sl.PutStack(Versions(table, k), Entry(k, Fold(rs)[k], id)) else Versions(table, k)
  {
    hide Versions, KeySorted, Sl.Put;
    if rs != [] {
      var most, r := rs[..|rs| - 1], rs[|rs| - 1];
      ReplayStacks(table, most, id, k);
      Sl.PutRefines(Replay(table, most), Entry(r.key, r.value, id), k);
    }
  }

  /** Replaying a log gives the same table as writing its folded map, in any order. */
  lemma {:induction false} ReplayIsCommit(table: seq<Entry>, rs: seq<Record>, id: nat, order: seq<Key>)
    requires KeySorted(table) && LogOf(rs, id) && Orders(order, Fold(rs).Keys)
    ensures Replay(table, rs) == WriteAll(table, order, Fold(rs), id)
  {
    hide Versions, KeySorted, Fold, Replay, WriteAll;
    forall k: Key ensures Versions(Replay(table, rs), k) == Versions(WriteAll(table, order, Fold(rs), id), k) {
      ReplayStacks(table, rs, id, k);
      WriteAllStacks(table, order, Fold(rs), id, k);
    }
    ReplayStacks(table, rs, id, []);
    WriteAllStacks(table, order, Fold(rs), id, []);
    Sl.StacksDetermineList(Replay(table, rs), WriteAll(table, order, Fold(rs), id));
  }

  // ---- logs of reachable transactions -----------------------------------------------------------------

  ghost predicate WellLogged(s: State) {
    forall id :: id in s.trans ==> LogOf(s.trans[id].operations, id)
  }

  lemma {:induction false} StepLogs(s: State, step: Step)
    requires Kept(s) && WellLogged(s)
    ensures WellLogged(Do(s, step))
  {
    hide Do, Logged, Pending, KeySorted, LogOf;
    forall id | id in Do(s, step).trans ensures LogOf(Do(s, step).trans[id].operations, id) {
      if id in s.trans {
        assert LogOf(s.trans[id].operations, id);
        TranLogs(s, step, id);
      } else {
        NewTranAfter(s, step, id);
        FirstLog(id);
      }
    }
  }

  lemma {:induction false} TranLogs(s: State, step: Step, id: nat)
    requires Kept(s) && id in s.trans && LogOf(s.trans[id].operations, id)
    ensures id in Do(s, step).trans && LogOf(Do(s, step).trans[id].operations, id)
  {
    hide KeySorted, Logged, Pending, EngineGet, MayCommit, Do;
    TranAfter(s, step, id);
  }

  lemma FirstLog(id: nat)
    ensures LogOf([CreateRecord(id)], id)
  {
  }

  lemma NewTranAfter(s: State, step: Step, id: nat)
    requires Kept(s) && id !in s.trans && id in Do(s, step).trans
    ensures Do(s, step).trans[id].operations == [CreateRecord(id)]
  {
    hide KeySorted, Logged, Pending, EngineGet, MayCommit, Write, CommitStore, Rollback, Markers, AddAllFlushed;
  }

  lemma {:induction false} RunsLog(steps: seq<Step>)
    ensures WellLogged(After(steps))
  {
    hide Kept, Do, WellLogged;
    if steps == [] {
      assert WellLogged(Init()) by { NoLogsYet(); }
    } else {
      RunsLog(steps[..|steps| - 1]);
      StepLogs(After(steps[..|steps| - 1]), steps[|steps| - 1]);
    }
  }

  lemma NoLogsYet()
    ensures WellLogged(Init())
  {
  }

  /** In every run, at every level that buffers, the log of a transaction folds to its buffer. */
  lemma {:induction false} LogFoldsToBuffer(steps: seq<Step>, id: nat)
    requires id in After(steps).trans && Buffers(After(steps).trans[id].level)
    ensures Fold(After(steps).trans[id].operations) == After(steps).trans[id].temp
  {
    hide Do, Fold, KeySorted;
    assert Logged(After(steps).trans[id]);
  }

  /** In every run, replaying what a commit logged, under the same id, leaves the current table as the
      commit does, apart from the marker, whatever order the buffer is written in. */
  lemma {:induction false} ReplayIsWhatCommitWrites(steps: seq<Step>, id: nat, order: seq<Key>)
    requires Enabled(After(steps), Commit(id, order, false)) && Buffers(After(steps).trans[id].level)
    ensures var s := After(steps);
            var t := s.trans[id];
            CommitStore(t, s.store, order, false).tables[0] ==
            Sl.Put(Replay(s.store.tables[0], CommitTran(t).operations), Marker(id))
  {
    hide Do, Fold, KeySorted, Replay, WriteAll, Sl.Put;
    var s := After(steps);
    var t := s.trans[id];
    RunsLog(steps);
    assert LogOf(t.operations, id) && Logged(t);
    LoggedCommit(t);
    ReplayIsCommit(s.store.tables[0], CommitTran(t).operations, id, order);
  }

  /** The same through the bytes of the log file. */
  lemma {:induction false} ReplayOfDecodedLog(steps: seq<Step>, id: nat, order: seq<Key>)
    requires Enabled(After(steps), Commit(id, order, false)) && Buffers(After(steps).trans[id].level)
    requires var rs := CommitTran(After(steps).trans[id]).operations; forall i :: 0 <= i < |rs| ==> Fits(rs[i])
    ensures var s := After(steps);
            var t := s.trans[id];
            var decoded := DecodeFrom(EncodeAll(CommitTran(t).operations), 0);
            && decoded.Records?
            && CommitStore(t, s.store, order, false).tables[0] ==
               Sl.Put(Replay(s.store.tables[0], decoded.rs), Marker(id))
  {
    hide Do, Fold, KeySorted, Replay, WriteAll, Sl.Put, EncodeAll, DecodeFrom, CommitStore, Fits, Books;
    var rs := CommitTran(After(steps).trans[id]).operations;
    ReplayIsWhatCommitWrites(steps, id, order);
    var data := EncodeAll(rs);
    assert data[0..0 + |data|] == data;
    DecodeFromInverts(data, 0, rs);
  }

  // ---- cleaning ------------------------------------------------------------------------------------

  ghost predicate InLog(files: map<nat, seq<Byte>>, r: Record) {
    exists n :: n in files && r in Cleaner.RecordsIn(files[n])
  }

  /** What commits append is a log file, and every record of a commit is in the log. */
  lemma {:induction false} CommitLogs(t: Tran, earlier: seq<Record>, files: map<nat, seq<Byte>>, n: nat)
    requires n in files && files[n] == EncodeAll(earlier + CommitTran(t).operations)
    requires forall i :: 0 <= i < |earlier + CommitTran(t).operations| ==> Fits((earlier + CommitTran(t).operations)[i])
    ensures Cleaner.IsLog(files[n]) && forall r :: r in earlier + CommitTran(t).operations ==> InLog(files, r)
    ensures InLog(files, Record(OP_COMMIT, t.id, [], []))
  {
    hide EncodeAll, Fits, Cleaner.IsLog;
    Cleaner.WrittenLogs(earlier + CommitTran(t).operations);
    var rs := CommitTran(t).operations;
    assert rs[|rs| - 1] == Record(OP_COMMIT, t.id, [], []);
  }

  // ---- the frame of a log -----------------------------------------------------------------------------

  /** A log opens with the creation of its transaction, and closes with the commit once it is committed. */
  ghost predicate Framed(t: Tran) {
    && t.operations != [] && t.operations[0] == Record(OP_CREATE, t.id, [], [])
    && (t.committed ==> t.operations[|t.operations| - 1] == Record(OP_COMMIT, t.id, [], []))
  }

  ghost predicate AllFramed(s: State) {
    forall id :: id in s.trans ==> Framed(s.trans[id])
  }

  lemma {:induction false} FramedStep(s: State, step: Step, id: nat)
    requires Kept(s) && id in s.trans && Framed(s.trans[id])
    ensures id in Do(s, step).trans && Framed(Do(s, step).trans[id])
  {
    hide KeySorted, Logged, Pending, EngineGet, MayCommit, Do;
    TranAfter(s, step, id);
  }

  lemma {:induction false} StepFrames(s: State, step: Step)
    requires Kept(s) && AllFramed(s)
    ensures AllFramed(Do(s, step))
  {
    hide Do, Logged, Pending, KeySorted, Framed;
    forall id | id in Do(s, step).trans ensures Framed(Do(s, step).trans[id]) {
      TransGrow(s, step, id);
      if id in s.trans {
        FramedStep(s, step, id);
      } else {
        FramedNew(id, step.level);
      }
    }
  }

  lemma FramedNew(id: nat, level: Level)
    ensures Framed(NewTran(id, level))
  {
  }

  lemma {:induction false} RunsFrame(steps: seq<Step>)
    ensures AllFramed(After(steps))
  {
    hide Kept, Do, AllFramed;
    if steps == [] {
      NothingFramed();
    } else {
      RunsFrame(steps[..|steps| - 1]);
      StepFrames(After(steps[..|steps| - 1]), steps[|steps| - 1]);
    }
  }

  lemma NothingFramed()
    ensures AllFramed(Init())
  {
  }

  predicate TriesCommit(step: Step, id: nat) {
    (step.Commit? || step.LogFails?) && step.id == id
  }

  ghost predicate NoCommitRecord(t: Tran) {
    forall i :: 0 <= i < |t.operations| ==> t.operations[i].op != OP_COMMIT
  }

  lemma {:induction false} UncommittedStep(s: State, step: Step, id: nat)
    requires Kept(s) && !TriesCommit(step, id) && id in Do(s, step).trans
    requires id in s.trans ==> NoCommitRecord(s.trans[id])
    ensures NoCommitRecord(Do(s, step).trans[id])
  {
    hide KeySorted, Logged, Pending, EngineGet, MayCommit, Do;
    TransGrow(s, step, id);
    if id in s.trans {
      TranAfter(s, step, id);
    }
  }

  /** In every run a log opens with its create record; a committed transaction's log closes with its own commit
      record, which is therefore in any log file that holds it; and without an attempt to commit there is no
      commit record. */
  lemma {:induction false} LogIsFramed(steps: seq<Step>, id: nat)
    requires id in After(steps).trans
    ensures var t := After(steps).trans[id];
            && t.operations != [] && t.operations[0] == Record(OP_CREATE, id, [], [])
            && (t.committed ==> t.operations[|t.operations| - 1] == Record(OP_COMMIT, id, [], []))
    ensures (forall i :: 0 <= i < |steps| ==> !TriesCommit(steps[i], id)) ==> NoCommitRecord(After(steps).trans[id])
  {
    hide Do, Fold, KeySorted, Logged, Pending, NoCommitRecord, TriesCommit;
    RunsFrame(steps);
    assert Framed(After(steps).trans[id]);
    if forall i :: 0 <= i < |steps| ==> !TriesCommit(steps[i], id) {
      NeverTried(steps, id);
    }
  }

  lemma {:induction false} NeverTried(steps: seq<Step>, id: nat)
    requires id in After(steps).trans && forall i :: 0 <= i < |steps| ==> !TriesCommit(steps[i], id)
    ensures NoCommitRecord(After(steps).trans[id])
  {
    hide Do, Kept, NoCommitRecord, TriesCommit;
    if steps != [] {
      var most, last := steps[..|steps| - 1], steps[|steps| - 1];
      assert steps == most + [last];
      AfterStep(most, last);
      if id in After(most).trans {
        NeverTried(most, id);
      }
      UncommittedStep(After(most), last, id);
    }
  }

  /** What a step of a run adds to the log of a transaction: its creation, the record of a write, or the record
      of a commit that passed the check. */
  ghost function CallOf(s: State, step: Step, id: nat): seq<Record>
    requires Ready(s)
  {
    if step.Begin? && id == s.man.next then [Record(OP_CREATE, id, [], [])]
    else if !Running(s, id) || !Enabled(s, step) then []
    else
      match step
      case Put(x, k, v) => if x == id then [Record(OP_PUT, id, k, v)] else []
      case Remove(x, k) => if x == id then [Record(OP_DELETE, id, k, [])] else []
      case Commit(x, _, _) =>
        if x == id && MayCommit(s.trans[id], s.store, s.man) then [Record(OP_COMMIT, id, [], [])] else []
      case LogFails(x) =>
        if x == id && MayCommit(s.trans[id], s.store, s.man) then [Record(OP_COMMIT, id, [], [])] else []
      case _ => []
  }

  ghost function CallsOf(steps: seq<Step>, id: nat): seq<Record> {
    if steps == [] then []
    else
      var most := steps[..|steps| - 1];
      CallsOf(most, id) + CallOf(After(most), steps[|steps| - 1], id)
  }

  ghost function OperationsOf(s: State, id: nat): seq<Record> {
    if id in s.trans then s.trans[id].operations else []
  }

  lemma {:induction false} StepLogsCall(s: State, step: Step, id: nat)
    requires Kept(s)
    ensures OperationsOf(Do(s, step), id) == OperationsOf(s, id) + CallOf(s, step, id)
  {
    hide KeySorted, Logged, Pending, EngineGet, MayCommit, Do;
    TransGrow(s, step, id);
    if step.Begin? {
      BeginStep(s, step.level);
    }
    if id in s.trans {
      TranAfter(s, step, id);
    }
  }

  /** In every run the log of a transaction holds exactly the records of its calls, in order. */
  lemma {:induction false} LogIsItsCalls(steps: seq<Step>, id: nat)
    ensures OperationsOf(After(steps), id) == CallsOf(steps, id)
  {
    hide Do, Kept, CallOf;
    if steps != [] {
      var most := steps[..|steps| - 1];
      LogIsItsCalls(most, id);
      StepLogsCall(After(most), steps[|steps| - 1], id);
    }
  }

  /** So a committed transaction whose log was written is marked committed there. */
  lemma {:induction false} CommittedIsLogged(steps: seq<Step>, id: nat, earlier: seq<Record>, later: seq<Record>,
                                             files: map<nat, seq<Byte>>, n: nat)
    requires id in After(steps).trans && After(steps).trans[id].committed && n in files
    requires var rs := earlier + After(steps).trans[id].operations + later;
             files[n] == EncodeAll(rs) && forall i :: 0 <= i < |rs| ==> Fits(rs[i])
    ensures InLog(files, Record(OP_CREATE, id, [], [])) && InLog(files, Record(OP_COMMIT, id, [], []))
  {
    hide Do, After, EncodeAll, Fits, Kept, Cleaner.IsLog;
    LogIsFramed(steps, id);
    var ops := After(steps).trans[id].operations;
    var rs := earlier + ops + later;
    Cleaner.WrittenLogs(rs);
    assert rs[|earlier|] == ops[0] && rs[|earlier| + |ops| - 1] == ops[|ops| - 1];
  }

  /** Cleaning the log with the manager's checkpoint, or an older one, keeps every record of every
      committed transaction whose writes are not all in files, unless a rollback put a version of it back. */
  lemma {:induction false} CleaningKeepsWhatMemoryHolds(steps: seq<Step>, id: nat, r: Record, checkpoint: nat,
                                                        before: map<nat, seq<Byte>>, after: map<nat, seq<Byte>>)
    requires NotRestored(After(steps), id) && checkpoint <= Min(After(steps).man.flushed)
    requires id in After(steps).trans && After(steps).trans[id].committed && !InFiles(After(steps), id)
    requires Cleaner.Cleaned(before, checkpoint, after)
    requires r in After(steps).trans[id].operations && InLog(before, r)
    ensures InLog(after, r)
  {
    hide Do, Fold, KeySorted, InFiles, Books, Cleaner.Cleaned, NotRestored;
    RunsLog(steps);
    assert LogOf(After(steps).trans[id].operations, id);
    assert r.tid == id;
    if id <= Min(After(steps).man.flushed) {
      CheckpointIsSafe(steps, id);
    }
    var n :| n in before && r in Cleaner.RecordsIn(before[n]);
    Cleaner.CleaningKeepsUnfinished(before, checkpoint, after, n, r);
  }
}
