/** The transaction layer as a state machine: what each call of a transaction does to its own
    maps, to the store and to the manager, and runs of such calls. */
module Transactions {
  import opened Keys
  import opened Entries
  import opened IdSets
  import opened WalRecords
  import opened VersionStore
  import opened Checkpoint
  import Sl = SkipListSpec

  /** READ_UNOP_COMMITTED, READ_OP_COMMITTED, REPEATABLE_READ, SERIALIZABLE. */
  datatype Level = ReadUncommitted | ReadCommitted | RepeatableRead | Serializable

  /** Every level but the first keeps its writes to itself until commit. */
  predicate Buffers(l: Level) { !l.ReadUncommitted? }

  /** Levels that look for conflicts at commit and remember what they read. */
  predicate Checks(l: Level) { l.RepeatableRead? || l.Serializable? }

  datatype Tran = Tran(id: nat, level: Level, operations: seq<Record>, temp: map<Key, Value>,
                       read: map<Key, Option<Entry>>, rollback: map<Key, Option<Entry>>,
                       committed: bool, aborted: bool)

  predicate Active(t: Tran) { !t.committed && !t.aborted }

  function NewTran(id: nat, level: Level): Tran {
    Tran(id, level, [CreateRecord(id)], map[], map[], map[], false, false)
  }

  /** What a log says a transaction wrote: its put and delete records folded in order. */
  function Fold(rs: seq<Record>): map<Key, Value> {
    if rs == [] then map[]
    else
      var m, r := Fold(rs[..|rs| - 1]), rs[|rs| - 1];
      if r.op == OP_PUT || r.op == OP_DELETE then m[r.key := r.value] else m
  }

  /** The writes a transaction has asked for so far: the last one per key. */
  function Writes(t: Tran): map<Key, Value> { Fold(t.operations) }

  lemma {:induction false} FoldStep(rs: seq<Record>, r: Record)
    ensures Fold(rs + [r]) == if r.op == OP_PUT || r.op == OP_DELETE then Fold(rs)[r.key := r.value] else Fold(rs)
  {
    assert (rs + [r])[..|rs|] == rs;
  }

  // ---- one call ------------------------------------------------------------------------------------

  /** `put` and `remove`; the record says which. */
  function ChangeTran(t: Tran, s: Store, r: Record): Tran
    requires s.mem <= |s.tables|
  {
    var logged := t.(operations := t.operations + [r]);
    if Buffers(t.level) then logged.(temp := t.temp[r.key := r.value])
    else logged.(rollback := t.rollback[r.key := EngineGet(s, r.key, 0)])
  }

  function ChangeStore(t: Tran, s: Store, r: Record): Store
    requires s.tables != []
  {
    if Buffers(t.level) then s else Write(s, Entry(r.key, r.value, t.id))
  }

  /** What the engine tells a transaction about a key it has not written. */
  function Query(t: Tran, s: Store, k: Key): Option<Entry>
    requires s.mem <= |s.tables|
  {
    if t.level.ReadUncommitted? then EngineGet(s, k, 0)
    else if Checks(t.level) && k in t.read then t.read[k]
    else EngineGet(s, k, t.id)
  }

  function GetTran(t: Tran, s: Store, k: Key): Tran
    requires s.mem <= |s.tables|
  {
    if k in t.temp || !Checks(t.level) then t else t.(read := t.read[k := Query(t, s, k)])
  }

  function GetAnswer(t: Tran, s: Store, k: Key): Option<Value>
    requires s.mem <= |s.tables|
  {
    if k in t.temp then Some(t.temp[k])
    else
      var q := Query(t, s, k);
      if q.Some? then Some(q.value.value) else None
  }

  /** Is a newer version of `k` already in the store? The files are searched only when some
      flushed id is newer. */
  ghost predicate Conflict(t: Tran, s: Store, m: Manager, k: Key)
    requires s.mem <= |s.tables| && m.flushed != {}
  {
    var top := MemGet(s.tables[..s.mem], k, 0);
    || (top.Some? && top.value.tid > t.id)
    || (Max(m.flushed) > t.id && var low := SstGet(s.tables[s.mem..], k, 0); low.Some? && low.value.tid > t.id)
  }

  ghost predicate MayCommit(t: Tran, s: Store, m: Manager)
    requires s.mem <= |s.tables| && m.flushed != {}
  {
    Checks(t.level) ==> forall k :: k in t.temp ==> !Conflict(t, s, m, k)
  }

  /** The "" entry that tells a flush that a transaction's writes end here. */
  function Marker(id: nat): Entry { Entry([], [], id) }

  /** The buffered writes, in the order in which the hash map lists them. */
  function WriteAll(table: seq<Entry>, order: seq<Key>, temp: map<Key, Value>, id: nat): seq<Entry>
    requires forall k :: k in order ==> k in temp
  {
    if order == [] then table
    else
      var k := order[|order| - 1];
      Sl.Put(WriteAll(table, order[..|order| - 1], temp, id), Entry(k, temp[k], id))
  }

  function CommitStore(t: Tran, s: Store, order: seq<Key>, testFail: bool): Store
    requires s.tables != [] && forall k :: k in order ==> k in t.temp
  {
    if !Buffers(t.level) then Write(s, Marker(t.id))
    else if testFail then s
    else Write(s.(tables := s.tables[0 := WriteAll(s.tables[0], order, t.temp, t.id)]), Marker(t.id))
  }

  function CommitTran(t: Tran): Tran {
    t.(operations := t.operations + [CommitRecord(t.id)], committed := true)
  }

  /** The commit record is there, but the log could not be written: the transaction goes on. */
  function LogTran(t: Tran): Tran {
    t.(operations := t.operations + [CommitRecord(t.id)])
  }

  function AbortTran(t: Tran): Tran { t.(aborted := true) }

  /** Undoing the direct writes of the lowest level. */
  function Rollback(s: Store, t: Tran, order: seq<Key>): Store
    requires s.tables != [] && forall k :: k in order ==> k in t.rollback
    ensures |Rollback(s, t, order).tables| == |s.tables| && Rollback(s, t, order).mem == s.mem
  {
    if order == [] then s
    else
      var k := order[|order| - 1];
      var r := Rollback(s, t, order[..|order| - 1]);
      match t.rollback[k]
      case Some(e) => Write(r, Entry(k, e.value, e.tid))
      case None => Write(r, Entry(k, [], t.id))
  }

  /** Writes outside any transaction: all under one id and without a marker. */
  function WriteBatch(s: Store, batch: seq<(Key, Value)>, id: nat): (r: Store)
    requires s.tables != []
    ensures |r.tables| == |s.tables|
  {
    if batch == [] then s
    else
      var (k, v) := batch[|batch| - 1];
      Write(WriteBatch(s, batch[..|batch| - 1], id), Entry(k, v, id))
  }

  /** The ids whose markers a flushed table holds, in table order. */
  function Markers(table: seq<Entry>): seq<nat> {
    if table == [] then []
    else (if table[0].key == [] && table[0].value == [] then [table[0].tid] else []) + Markers(table[1..])
  }

  lemma MarkersCons(e: Entry, rest: seq<Entry>)
    ensures Markers([e] + rest) == (if e.key == [] && e.value == [] then [e.tid] else []) + Markers(rest)
  {
    assert ([e] + rest)[1..] == rest;
  }

  lemma {:induction false} MarkersMember(table: seq<Entry>, id: nat)
    ensures id in Markers(table) <==> Marker(id) in table
  {
    if table != [] {
      MarkersMember(table[1..], id);
      assert table == [table[0]] + table[1..];
    }
  }

  // ---- the state machine ---------------------------------------------------------------------------

  /** `plain` remembers the ids under which writes outside any transaction were made. */
  datatype State = State(store: Store, man: Manager, trans: map<nat, Tran>, plain: set<nat>)

  datatype Step =
    | Begin(level: Level)
    | SkipId                                      // a read outside any transaction takes an id
    | PlainWrite(batch: seq<(Key, Value)>)        // put, remove and their batches outside any transaction
    | Put(id: nat, k: Key, v: Value)
    | Remove(id: nat, k: Key)
    | Get(id: nat, k: Key)
    | Commit(id: nat, order: seq<Key>, testFail: bool)
    | LogFails(id: nat)                           // a commit that fails to write the log
    | Abort(id: nat, order: seq<Key>)
    | FreezeTable
    | Flush

  function Init(): State { State(EmptyStore(), FreshManager(), map[], {}) }

  /** `order` lists every key once. */
  ghost predicate Orders(order: seq<Key>, keys: set<Key>) {
    && (forall k :: k in order <==> k in keys)
    && (forall i, j :: 0 <= i < j < |order| ==> order[i] != order[j])
  }

  predicate Running(s: State, id: nat) { id in s.trans && Active(s.trans[id]) }

  /** A transaction finishes once and its keys are not empty; "" is kept for the markers. */
  ghost predicate Enabled(s: State, step: Step) {
    match step
    case Put(id, k, _) => Running(s, id) && k != []
    case Remove(id, k) => Running(s, id) && k != []
    case Get(id, _) => Running(s, id)
    case Commit(id, order, _) => Running(s, id) && Orders(order, s.trans[id].temp.Keys)
    case LogFails(id) => Running(s, id)
    case Abort(id, order) => Running(s, id) && Orders(order, s.trans[id].rollback.Keys)
    case PlainWrite(batch) => forall i :: 0 <= i < |batch| ==> batch[i].0 != []
    case _ => true
  }

  /** What every state of a run looks like to the calls. */
  ghost predicate Ready(s: State) {
    Shaped(s.store) && s.man.flushed != {}
  }

  ghost function DoCommit(s: State, id: nat, order: seq<Key>, testFail: bool): State
    requires Ready(s) && Enabled(s, Commit(id, order, testFail))
  {
    var t := s.trans[id];
    if MayCommit(t, s.store, s.man) then
      State(CommitStore(t, s.store, order, testFail), AddReady(s.man, id, Committed),
            s.trans[id := CommitTran(t)], s.plain)
    else
      State(s.store, AddReady(s.man, id, Aborted), s.trans[id := AbortTran(t)], s.plain)
  }

  ghost function DoFlush(s: State): State
    requires Ready(s)
  {
    var f := FlushOldest(s.store);
    s.(store := f, man := AddAllFlushed(s.man, Markers(f.tables[f.mem])))
  }

  function DoChange(s: State, id: nat, r: Record): State
    requires id in s.trans && s.store.tables != [] && s.store.mem <= |s.store.tables|
  {
    var t := s.trans[id];
    s.(store := ChangeStore(t, s.store, r), trans := s.trans[id := ChangeTran(t, s.store, r)])
  }

  ghost function Do(s: State, step: Step): State
    requires Ready(s)
  {
    if !Enabled(s, step) then s
    else
      match step
      case Begin(level) => s.(man := TakeId(s.man), trans := s.trans[s.man.next := NewTran(s.man.next, level)])
      case SkipId => s.(man := TakeId(s.man))
      case PlainWrite(batch) =>
        State(WriteBatch(s.store, batch, s.man.next), TakeId(s.man), s.trans, s.plain + {s.man.next})
      case LogFails(id) =>
        if MayCommit(s.trans[id], s.store, s.man) then s.(trans := s.trans[id := LogTran(s.trans[id])]) else s
      case Put(id, k, v) => DoChange(s, id, PutRecord(id, k, v))
      case Remove(id, k) => DoChange(s, id, DeleteRecord(id, k))
      case Get(id, k) => s.(trans := s.trans[id := GetTran(s.trans[id], s.store, k)])
      case Commit(id, order, testFail) => DoCommit(s, id, order, testFail)
      case Abort(id, order) =>
        State(Rollback(s.store, s.trans[id], order), AddReady(s.man, id, Aborted),
              s.trans[id := AbortTran(s.trans[id])], s.plain)
      case FreezeTable => s.(store := Freeze(s.store))
      case Flush => DoFlush(s)
  }

  // ---- what every run keeps ----------------------------------------------------------------------------

  /** A transaction's own maps agree with its log. */
  ghost predicate Logged(t: Tran) {
    && (forall i :: 0 <= i < |t.operations| ==> t.operations[i].tid == t.id)
    && [] !in Writes(t)
    && (Buffers(t.level) ==> t.temp == Writes(t) && t.rollback == map[])
    && (!Buffers(t.level) ==> t.temp == map[] && t.rollback.Keys == Writes(t).Keys)
    && !(t.committed && t.aborted)
  }

  ghost predicate Books(m: Manager, trans: map<nat, Tran>) {
    && Sound(m)
    && (forall id :: id in trans ==> id < m.next && trans[id].id == id && Logged(trans[id]))
    && (forall id :: id in trans && Active(trans[id]) ==> Pending(m, id) && id !in m.ready)
    && (forall id :: id in m.ready ==> id in trans && trans[id].committed == m.ready[id].Committed?)
  }

  ghost predicate Kept(s: State) {
    && Shaped(s.store) && Books(s.man, s.trans)
    && forall id :: id in s.plain ==> id < s.man.next && id !in s.trans
  }

  lemma {:induction false} ShapedWrite(s: Store, e: Entry)
    requires Shaped(s)
    ensures Shaped(Write(s, e))
  {
    hide KeySorted, Sl.Put;
    Sl.PutKeepsOrder(s.tables[0], e);
  }

  lemma {:induction false} WriteAllKeepsOrder(table: seq<Entry>, order: seq<Key>, temp: map<Key, Value>, id: nat)
    requires KeySorted(table) && forall k :: k in order ==> k in temp
    ensures KeySorted(WriteAll(table, order, temp, id))
  {
    hide KeySorted, Sl.Put;
    if order != [] {
      var k := order[|order| - 1];
      WriteAllKeepsOrder(table, order[..|order| - 1], temp, id);
      Sl.PutKeepsOrder(WriteAll(table, order[..|order| - 1], temp, id), Entry(k, temp[k], id));
    }
  }

  lemma {:induction false} ShapedBatch(s: Store, batch: seq<(Key, Value)>, id: nat)
    requires Shaped(s)
    ensures Shaped(WriteBatch(s, batch, id))
  {
    hide KeySorted, Sl.Put, Write;
    if batch != [] {
      var most, last := batch[..|batch| - 1], batch[|batch| - 1];
      ShapedBatch(s, most, id);
      ShapedWrite(WriteBatch(s, most, id), Entry(last.0, last.1, id));
    }
  }

  lemma {:induction false} ShapedRollback(s: Store, t: Tran, order: seq<Key>)
    requires Shaped(s) && forall k :: k in order ==> k in t.rollback
    ensures Shaped(Rollback(s, t, order)) && (order == [] ==> Rollback(s, t, order) == s)
  {
    hide KeySorted, Sl.Put, Write;
    if order != [] {
      var k := order[|order| - 1];
      var r := Rollback(s, t, order[..|order| - 1]);
      ShapedRollback(s, t, order[..|order| - 1]);
      match t.rollback[k]
      case Some(e) => ShapedWrite(r, Entry(k, e.value, e.tid));
      case None => ShapedWrite(r, Entry(k, [], t.id));
    }
  }

  lemma {:induction false} ShapedCommit(t: Tran, s: Store, order: seq<Key>, testFail: bool)
    requires Shaped(s) && forall k :: k in order ==> k in t.temp
    ensures Shaped(CommitStore(t, s, order, testFail))
  {
    hide KeySorted, Sl.Put, Write, WriteAll;
    ShapedWrite(s, Marker(t.id));
    WriteAllKeepsOrder(s.tables[0], order, t.temp, t.id);
    ShapedWrite(s.(tables := s.tables[0 := WriteAll(s.tables[0], order, t.temp, t.id)]), Marker(t.id));
  }

  lemma ShapedFreeze(s: Store)
    requires Shaped(s)
    ensures Shaped(Freeze(s))
  {
    assert KeySorted([]);
  }

  lemma {:induction false} ShapedFlush(s: Store)
    requires Shaped(s)
    ensures Shaped(FlushOldest(s))
  {
    assert KeySorted([]);
  }

  /** A put or delete record of transaction `id`, for a key of its own. */
  predicate IsWrite(r: Record, id: nat) {
    (r.op == OP_PUT || r.op == OP_DELETE) && r.tid == id && r.key != []
  }

  lemma {:induction false} LoggedChange(t: Tran, s: Store, r: Record)
    requires Logged(t) && s.mem <= |s.tables| && IsWrite(r, t.id)
    ensures Logged(ChangeTran(t, s, r)) && Writes(ChangeTran(t, s, r)) == Writes(t)[r.key := r.value]
  {
    hide Fold, EngineGet;
    FoldStep(t.operations, r);
  }

  lemma {:induction false} LoggedCommit(t: Tran)
    requires Logged(t) && !t.aborted
    ensures Logged(CommitTran(t)) && Writes(CommitTran(t)) == Writes(t)
    ensures Logged(LogTran(t)) && Writes(LogTran(t)) == Writes(t)
  {
    hide Fold;
    FoldStep(t.operations, CommitRecord(t.id));
  }

  lemma {:induction false} LoggedNew(id: nat, level: Level)
    ensures Logged(NewTran(id, level)) && Writes(NewTran(id, level)) == map[]
  {
    FoldStep([], CreateRecord(id));
    assert [] + [CreateRecord(id)] == [CreateRecord(id)];
  }
}
