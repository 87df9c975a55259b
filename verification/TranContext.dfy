/** The transaction object itself: the calls that the state machine takes as its steps, as methods on
    objects that share an engine and a manager. */
module TranContexts {
  import opened Keys
  import opened Entries
  import opened IdSets
  import opened WalRecords
  import opened VersionStore
  import opened Checkpoint
  import opened Transactions
  import Sl = SkipListSpec

  /** The engine as the transaction sees it. */
  class Engine {
    var tables: seq<seq<Entry>>
    var mem: nat

    function Model(): Store
      reads this
    {
      Store(tables, mem)
    }

    constructor ()
      ensures Model() == EmptyStore() && Shaped(Model())
    {
      tables, mem := [[]], 1;
    }

    method Put(k: Key, v: Value, t: nat)
      requires Shaped(Model())
      modifies this
      ensures Model() == Write(old(Model()), Entry(k, v, t)) && Shaped(Model())
    {
      ShapedWrite(Model(), Entry(k, v, t));
      tables := tables[0 := Sl.Put(tables[0], Entry(k, v, t))];
    }
  }

  /** How a commit ends: with a verdict, or with the exception of a failed log write. */
  datatype CommitResult = Verdict(ok: bool) | LogFailed

  class TranContext {
    const id: nat
    const level: Level
    const engine: Engine
    const manager: TranManager
    var operations: seq<Record>
    var temp: map<Key, Value>
    var read: map<Key, Option<Entry>>
    var rollback: map<Key, Option<Entry>>
    var committed: bool
    var aborted: bool

    function Model(): Tran
      reads this
    {
      Tran(id, level, operations, temp, read, rollback, committed, aborted)
    }

    constructor (id: nat, level: Level, engine: Engine, manager: TranManager)
      ensures Model() == NewTran(id, level) && this.engine == engine && this.manager == manager
    {
      this.id, this.level, this.engine, this.manager := id, level, engine, manager;
      operations, temp, read, rollback := [CreateRecord(id)], map[], map[], map[];
      committed, aborted := false, false;
    }

    method Put(k: Key, v: Value)
      requires Shaped(engine.Model())
      modifies this, engine
      ensures Shaped(engine.Model())
      ensures Model() == ChangeTran(old(Model()), old(engine.Model()), PutRecord(id, k, v))
      ensures engine.Model() == ChangeStore(old(Model()), old(engine.Model()), PutRecord(id, k, v))
    {
      operations := operations + [PutRecord(id, k, v)];
      if level.ReadUncommitted? {
        rollback := rollback[k := EngineGet(engine.Model(), k, 0)];
        engine.Put(k, v, id);
        return;
      }
      temp := temp[k := v];
    }

    method Remove(k: Key)
      requires Shaped(engine.Model())
      modifies this, engine
      ensures Shaped(engine.Model())
      ensures Model() == ChangeTran(old(Model()), old(engine.Model()), DeleteRecord(id, k))
      ensures engine.Model() == ChangeStore(old(Model()), old(engine.Model()), DeleteRecord(id, k))
    {
      operations := operations + [DeleteRecord(id, k)];
      if level.ReadUncommitted? {
        rollback := rollback[k := EngineGet(engine.Model(), k, 0)];
        engine.Put(k, [], id);
        return;
      }
      temp := temp[k := []];
    }

    method Get(k: Key) returns (answer: Option<Value>)
      requires Shaped(engine.Model())
      modifies this
      ensures answer == GetAnswer(old(Model()), engine.Model(), k)
      ensures Model() == GetTran(old(Model()), engine.Model(), k)
    {
      if k in temp {
        return Some(temp[k]);
      }
      var query: Option<Entry>;
      if level.ReadUncommitted? {
        query := EngineGet(engine.Model(), k, 0);
      } else if level.ReadCommitted? {
        query := EngineGet(engine.Model(), k, id);
      } else {
        if k in read {
          query := read[k];
        } else {
          query := EngineGet(engine.Model(), k, id);
          read := read[k := query];
        }
        assert read == old(read)[k := query];
      }
      answer := if query.Some? then Some(query.value.value) else None;
    }

    /** The validation loop of `commit`: it may stop at the first conflict it meets. */
    method HasConflict() returns (conflict: bool)
      requires Shaped(engine.Model()) && manager.flushed != {}
      ensures conflict <==> exists k :: k in temp && Conflict(Model(), engine.Model(), manager.Model(), k)
    {
      conflict := false;
      var left := temp.Keys;
      while left != {} && !conflict
        invariant left <= temp.Keys
        invariant forall k :: k in temp && k !in left && !conflict ==>
                    !Conflict(Model(), engine.Model(), manager.Model(), k)
        invariant conflict ==> exists k :: k in temp && Conflict(Model(), engine.Model(), manager.Model(), k)
        decreases |left|, !conflict
      {
        var k: Key :| k in left;
        left := left - {k};
        var top := MemGet(engine.tables[..engine.mem], k, 0);
        if top.Some? && top.value.tid > id {
          conflict := true;
        } else {
          var max := manager.GetMaxFlushedId();
          if max > id {
            var low := SstGet(engine.tables[engine.mem..], k, 0);
            if low.Some? && low.value.tid > id {
              conflict := true;
            }
          }
        }
        assert conflict <==> Conflict(Model(), engine.Model(), manager.Model(), k);
      }
    }

    /** The loop that applies the buffer to the current table, in the hash map's order. */
    method ApplyBuffer() returns (ghost order: seq<Key>)
      requires Shaped(engine.Model())
      modifies engine
      ensures Orders(order, temp.Keys) && Shaped(engine.Model()) && engine.mem == old(engine.mem)
      ensures engine.tables == old(engine.tables)[0 := WriteAll(old(engine.tables)[0], order, temp, id)]
    {
      hide KeySorted, Sl.Put;
      order := [];
      var left := temp.Keys;
      while left != {}
        invariant left <= temp.Keys && Shaped(engine.Model()) && engine.mem == old(engine.mem)
        invariant Orders(order, temp.Keys - left)
        invariant engine.tables == old(engine.tables)[0 := WriteAll(old(engine.tables)[0], order, temp, id)]
        decreases |left|
      {
        var k: Key :| k in left;
        engine.Put(k, temp[k], id);
        assert (order + [k])[..|order|] == order;
        OrdersOneMore(order, temp.Keys - left, k);
        assert temp.Keys - (left - {k}) == temp.Keys - left + {k};
        order := order + [k];
        left := left - {k};
      }
      assert temp.Keys - left == temp.Keys;
    }

    method Commit(testFail: bool, logWorks: bool) returns (result: CommitResult, ghost order: seq<Key>)
      requires Shaped(engine.Model()) && manager.flushed != {}
      modifies this, engine, manager
      ensures var t, s, m := old(Model()), old(engine.Model()), old(manager.Model());
              if !MayCommit(t, s, m) then
                && result == Verdict(false)
                && Model() == AbortTran(t) && engine.Model() == s && manager.Model() == AddReady(m, id, Aborted)
              else if !logWorks then
                && result == LogFailed
                && Model() == LogTran(t) && engine.Model() == s && manager.Model() == m
              else
                && result == Verdict(true) && Orders(order, t.temp.Keys)
                && Model() == CommitTran(t) && engine.Model() == CommitStore(t, s, order, testFail)
                && manager.Model() == AddReady(m, id, Committed)
    {
      order := [];
      if level.ReadUncommitted? {
        operations := operations + [CommitRecord(id)];
        if !logWorks {
          return LogFailed, [];
        }
        engine.Put([], [], id);
        committed := true;
        manager.AddReadyToFlush(id, Committed);
        order := AnyOrder(temp.Keys);
        return Verdict(true), order;
      }
      if level.RepeatableRead? || level.Serializable? {
        var conflict := HasConflict();
        if conflict {
          aborted := true;
          manager.AddReadyToFlush(id, Aborted);
          return Verdict(false), [];
        }
      }
      operations := operations + [CommitRecord(id)];
      if !logWorks {
        return LogFailed, [];
      }
      if !testFail {
        order := ApplyBuffer();
        engine.Put([], [], id);
      } else {
        order := AnyOrder(temp.Keys);
      }
      committed := true;
      manager.AddReadyToFlush(id, Committed);
      result := Verdict(true);
    }

    /** The loop of `abort` at the lowest level: old versions go back under their old ids. */
    method UndoWrites() returns (ghost order: seq<Key>)
      requires Shaped(engine.Model())
      modifies engine
      ensures Orders(order, rollback.Keys) && Shaped(engine.Model())
      ensures engine.Model() == Rollback(old(engine.Model()), Model(), order)
    {
      hide KeySorted, Sl.Put;
      order := [];
      var left := rollback.Keys;
      while left != {}
        invariant left <= rollback.Keys && Shaped(engine.Model())
        invariant Orders(order, rollback.Keys - left)
        invariant engine.Model() == Rollback(old(engine.Model()), Model(), order)
        decreases |left|
      {
        var k: Key :| k in left;
        if rollback[k].Some? {
          engine.Put(k, rollback[k].value.value, rollback[k].value.tid);
        } else {
          engine.Put(k, [], id);
        }
        assert (order + [k])[..|order|] == order;
        OrdersOneMore(order, rollback.Keys - left, k);
        assert rollback.Keys - (left - {k}) == rollback.Keys - left + {k};
        order := order + [k];
        left := left - {k};
      }
      assert rollback.Keys - left == rollback.Keys;
    }

    method Abort() returns (ok: bool, ghost order: seq<Key>)
      requires Shaped(engine.Model())
      modifies this, engine, manager
      ensures ok && Model() == AbortTran(old(Model())) && manager.Model() == AddReady(old(manager.Model()), id, Aborted)
      ensures if Buffers(level) then engine.Model() == old(engine.Model())
              else Orders(order, rollback.Keys) && engine.Model() == Rollback(old(engine.Model()), old(Model()), order)
    {
      order := [];
      if level.ReadUncommitted? {
        order := UndoWrites();
        assert engine.Model() == Rollback(old(engine.Model()), old(Model()), order);
      }
      aborted := true;
      manager.AddReadyToFlush(id, Aborted);
      ok := true;
    }
  }

  lemma OrdersOneMore(order: seq<Key>, keys: set<Key>, k: Key)
    requires Orders(order, keys) && k !in keys
    ensures Orders(order + [k], keys + {k})
  {
  }

  lemma {:induction false} AnyOrder(keys: set<Key>) returns (order: seq<Key>)
    ensures Orders(order, keys)
    decreases |keys|
  {
    if keys == {} {
      order := [];
    } else {
      var k :| k in keys;
      var most := AnyOrder(keys - {k});
      OrdersOneMore(most, keys - {k}, k);
      assert keys - {k} + {k} == keys;
      order := most + [k];
    }
  }
}
