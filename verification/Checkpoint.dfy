/** The transaction manager's bookkeeping: ids that finished, ids known to be flushed, and the
    compressed set whose least element is the checkpoint. */
module Checkpoint {
  import opened IdSets

  // ---- compressSet ------------------------------------------------------------------------------

  /** `m` ends the run of consecutive ids that starts at the least element. */
  ghost predicate EndsRun(s: set<nat>, m: nat)
    requires s != {}
  {
    m in s && m + 1 !in s && forall n: nat :: Min(s) <= n <= m ==> n in s
  }

  lemma {:induction false} RunEnds(s: set<nat>, m: nat) returns (end: nat)
    requires s != {} && m in s && forall n: nat :: Min(s) <= n <= m ==> n in s
    ensures EndsRun(s, end)
    decreases Max(s) - m
  {
    if m + 1 in s {
      end := RunEnds(s, m + 1);
    } else {
      end := m;
    }
  }

  lemma RunEndExists(s: set<nat>)
    requires s != {}
    ensures exists m :: EndsRun(s, m)
  {
    var m := RunEnds(s, Min(s));
  }

  ghost function RunEnd(s: set<nat>): (m: nat)
    requires s != {}
    ensures EndsRun(s, m)
  {
    RunEndExists(s);
    var m :| EndsRun(s, m);
    m
  }

  lemma RunEndUnique(s: set<nat>, m: nat)
    requires s != {} && EndsRun(s, m)
    ensures m == RunEnd(s)
  {
    var r := RunEnd(s);
    assert m < r ==> m + 1 in s;
    assert r < m ==> r + 1 in s;
  }

  /** What compression keeps: the leading run collapses into its last id. */
  ghost function Compress(s: set<nat>): set<nat> {
    if s == {} then {} else set n | n in s && n >= RunEnd(s)
  }

  /** The first loop of `compressSet`: how many ids the leading run has. */
  method LeadingRun(s: set<nat>, order: seq<nat>) returns (i: nat)
    requires s != {} && Lists(order, s)
    ensures 1 <= i <= |order| && order[i - 1] == RunEnd(s)
  {
    Bottom(order, s);
    var last := order[0];
    i := 1;
    while i < |order| && order[i] == last + 1
      invariant 1 <= i <= |order| && last == order[i - 1]
      invariant forall n: nat :: Min(s) <= n <= last ==> n in s
    {
      last := order[i];
      i := i + 1;
    }
    ListedFrom(order, s, i);
    RunEndUnique(s, last);
  }

  method CompressSet(s: set<nat>) returns (result: set<nat>)
    ensures result == Compress(s)
  {
    if s == {} {
      return {};
    }
    var order := Ascending(s);
    var j := LeadingRun(s, order);
    result := {order[j - 1]};
    var i := j;
    while i < |order|
      invariant j <= i <= |order|
      invariant result == {order[j - 1]} + set p | j <= p < i :: order[p]
    {
      result := result + {order[i]};
      i := i + 1;
    }
    CompressListed(order, s, j, result);
  }

  lemma {:induction false} CompressListed(order: seq<nat>, s: set<nat>, j: nat, result: set<nat>)
    requires Lists(order, s) && s != {} && 1 <= j <= |order| && order[j - 1] == RunEnd(s)
    requires result == {order[j - 1]} + set p | j <= p < |order| :: order[p]
    ensures result == Compress(s)
  {
    forall n: nat | n in Compress(s) ensures n in result {
      var p :| 0 <= p < |order| && order[p] == n;
      assert p >= j - 1;
    }
    forall n | n in result ensures n in Compress(s) {
      if n != order[j - 1] {
        var p :| j <= p < |order| && n == order[p];
        assert order[j - 1] < order[p];
      }
    }
  }

  lemma {:induction false} Bottom(order: seq<nat>, s: set<nat>)
    requires Lists(order, s) && s != {}
    ensures order != [] && order[0] == Min(s)
  {
    var p :| 0 <= p < |order| && order[p] == Min(s);
    assert p > 0 ==> order[0] < order[p];
  }

  lemma {:induction false} ListedFrom(order: seq<nat>, s: set<nat>, i: nat)
    requires Lists(order, s) && 1 <= i <= |order|
    requires i < |order| ==> order[i] != order[i - 1] + 1
    ensures order[i - 1] + 1 !in s
  {
    forall p | 0 <= p < |order| ensures order[p] != order[i - 1] + 1 {
      if p < i - 1 {
        assert order[p] < order[i - 1];
      } else if p > i {
        assert order[i - 1] < order[i] < order[p];
      }
    }
  }

  /** The least element moves up over consecutive ids that are all present, and only over those;
      nothing else is lost and the greatest element stays. */
  lemma {:induction false} CompressMeaning(s: set<nat>)
    requires s != {}
    ensures var c := Compress(s);
            && c != {} && Min(s) <= Min(c) && Max(c) == Max(s)
            && (forall n: nat :: Min(s) <= n <= Min(c) ==> n in s)
            && (forall n: nat :: n > Min(c) ==> (n in c <==> n in s))
            && Min(c) + 1 !in c
  {
    var c := Compress(s);
    assert RunEnd(s) in c;
    assert Min(c) == RunEnd(s);
    assert Max(s) in c;
  }

  lemma {:induction false} CompressIdempotent(s: set<nat>)
    ensures Compress(Compress(s)) == Compress(s)
  {
    if s != {} {
      CompressMeaning(s);
      var c := Compress(s);
      assert EndsRun(c, Min(c));
      RunEndUnique(c, Min(c));
    }
  }

  // ---- the manager --------------------------------------------------------------------------------

  datatype Outcome = Committed | Aborted

  datatype Manager = Manager(next: nat, ready: map<nat, Outcome>, flushed: set<nat>)

  /** A new data directory: id 0 counts as flushed and the first transaction gets id 1. */
  function FreshManager(): Manager { Manager(1, map[], {0}) }

  function TakeId(m: Manager): Manager { m.(next := m.next + 1) }

  function AddReady(m: Manager, id: nat, outcome: Outcome): Manager {
    m.(ready := m.ready[id := outcome])
  }

  /** The ids that a flush notification for `id` moves: `id` itself and every older aborted one. */
  function Settled(ready: map<nat, Outcome>, id: nat): set<nat> {
    set r | r in ready && (r == id || (r < id && ready[r].Aborted?))
  }

  ghost function AddFlushed(m: Manager, id: nat): Manager {
    var moved := Settled(m.ready, id);
    m.(ready := m.ready - moved, flushed := Compress(m.flushed + moved))
  }

  ghost function AddAllFlushed(m: Manager, ids: seq<nat>): Manager {
    if ids == [] then m else AddFlushed(AddAllFlushed(m, ids[..|ids| - 1]), ids[|ids| - 1])
  }

  /** An id that no flush has accounted for: it lies above the checkpoint, outside the set. */
  ghost predicate Pending(m: Manager, id: nat)
    requires m.flushed != {}
  {
    id > Min(m.flushed) && id !in m.flushed
  }

  ghost predicate Sound(m: Manager) {
    && m.flushed != {}
    && (forall id :: id in m.ready ==> Pending(m, id) && id < m.next)
    && (forall id :: id in m.flushed ==> id < m.next)
  }

  /** One notification: the checkpoint never moves back, exactly the settled ids leave the ready
      map, and an id that is neither flushed nor settled stays pending. */
  lemma {:induction false} AddFlushedMeaning(m: Manager, id: nat)
    requires Sound(m)
    ensures var r := AddFlushed(m, id);
            && Sound(r) && r.next == m.next
            && Min(r.flushed) >= Min(m.flushed)
            && Max(r.flushed) >= Max(m.flushed) && (id in m.ready ==> Max(r.flushed) >= id)
            && (forall x: nat :: Pending(m, x) && x !in Settled(m.ready, id) ==> Pending(r, x))
            && (forall x :: x in r.ready <==> x in m.ready && x !in Settled(m.ready, id))
            && (forall x :: x in r.ready ==> r.ready[x] == m.ready[x])
  {
    var moved := Settled(m.ready, id);
    var all := m.flushed + moved;
    assert forall x :: x in moved ==> x in m.ready;
    assert Max(m.flushed) in all && (id in m.ready ==> id in all);
    CompressMeaning(all);
    assert Min(all) == Min(m.flushed);
    forall x: nat | Pending(m, x) && x !in moved ensures Pending(AddFlushed(m, id), x) {
      assert x !in all && x > Min(all);
      assert x <= Min(Compress(all)) ==> x in all;
    }
  }

  /** How far one notification moves the checkpoint: over every id that is flushed, is the notified one, or is an
      older aborted one, up to the first that is none of these. */
  lemma {:induction false} CheckpointReachesIff(m: Manager, id: nat, y: nat)
    requires Sound(m) && y > Min(m.flushed)
    ensures AddFlushed(m, id).flushed != {}
    ensures Min(AddFlushed(m, id).flushed) >= y <==>
            forall x: nat :: Min(m.flushed) < x <= y ==>
              x in m.flushed || (x in m.ready && (x == id || (x < id && m.ready[x] == Aborted)))
  {
    var all := m.flushed + Settled(m.ready, id);
    var c := Compress(all);
    CompressMeaning(all);
    assert Min(all) == Min(m.flushed);
    assert Min(c) < y ==> Min(c) + 1 !in all;
  }

  /** A whole flush notifies ids one by one. */
  lemma {:induction false} AddAllFlushedMeaning(m: Manager, ids: seq<nat>)
    requires Sound(m)
    ensures var r := AddAllFlushed(m, ids);
            && Sound(r) && r.next == m.next
            && Min(r.flushed) >= Min(m.flushed) && Max(r.flushed) >= Max(m.flushed)
            && (forall x: nat :: Pending(m, x) && x !in m.ready ==> Pending(r, x))
            && (forall x :: x in r.ready ==> x in m.ready && r.ready[x] == m.ready[x] && x !in ids)
            && (forall x :: x in m.ready && x !in r.ready ==> x in ids || m.ready[x].Aborted?)
            && (forall x :: x in m.ready && x in ids && m.ready[x].Committed? ==> Max(r.flushed) >= x)
  {
    if ids != [] {
      hide AddFlushed;
      var most, last := ids[..|ids| - 1], ids[|ids| - 1];
      assert ids == most + [last];
      AddAllFlushedMeaning(m, most);
      AddFlushedMeaning(AddAllFlushed(m, most), last);
    }
  }

  class TranManager {
    var nextTransactionId: nat
    var readyToFlush: map<nat, Outcome>
    var flushed: set<nat>

    function Model(): Manager
      reads this
    {
      Manager(nextTransactionId, readyToFlush, flushed)
    }

    constructor ()
      ensures Model() == FreshManager() && Sound(Model())
    {
      nextTransactionId, readyToFlush, flushed := 1, map[], {0};
    }

    method GetNextTransactionId() returns (id: nat)
      modifies this
      ensures id == old(nextTransactionId) && Model() == TakeId(old(Model()))
    {
      id := nextTransactionId;
      nextTransactionId := nextTransactionId + 1;
    }

    method AddReadyToFlush(id: nat, outcome: Outcome)
      modifies this
      ensures Model() == AddReady(old(Model()), id, outcome)
    {
      readyToFlush := readyToFlush[id := outcome];
    }

    method AddFlushedId(id: nat)
      modifies this
      ensures Model() == AddFlushed(old(Model()), id)
    {
      var needRemove := CollectSettled(readyToFlush, id);
      readyToFlush := readyToFlush - needRemove;
      flushed := CompressSet(flushed + needRemove);
    }

    method GetCheckpointId() returns (id: nat)
      requires flushed != {}
      ensures id == Min(flushed)
    {
      var order := Ascending(flushed);
      Bottom(order, flushed);
      id := order[0];
    }

    method GetMaxFlushedId() returns (id: nat)
      requires flushed != {}
      ensures id == Max(flushed)
    {
      var order := Ascending(flushed);
      Bottom(order, flushed);
      id := order[|order| - 1];
      ghost var p :| 0 <= p < |order| && order[p] == Max(flushed);
    }
  }

  /** Walks the ready map in ascending order and stops at `id`. */
  method CollectSettled(ready: map<nat, Outcome>, id: nat) returns (moved: set<nat>)
    ensures moved == Settled(ready, id)
  {
    var order := Ascending(ready.Keys);
    moved := {};
    var i := 0;
    var found := false;
    while i < |order| && !found
      invariant 0 <= i <= |order|
      invariant moved == set p | 0 <= p < i && order[p] in Settled(ready, id) :: order[p]
      invariant found ==> i > 0 && order[i - 1] == id
      decreases |order| - i, !found
    {
      var readyId := order[i];
      if readyId < id && ready[readyId].Aborted? {
        moved := moved + {readyId};
      } else if readyId == id {
        moved := moved + {readyId};
        found := true;
      }
      i := i + 1;
    }
    SettledListed(ready, id, order, i);
  }

  lemma {:induction false} SettledListed(ready: map<nat, Outcome>, id: nat, order: seq<nat>, i: nat)
    requires Lists(order, ready.Keys) && i <= |order|
    requires i < |order| ==> i > 0 && order[i - 1] == id
    ensures Settled(ready, id) == set p | 0 <= p < i && order[p] in Settled(ready, id) :: order[p]
  {
    forall r: nat | r in Settled(ready, id) ensures exists p :: 0 <= p < i && order[p] == r {
      assert r in ready.Keys;
      var p :| 0 <= p < |order| && order[p] == r;
      assert p < i;
    }
  }
}
