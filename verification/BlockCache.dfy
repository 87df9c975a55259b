/** The LRU-K block cache: two lists and an index, against a reference that remembers for every
    cached block how often and when it was last used. */
module BlockCaches {
  import opened Entries

  /** A block is identified by its file and its place in the file. */
  datatype Id = Id(sst: int, block: int)

  type Block = seq<Entry>

  datatype Item = Item(id: Id, block: Block, count: nat)

  // ---- the reference -------------------------------------------------------------------------------

  datatype Info = Info(block: Block, count: nat, when: nat)

  /** `clock` counts the calls; `when` is the number of the call that last used the block. */
  datatype Ref = Ref(clock: nat, at: map<Id, Info>)

  ghost predicate Timed(r: Ref) {
    && (forall x :: x in r.at ==> r.at[x].when < r.clock)
    && (forall x, y :: x in r.at && y in r.at && x != y ==> r.at[x].when != r.at[y].when)
  }

  function Drop(r: Ref, id: Id): Ref { r.(at := r.at - {id}) }

  function Tick(r: Ref): Ref { r.(clock := r.clock + 1) }

  /** A use of `id`, now. */
  function Enter(r: Ref, id: Id, block: Block, count: nat): Ref {
    Ref(r.clock + 1, r.at[id := Info(block, count, r.clock)])
  }

  /** The block to evict: among those used fewer than `k` times if there are any, otherwise among
      all, the one whose last use is longest ago. */
  ghost predicate IsVictim(r: Ref, k: nat, v: Id) {
    && v in r.at
    && (forall x :: x in r.at && r.at[x].count < k ==> r.at[v].count < k && r.at[v].when <= r.at[x].when)
    && ((forall x :: x in r.at ==> r.at[x].count >= k) ==> forall x :: x in r.at ==> r.at[v].when <= r.at[x].when)
  }

  lemma VictimUnique(r: Ref, k: nat, v: Id, w: Id)
    requires Timed(r) && IsVictim(r, k, v) && IsVictim(r, k, w)
    ensures v == w
  {
  }

  lemma {:induction false} Oldest(r: Ref, among: set<Id>) returns (v: Id)
    requires among != {} && among <= r.at.Keys
    ensures v in among && forall x :: x in among ==> r.at[v].when <= r.at[x].when
    decreases |among|
  {
    var a :| a in among;
    var rest := among - {a};
    if rest == {} {
      v := a;
      forall x | x in among ensures x == a {
        assert x != a ==> x in rest;
      }
    } else {
      var w := Oldest(r, rest);
      v := if r.at[w].when < r.at[a].when then w else a;
      forall x | x in among ensures r.at[v].when <= r.at[x].when {
        assert x == a || x in rest;
      }
    }
  }

  lemma VictimExists(r: Ref, k: nat)
    requires r.at != map[]
    ensures exists v :: IsVictim(r, k, v)
  {
    var few := set x | x in r.at && r.at[x].count < k;
    var v := Oldest(r, if few != {} then few else r.at.Keys);
    assert forall x :: x in r.at && r.at[x].count < k ==> x in few;
    assert IsVictim(r, k, v);
  }

  ghost function Victim(r: Ref, k: nat): (v: Id)
    requires r.at != map[]
    ensures IsVictim(r, k, v)
  {
    VictimExists(r, k);
    var v :| IsVictim(r, k, v);
    v
  }

  ghost function RefGet(r: Ref, id: Id): Ref {
    if id in r.at then Enter(r, id, r.at[id].block, r.at[id].count + 1) else Tick(r)
  }

  ghost function RefPut(r: Ref, id: Id, block: Block, capacity: nat, k: nat): Ref
    requires capacity >= 1
  {
    if id in r.at then Enter(r, id, block, r.at[id].count + 1)
    else if |r.at| >= capacity then Enter(Drop(r, Victim(r, k)), id, block, 1)
    else Enter(r, id, block, 1)
  }

  // ---- what every run keeps -----------------------------------------------------------------------

  datatype Op = DoGet(id: Id) | DoPut(id: Id, block: Block)

  ghost function RefStep(r: Ref, op: Op, capacity: nat, k: nat): Ref
    requires capacity >= 1
  {
    match op
    case DoGet(id) => RefGet(r, id)
    case DoPut(id, block) => RefPut(r, id, block, capacity, k)
  }

  ghost function RefRun(ops: seq<Op>, capacity: nat, k: nat): Ref
    requires capacity >= 1
  {
    if ops == [] then Ref(0, map[]) else RefStep(RefRun(ops[..|ops| - 1], capacity, k), ops[|ops| - 1], capacity, k)
  }

  lemma {:induction false} RefRunStep(ops: seq<Op>, op: Op, capacity: nat, k: nat)
    requires capacity >= 1
    ensures RefRun(ops + [op], capacity, k) == RefStep(RefRun(ops, capacity, k), op, capacity, k)
  {
    hide RefStep;
    assert (ops + [op])[..|ops|] == ops;
  }

  /** The block most recently put for `id`. */
  ghost predicate LastPut(ops: seq<Op>, id: Id, block: Block) {
    exists i :: 0 <= i < |ops| && ops[i] == DoPut(id, block) &&
                forall j :: i < j < |ops| ==> !(ops[j].DoPut? && ops[j].id == id)
  }

  lemma {:induction false} LastPutStays(ops: seq<Op>, op: Op, id: Id, block: Block)
    requires LastPut(ops, id, block) && !(op.DoPut? && op.id == id)
    ensures LastPut(ops + [op], id, block)
  {
    var i :| 0 <= i < |ops| && ops[i] == DoPut(id, block) &&
             forall j :: i < j < |ops| ==> !(ops[j].DoPut? && ops[j].id == id);
    assert (ops + [op])[i] == DoPut(id, block);
  }

  lemma {:induction false} LastPutNow(ops: seq<Op>, id: Id, block: Block)
    ensures LastPut(ops + [DoPut(id, block)], id, block)
  {
    assert (ops + [DoPut(id, block)])[|ops|] == DoPut(id, block);
  }

  // ---- the history of a cached block ----------------------------------------------------------------

  /** The number of calls on `id`. */
  ghost function CountOn(ops: seq<Op>, id: Id): nat {
    if ops == [] then 0 else CountOn(ops[..|ops| - 1], id) + if ops[|ops| - 1].id == id then 1 else 0
  }

  ghost predicate Cached(ops: seq<Op>, id: Id, capacity: nat, k: nat)
    requires capacity >= 1
  {
    id in RefRun(ops, capacity, k).at
  }

  /** Call `i` put `id` into the cache, and it has been there since. */
  ghost predicate Inserted(ops: seq<Op>, id: Id, i: nat, capacity: nat, k: nat)
    requires capacity >= 1
  {
    && i < |ops| && ops[i].DoPut? && ops[i].id == id && !Cached(ops[..i], id, capacity, k)
    && forall j :: i < j <= |ops| ==> Cached(ops[..j], id, capacity, k)
  }

  /** Call `i` is the last on `id`. */
  ghost predicate IsLastUse(ops: seq<Op>, id: Id, i: nat) {
    i < |ops| && ops[i].id == id && forall j :: i < j < |ops| ==> ops[j].id != id
  }

  /** The recorded count is the number of calls since the inserting one, and `when` is the last of them. */
  ghost predicate Counted(ops: seq<Op>, id: Id, info: Info, capacity: nat, k: nat)
    requires capacity >= 1
  {
    && (exists i: nat :: i < |ops| && Inserted(ops, id, i, capacity, k) && info.count == CountOn(ops[i..], id))
    && IsLastUse(ops, id, info.when)
  }

  lemma {:induction false} InsertedOnce(ops: seq<Op>, id: Id, i: nat, j: nat, capacity: nat, k: nat)
    requires capacity >= 1 && Inserted(ops, id, i, capacity, k) && Inserted(ops, id, j, capacity, k)
    ensures i == j
  {
    hide Cached;
  }

  lemma {:induction false} InsertedStays(ops: seq<Op>, op: Op, id: Id, i: nat, capacity: nat, k: nat)
    requires capacity >= 1 && Inserted(ops, id, i, capacity, k) && Cached(ops + [op], id, capacity, k)
    ensures Inserted(ops + [op], id, i, capacity, k)
    ensures CountOn((ops + [op])[i..], id) == CountOn(ops[i..], id) + if op.id == id then 1 else 0
  {
    hide Cached;
    var all := ops + [op];
    assert all[..i] == ops[..i];
    forall j | i < j <= |all| ensures Cached(all[..j], id, capacity, k) {
      if j <= |ops| {
        assert all[..j] == ops[..j];
      } else {
        assert all[..j] == all;
      }
    }
    assert all[i..][..|ops| - i] == ops[i..];
  }

  lemma {:induction false} InsertedNow(ops: seq<Op>, op: Op, capacity: nat, k: nat)
    requires capacity >= 1 && op.DoPut? && !Cached(ops, op.id, capacity, k) && Cached(ops + [op], op.id, capacity, k)
    ensures Inserted(ops + [op], op.id, |ops|, capacity, k) && CountOn((ops + [op])[|ops|..], op.id) == 1
  {
    hide Cached;
    var all := ops + [op];
    assert all[..|ops|] == ops && all[..|all|] == all && all[|ops|..] == [op];
    assert CountOn([op][..0], op.id) == 0;
  }

  lemma {:induction false} CountedStays(ops: seq<Op>, op: Op, id: Id, info: Info, b: Block, capacity: nat, k: nat)
    requires capacity >= 1 && Counted(ops, id, info, capacity, k) && Cached(ops + [op], id, capacity, k)
    ensures op.id != id ==> Counted(ops + [op], id, info, capacity, k)
    ensures op.id == id ==> Counted(ops + [op], id, Info(b, info.count + 1, |ops|), capacity, k)
  {
    hide Cached, Inserted, CountOn;
    var i: nat :| i < |ops| && Inserted(ops, id, i, capacity, k) && info.count == CountOn(ops[i..], id);
    InsertedStays(ops, op, id, i, capacity, k);
  }

  lemma {:induction false} CountedNow(ops: seq<Op>, op: Op, capacity: nat, k: nat)
    requires capacity >= 1 && op.DoPut? && !Cached(ops, op.id, capacity, k) && Cached(ops + [op], op.id, capacity, k)
    ensures Counted(ops + [op], op.id, Info(op.block, 1, |ops|), capacity, k)
  {
    hide Cached, Inserted, CountOn;
    InsertedNow(ops, op, capacity, k);
  }

  /** What a call makes of one cached block. */
  lemma {:induction false} StepInfo(r: Ref, op: Op, id: Id, capacity: nat, k: nat)
    requires capacity >= 1 && id in RefStep(r, op, capacity, k).at
    ensures var info := RefStep(r, op, capacity, k).at[id];
            if op.id != id then id in r.at && info == r.at[id]
            else if id in r.at then
              info == Info(if op.DoPut? then op.block else r.at[id].block, r.at[id].count + 1, r.clock)
            else op.DoPut? && info == Info(op.block, 1, r.clock)
  {
    hide IsVictim;
  }

  lemma {:induction false} StepCounted(ops: seq<Op>, op: Op, id: Id, capacity: nat, k: nat)
    requires capacity >= 1 && RefRun(ops, capacity, k).clock == |ops| && Cached(ops + [op], id, capacity, k)
    requires Cached(ops, id, capacity, k) ==> Counted(ops, id, RefRun(ops, capacity, k).at[id], capacity, k)
    ensures Counted(ops + [op], id, RefRun(ops + [op], capacity, k).at[id], capacity, k)
  {
    hide RefStep, RefRun, Counted;
    RefRunStep(ops, op, capacity, k);
    var r := RefRun(ops, capacity, k);
    StepInfo(r, op, id, capacity, k);
    if id in r.at {
      CountedStays(ops, op, id, r.at[id], if op.DoPut? then op.block else r.at[id].block, capacity, k);
    } else {
      CountedNow(ops, op, capacity, k);
    }
  }

  /** In every run: the cache never exceeds its capacity, uses are totally ordered in time, what is cached for a
      key is the block last put for it, and its use count and time are those of its history. */
  lemma {:induction false} RunsKeep(ops: seq<Op>, capacity: nat, k: nat)
    requires capacity >= 1
    ensures var r := RefRun(ops, capacity, k);
            && |r.at| <= capacity && Timed(r)
            && (forall id :: id in r.at ==> LastPut(ops, id, r.at[id].block))
            && r.clock == |ops| && (forall id :: id in r.at ==> Counted(ops, id, r.at[id], capacity, k))
  {
    hide LastPut, IsVictim, Timed, RefStep, Counted;
    if ops == [] {
      NothingTimed();
    } else {
      var most, op := ops[..|ops| - 1], ops[|ops| - 1];
      assert ops == most + [op];
      RunsKeep(most, capacity, k);
      StepSizes(RefRun(most, capacity, k), op, capacity, k);
      StepLastPut(most, RefRun(most, capacity, k), op, capacity, k);
      forall id | id in RefRun(ops, capacity, k).at
        ensures Counted(ops, id, RefRun(ops, capacity, k).at[id], capacity, k)
      {
        StepCounted(most, op, id, capacity, k);
      }
    }
  }

  lemma NothingTimed()
    ensures Timed(Ref(0, map[]))
  {
  }

  lemma {:induction false} StepLastPut(ops: seq<Op>, r: Ref, op: Op, capacity: nat, k: nat)
    requires capacity >= 1 && forall id :: id in r.at ==> LastPut(ops, id, r.at[id].block)
    ensures var now := RefStep(r, op, capacity, k);
            forall id :: id in now.at ==> LastPut(ops + [op], id, now.at[id].block)
  {
    hide LastPut, IsVictim;
    var now := RefStep(r, op, capacity, k);
    forall id | id in now.at ensures LastPut(ops + [op], id, now.at[id].block) {
      if op.DoPut? && op.id == id {
        LastPutNow(ops, id, op.block);
      } else {
        LastPutStays(ops, op, id, r.at[id].block);
      }
    }
  }

  lemma TimedEnter(r: Ref, id: Id, block: Block, count: nat)
    requires Timed(r)
    ensures Timed(Enter(r, id, block, count))
  {
  }

  lemma TimedDrop(r: Ref, id: Id)
    requires Timed(r)
    ensures Timed(Drop(r, id))
  {
  }

  lemma {:induction false} StepSizes(r: Ref, op: Op, capacity: nat, k: nat)
    requires capacity >= 1 && |r.at| <= capacity && Timed(r)
    ensures var now := RefStep(r, op, capacity, k);
            |now.at| <= capacity && Timed(now) && now.clock == r.clock + 1
  {
    hide Timed, IsVictim;
    var id := op.id;
    if id in r.at {
      var block, count := if op.DoPut? then op.block else r.at[id].block, r.at[id].count + 1;
      TimedEnter(r, id, block, count);
      MapKeeps(r.at, id, Info(block, count, r.clock));
    } else if op.DoPut? {
      var from := if |r.at| >= capacity then Drop(r, Victim(r, k)) else r;
      if |r.at| >= capacity {
        VictimCached(r, k);
        MapDrops(r.at, Victim(r, k));
        TimedDrop(r, Victim(r, k));
      }
      TimedEnter(from, id, op.block, 1);
      MapGrows(from.at, id, Info(op.block, 1, r.clock));
    } else {
      TimedTick(r);
    }
  }

  lemma TimedTick(r: Ref)
    requires Timed(r)
    ensures Timed(Tick(r))
  {
  }

  lemma VictimCached(r: Ref, k: nat)
    requires r.at != map[]
    ensures Victim(r, k) in r.at
  {
  }

  lemma MapKeeps(m: map<Id, Info>, id: Id, v: Info)
    requires id in m
    ensures |m[id := v]| == |m|
  {
    assert m[id := v].Keys == m.Keys;
  }

  lemma MapGrows(m: map<Id, Info>, id: Id, v: Info)
    requires id !in m
    ensures |m[id := v]| == |m| + 1
  {
    assert m[id := v].Keys == m.Keys + {id};
  }

  lemma MapDrops(m: map<Id, Info>, id: Id)
    requires id in m
    ensures |m - {id}| == |m| - 1
  {
    assert (m - {id}).Keys == m.Keys - {id};
  }

  // ---- which block goes, by the history alone -------------------------------------------------------------

  /** The call that inserted a cached block. */
  ghost function InsertedAt(ops: seq<Op>, id: Id, capacity: nat, k: nat): (i: nat)
    requires capacity >= 1 && Cached(ops, id, capacity, k)
    ensures Inserted(ops, id, i, capacity, k)
  {
    RunsKeep(ops, capacity, k);
    assert Counted(ops, id, RefRun(ops, capacity, k).at[id], capacity, k);
    var i: nat :| i < |ops| && Inserted(ops, id, i, capacity, k);
    i
  }

  /** The calls on a cached block since it was inserted. */
  ghost function Uses(ops: seq<Op>, id: Id, capacity: nat, k: nat): nat
    requires capacity >= 1 && Cached(ops, id, capacity, k)
  {
    CountOn(ops[InsertedAt(ops, id, capacity, k)..], id)
  }

  ghost function LastUse(ops: seq<Op>, id: Id): int {
    if ops == [] then -1 else if ops[|ops| - 1].id == id then |ops| - 1 else LastUse(ops[..|ops| - 1], id)
  }

  lemma {:induction false} LastUseIs(ops: seq<Op>, id: Id, i: nat)
    requires IsLastUse(ops, id, i)
    ensures LastUse(ops, id) == i
  {
    if ops[|ops| - 1].id != id {
      LastUseIs(ops[..|ops| - 1], id, i);
    }
  }

  lemma {:induction false} InfoIsHistory(ops: seq<Op>, id: Id, capacity: nat, k: nat)
    requires capacity >= 1 && Cached(ops, id, capacity, k)
    ensures var info := RefRun(ops, capacity, k).at[id];
            info.count == Uses(ops, id, capacity, k) && info.when == LastUse(ops, id)
  {
    hide RefRun, Inserted, CountOn, LastPut, Timed;
    RunsKeep(ops, capacity, k);
    var info := RefRun(ops, capacity, k).at[id];
    assert Counted(ops, id, info, capacity, k);
    var i: nat :| i < |ops| && Inserted(ops, id, i, capacity, k) && info.count == CountOn(ops[i..], id);
    InsertedOnce(ops, id, i, InsertedAt(ops, id, capacity, k), capacity, k);
    LastUseIs(ops, id, info.when);
  }

  /** `v` goes before `x`: it has not reached `k` uses and `x` has, or they are alike in that and its last use is
      longer ago. */
  ghost predicate GoesFirst(ops: seq<Op>, v: Id, x: Id, capacity: nat, k: nat)
    requires capacity >= 1 && Cached(ops, v, capacity, k) && Cached(ops, x, capacity, k)
  {
    var few, few' := Uses(ops, v, capacity, k) < k, Uses(ops, x, capacity, k) < k;
    (few && !few') || (few == few' && LastUse(ops, v) < LastUse(ops, x))
  }

  /** In every run, the block to evict is the cached one that goes before all others by its history. */
  lemma {:induction false} VictimByHistory(ops: seq<Op>, v: Id, capacity: nat, k: nat)
    requires capacity >= 1 && Cached(ops, v, capacity, k)
    ensures Victim(RefRun(ops, capacity, k), k) == v <==>
            forall x :: Cached(ops, x, capacity, k) && x != v ==> GoesFirst(ops, v, x, capacity, k)
  {
    hide RefRun, Uses, LastUse, LastPut, Counted;
    RunsKeep(ops, capacity, k);
    var r := RefRun(ops, capacity, k);
    forall x | x in r.at
      ensures r.at[x].count == Uses(ops, x, capacity, k) && r.at[x].when == LastUse(ops, x)
    {
      InfoIsHistory(ops, x, capacity, k);
    }
    var w := Victim(r, k);
    assert Cached(ops, w, capacity, k);
    if w == v {
      forall x | Cached(ops, x, capacity, k) && x != v ensures GoesFirst(ops, v, x, capacity, k) {
        assert r.at[v].when != r.at[x].when;
      }
    }
    if forall x :: Cached(ops, x, capacity, k) && x != v ==> GoesFirst(ops, v, x, capacity, k) {
      forall x | x in r.at && x != v ensures GoesFirst(ops, v, x, capacity, k) {
        assert Cached(ops, x, capacity, k);
      }
      VictimUnique(r, k, v, w);
    }
  }

  /** In every run, which blocks are cached changes only when a new one is put: it joins them, and exactly when
      the cache is full the one that goes first leaves. */
  lemma {:induction false} CachedByHistory(ops: seq<Op>, op: Op, id: Id, capacity: nat, k: nat)
    requires capacity >= 1
    ensures var new' := op.DoPut? && !Cached(ops, op.id, capacity, k);
            Cached(ops + [op], id, capacity, k) <==>
            (new' && id == op.id) ||
            (Cached(ops, id, capacity, k) &&
             !(new' && |RefRun(ops, capacity, k).at| == capacity &&
               forall x :: Cached(ops, x, capacity, k) && x != id ==> GoesFirst(ops, id, x, capacity, k)))
  {
    hide RefRun, GoesFirst, LastPut, Counted, Timed, IsVictim;
    RunsKeep(ops, capacity, k);
    RefRunStep(ops, op, capacity, k);
    if Cached(ops, id, capacity, k) {
      VictimByHistory(ops, id, capacity, k);
    }
  }

  // ---- lists against the reference ---------------------------------------------------------------------

  ghost predicate Held(item: Item, r: Ref, k: nat, few: bool) {
    && item.id in r.at && (item.count < k <==> few)
    && r.at[item.id].block == item.block && r.at[item.id].count == item.count
  }

  function When(r: Ref, id: Id): nat { if id in r.at then r.at[id].when else 0 }

  /** The most recently used first. */
  ghost predicate Recent(list: seq<Item>, r: Ref) {
    forall i, j :: 0 <= i < j < |list| ==> When(r, list[i].id) > When(r, list[j].id)
  }

  ghost predicate Covers(list: seq<Item>, r: Ref, k: nat, few: bool) {
    forall id :: id in r.at && (r.at[id].count < k <==> few) ==> exists i :: 0 <= i < |list| && list[i].id == id
  }

  /** `list` holds exactly the items used fewer than `k` times (or, if not `few`, the others), ordered
      by last use. */
  ghost predicate Lists(list: seq<Item>, r: Ref, k: nat, few: bool) {
    && (forall i :: 0 <= i < |list| ==> Held(list[i], r, k, few))
    && Recent(list, r) && Covers(list, r, k, few)
  }

  function Without(list: seq<Item>, p: nat): (rest: seq<Item>)
    requires p < |list|
    ensures |rest| == |list| - 1
    ensures forall i :: 0 <= i < |rest| ==> rest[i] == list[if i < p then i else i + 1]
  {
    list[..p] + list[p + 1..]
  }

  lemma {:induction false} Distinct(list: seq<Item>, r: Ref, p: nat, i: nat)
    requires Recent(list, r) && p < |list| && i < |list| && i != p
    ensures list[i].id != list[p].id
  {
    if i < p {
      assert When(r, list[i].id) > When(r, list[p].id);
    } else {
      assert When(r, list[p].id) > When(r, list[i].id);
    }
  }

  /** Taking an item out of its list. */
  lemma {:induction false} ListsDrop(list: seq<Item>, r: Ref, k: nat, few: bool, p: nat)
    requires Lists(list, r, k, few) && p < |list|
    ensures Lists(Without(list, p), Drop(r, list[p].id), k, few)
  {
    var rest, now := Without(list, p), Drop(r, list[p].id);
    forall i | 0 <= i < |rest| ensures Held(rest[i], now, k, few) && When(now, rest[i].id) == When(r, rest[i].id) {
      Distinct(list, r, p, if i < p then i else i + 1);
    }
    DropRecent(list, r, p, now);
    DropCovers(list, r, k, few, p);
  }

  lemma {:induction false} DropRecent(list: seq<Item>, r: Ref, p: nat, now: Ref)
    requires Recent(list, r) && p < |list|
    requires forall i :: 0 <= i < |list| - 1 ==> When(now, Without(list, p)[i].id) == When(r, Without(list, p)[i].id)
    ensures Recent(Without(list, p), now)
  {
    var rest := Without(list, p);
    forall i, j | 0 <= i < j < |rest| ensures When(now, rest[i].id) > When(now, rest[j].id) {
      var a, b := if i < p then i else i + 1, if j < p then j else j + 1;
      assert When(r, list[a].id) > When(r, list[b].id);
    }
  }

  lemma {:induction false} DropCovers(list: seq<Item>, r: Ref, k: nat, few: bool, p: nat)
    requires Covers(list, r, k, few) && p < |list|
    ensures Covers(Without(list, p), Drop(r, list[p].id), k, few)
  {
    var rest, now := Without(list, p), Drop(r, list[p].id);
    forall id | id in now.at && (now.at[id].count < k <==> few)
      ensures exists i :: 0 <= i < |rest| && rest[i].id == id
    {
      assert id in r.at;
      var j :| 0 <= j < |list| && list[j].id == id;
      assert rest[if j < p then j else j - 1] == list[j];
    }
  }

  lemma {:induction false} OtherDrop(list: seq<Item>, r: Ref, k: nat, few: bool, id: Id)
    requires Lists(list, r, k, few) && id in r.at && (r.at[id].count < k <==> !few)
    ensures Lists(list, Drop(r, id), k, few)
  {
    var now := Drop(r, id);
    forall i | 0 <= i < |list| ensures Held(list[i], now, k, few) && When(now, list[i].id) == When(r, list[i].id) {
      assert Held(list[i], r, k, few);
    }
    forall x | x in now.at && (now.at[x].count < k <==> few) ensures exists i :: 0 <= i < |list| && list[i].id == x {
      assert x in r.at;
    }
  }

  /** Putting an item at the front of its list. */
  lemma {:induction false} ListsEnter(list: seq<Item>, r: Ref, k: nat, few: bool, item: Item)
    requires Lists(list, r, k, few) && Timed(r) && item.id !in r.at && (item.count < k <==> few)
    ensures Lists([item] + list, Enter(r, item.id, item.block, item.count), k, few)
  {
    hide Timed;
    var all, now := [item] + list, Enter(r, item.id, item.block, item.count);
    forall i | 0 <= i < |all| ensures Held(all[i], now, k, few) {
      assert i > 0 ==> Held(list[i - 1], r, k, few);
    }
    forall i, j | 0 <= i < j < |all| ensures When(now, all[i].id) > When(now, all[j].id) {
      assert Held(list[j - 1], r, k, few);
      UsedBefore(r, list[j - 1].id);
      if i > 0 {
        assert Held(list[i - 1], r, k, few);
        assert When(r, list[i - 1].id) > When(r, list[j - 1].id);
      }
    }
    EnterCovers(list, r, k, few, item);
  }

  lemma UsedBefore(r: Ref, id: Id)
    requires Timed(r) && id in r.at
    ensures When(r, id) < r.clock
  {
  }

  lemma {:induction false} EnterCovers(list: seq<Item>, r: Ref, k: nat, few: bool, item: Item)
    requires Covers(list, r, k, few) && item.id !in r.at
    ensures Covers([item] + list, Enter(r, item.id, item.block, item.count), k, few)
  {
    var all, now := [item] + list, Enter(r, item.id, item.block, item.count);
    forall x | x in now.at && (now.at[x].count < k <==> few) ensures exists i :: 0 <= i < |all| && all[i].id == x {
      if x == item.id {
        assert all[0].id == x;
      } else {
        assert x in r.at;
        var i :| 0 <= i < |list| && list[i].id == x;
        assert all[i + 1].id == x;
      }
    }
  }

  lemma {:induction false} OtherEnter(list: seq<Item>, r: Ref, k: nat, few: bool, item: Item)
    requires Lists(list, r, k, few) && item.id !in r.at && (item.count < k <==> !few)
    ensures Lists(list, Enter(r, item.id, item.block, item.count), k, few)
  {
    var now := Enter(r, item.id, item.block, item.count);
    forall i | 0 <= i < |list| ensures Held(list[i], now, k, few) && When(now, list[i].id) == When(r, list[i].id) {
      assert Held(list[i], r, k, few);
    }
    forall x | x in now.at && (now.at[x].count < k <==> few) ensures exists i :: 0 <= i < |list| && list[i].id == x {
      assert x in r.at;
    }
  }

  lemma {:induction false} ReEnter(r: Ref, id: Id, block: Block, count: nat)
    ensures Enter(Drop(r, id), id, block, count) == Enter(r, id, block, count)
  {
    assert (r.at - {id})[id := Info(block, count, r.clock)] == r.at[id := Info(block, count, r.clock)];
  }

  /** The back of a list was used longest ago. */
  lemma {:induction false} BackIsOldest(list: seq<Item>, r: Ref, k: nat, few: bool, x: Id)
    requires Lists(list, r, k, few) && x in r.at && (r.at[x].count < k <==> few)
    ensures list != [] && Held(list[|list| - 1], r, k, few) && When(r, list[|list| - 1].id) <= r.at[x].when
  {
    var i :| 0 <= i < |list| && list[i].id == x;
    assert Held(list[|list| - 1], r, k, few);
  }

  /** The back of the list to evict from is the victim. */
  lemma {:induction false} BackIsVictim(less: seq<Item>, greater: seq<Item>, r: Ref, k: nat)
    requires Lists(less, r, k, true) && Lists(greater, r, k, false) && Timed(r) && r.at != map[]
    ensures if less != [] then less[|less| - 1].id == Victim(r, k)
            else greater != [] && greater[|greater| - 1].id == Victim(r, k)
  {
    hide Timed, Recent, Covers;
    forall x | x in r.at
      ensures if r.at[x].count < k then less != [] && When(r, less[|less| - 1].id) <= r.at[x].when
              else greater != [] && When(r, greater[|greater| - 1].id) <= r.at[x].when
    {
      BackIsOldest(if r.at[x].count < k then less else greater, r, k, r.at[x].count < k, x);
    }
    var some :| some in r.at;
    var from := if less != [] then less else greater;
    var v := from[|from| - 1].id;
    assert Held(from[|from| - 1], r, k, less != []);
    assert IsVictim(r, k, v);
    VictimUnique(r, k, v, Victim(r, k));
  }

  /** The index knows exactly the cached ids, and the right list for each. */
  ghost predicate Indexed(index: map<Id, bool>, r: Ref, k: nat) {
    && index.Keys == r.at.Keys
    && forall id :: id in r.at ==> (index[id] <==> r.at[id].count < k)
  }

  /** The two lists and the index stand for `r`. */
  ghost predicate Stands(less: seq<Item>, greater: seq<Item>, index: map<Id, bool>, r: Ref, k: nat) {
    Lists(less, r, k, true) && Lists(greater, r, k, false) && Indexed(index, r, k) && Timed(r)
  }

  lemma StandsTick(less: seq<Item>, greater: seq<Item>, index: map<Id, bool>, r: Ref, k: nat)
    requires Stands(less, greater, index, r, k)
    ensures Stands(less, greater, index, Tick(r), k)
  {
    hide Timed;
    TimedTick(r);
    assert forall id :: When(Tick(r), id) == When(r, id);
    ListsTick(less, r, k, true);
    ListsTick(greater, r, k, false);
  }

  lemma ListsTick(list: seq<Item>, r: Ref, k: nat, few: bool)
    requires Lists(list, r, k, few)
    ensures Lists(list, Tick(r), k, few)
  {
    forall i | 0 <= i < |list| ensures Held(list[i], Tick(r), k, few) {
      assert Held(list[i], r, k, few);
    }
    assert forall id :: When(Tick(r), id) == When(r, id);
  }

  /** Taking an item out of the list it is in. */
  lemma {:induction false} TakeOut(less: seq<Item>, greater: seq<Item>, index: map<Id, bool>, r: Ref, k: nat,
                                   few: bool, p: nat)
    requires Stands(less, greater, index, r, k) && p < |if few then less else greater|
    ensures var item := (if few then less else greater)[p];
            && Held(item, r, k, few) && item.id in index && index[item.id] == few
            && (if few then Stands(Without(less, p), greater, index - {item.id}, Drop(r, item.id), k)
                else Stands(less, Without(greater, p), index - {item.id}, Drop(r, item.id), k))
  {
    hide Recent, Covers, Timed;
    var item := (if few then less else greater)[p];
    assert Held(item, r, k, few);
    ListsDrop(if few then less else greater, r, k, few, p);
    OtherDrop(if few then greater else less, r, k, !few, item.id);
    TimedDrop(r, item.id);
  }

  /** Putting a new item at the front of the list it belongs to. */
  lemma {:induction false} PutIn(less: seq<Item>, greater: seq<Item>, index: map<Id, bool>, r: Ref, k: nat, item: Item)
    requires Stands(less, greater, index, r, k) && item.id !in r.at
    ensures var now := Enter(r, item.id, item.block, item.count);
            if item.count < k then Stands([item] + less, greater, index[item.id := true], now, k)
            else Stands(less, [item] + greater, index[item.id := false], now, k)
  {
    hide Held, Recent, Covers, Timed;
    var few := item.count < k;
    ListsEnter(if few then less else greater, r, k, few, item);
    OtherEnter(if few then greater else less, r, k, !few, item);
    TimedEnter(r, item.id, item.block, item.count);
  }

  /** One use of an item: it moves to the front of the list its new count belongs to. */
  lemma {:induction false} Use(less: seq<Item>, greater: seq<Item>, index: map<Id, bool>, r: Ref, k: nat,
                               few: bool, p: nat, block: Block)
    requires Stands(less, greater, index, r, k) && p < |if few then less else greater|
    ensures var old' := (if few then less else greater)[p];
            var item := Item(old'.id, block, old'.count + 1);
            var now := Enter(r, item.id, block, item.count);
            && item.id in r.at && (few <==> item.count <= k)
            && (item.count < k ==> Stands([item] + Without(less, p), greater, index, now, k))
            && (item.count == k ==> Stands(Without(less, p), [item] + greater, index[item.id := false], now, k))
            && (item.count > k ==> Stands(less, [item] + Without(greater, p), index, now, k))
  {
    hide Stands, Without;
    var old' := (if few then less else greater)[p];
    var item := Item(old'.id, block, old'.count + 1);
    TakeOut(less, greater, index, r, k, few, p);
    ReEnter(r, item.id, block, item.count);
    PutIn(if few then Without(less, p) else less, if few then greater else Without(greater, p),
          index - {item.id}, Drop(r, item.id), k, item);
    assert (index - {item.id})[item.id := item.count < k] == index[item.id := item.count < k];
    assert item.count != k ==> index[item.id := item.count < k] == index;
  }

  /** The back of `less`, or of `greater` when `less` is empty, is the victim; without it the rest stands. */
  lemma {:induction false} DropBack(less: seq<Item>, greater: seq<Item>, index: map<Id, bool>, r: Ref, k: nat)
    requires Stands(less, greater, index, r, k) && r.at != map[]
    ensures var v := Victim(r, k);
            && v in r.at
            && (less != [] ==> less[|less| - 1].id == v &&
                               Stands(less[..|less| - 1], greater, index - {v}, Drop(r, v), k))
            && (less == [] ==> greater != [] && greater[|greater| - 1].id == v &&
                               Stands(less, greater[..|greater| - 1], index - {v}, Drop(r, v), k))
  {
    hide Stands, IsVictim;
    Back(less, greater, index, r, k);
    var few := less != [];
    var from := if few then less else greater;
    TakeOut(less, greater, index, r, k, few, |from| - 1);
    assert Without(from, |from| - 1) == from[..|from| - 1];
  }

  lemma Back(less: seq<Item>, greater: seq<Item>, index: map<Id, bool>, r: Ref, k: nat)
    requires Stands(less, greater, index, r, k) && r.at != map[]
    ensures Victim(r, k) in r.at
    ensures if less != [] then less[|less| - 1].id == Victim(r, k)
            else greater != [] && greater[|greater| - 1].id == Victim(r, k)
  {
    hide Lists, Indexed, Timed;
    BackIsVictim(less, greater, r, k);
  }

  // ---- the cache ---------------------------------------------------------------------------------------

  class BlockCache {
    const capacity: nat
    const k: nat
    var lessK: seq<Item>              // used fewer than k times
    var greaterK: seq<Item>
    var index: map<Id, bool>          // where an item lives: true for lessK
    var totalRequests: nat
    var hitRequests: nat
    ghost var ref: Ref

    ghost predicate Valid()
      reads this
    {
      capacity >= 1 && k >= 2 && |ref.at| <= capacity && Stands(lessK, greaterK, index, ref, k)
    }

    constructor (capacity: nat, k: nat)
      requires capacity >= 1 && k >= 2
      ensures Valid() && ref == Ref(0, map[]) && this.capacity == capacity && this.k == k
    {
      this.capacity, this.k := capacity, k;
      lessK, greaterK, index := [], [], map[];
      totalRequests, hitRequests := 0, 0;
      ref := Ref(0, map[]);
    }

    /** Follows the index to the item of `id`. */
    method Locate(id: Id) returns (few: bool, p: nat)
      requires Valid() && id in index
      ensures few == index[id] && id in ref.at
      ensures var list := if few then lessK else greaterK; p < |list| && list[p].id == id
      ensures Held(if few then lessK[p] else greaterK[p], ref, k, few)
    {
      hide Recent, Timed;
      few := index[id];
      var list := if few then lessK else greaterK;
      p := 0;
      assert exists i :: 0 <= i < |list| && list[i].id == id;
      while list[p].id != id
        invariant p < |list| && forall i :: 0 <= i < p ==> list[i].id != id
        decreases |list| - p
      {
        p := p + 1;
      }
    }

    /** Counts a use of the item at `p` and moves it: to the front of its list, or over to the other
        list when this is its k-th use. `block` is what the item holds from now on. */
    method UpdateAccessCount(few: bool, p: nat, block: Block)
      requires Valid() && p < |if few then lessK else greaterK|
      modifies this`lessK, this`greaterK, this`index, this`ref
      ensures Valid()
      ensures var item := (if few then old(lessK) else old(greaterK))[p];
              ref == Enter(old(ref), item.id, block, item.count + 1)
    {
      hide Stands;
      var old' := (if few then lessK else greaterK)[p];
      var item := Item(old'.id, block, old'.count + 1);
      Use(lessK, greaterK, index, ref, k, few, p, block);
      MapKeeps(ref.at, item.id, Info(block, item.count, ref.clock));
      ref := Enter(ref, item.id, block, item.count);
      if item.count < k {
        lessK := [item] + Without(lessK, p);
      } else if item.count == k {
        lessK := Without(lessK, p);
        greaterK := [item] + greaterK;
        index := index[item.id := false];
      } else {
        greaterK := [item] + Without(greaterK, p);
      }
    }

    /** A hit returns the block and counts as a use; a miss changes nothing but the request count. */
    method Get(id: Id) returns (block: Option<Block>)
      requires Valid()
      modifies this
      ensures Valid() && ref == RefGet(old(ref), id)
      ensures block == if id in old(ref).at then Some(old(ref).at[id].block) else None
      ensures totalRequests == old(totalRequests) + 1
      ensures hitRequests == old(hitRequests) + if block.Some? then 1 else 0
    {
      hide Lists, Timed;
      totalRequests := totalRequests + 1;
      if id !in index {
        StandsTick(lessK, greaterK, index, ref, k);
        ref := Tick(ref);
        return None;
      }
      hitRequests := hitRequests + 1;
      var few, p := Locate(id);
      block := Some(if few then lessK[p].block else greaterK[p].block);
      UpdateAccessCount(few, p, block.value);
    }

    /** Makes room: the back of `lessK` goes, or of `greaterK` when `lessK` is empty. */
    method Evict()
      requires Valid() && ref.at != map[]
      modifies this`lessK, this`greaterK, this`index, this`ref
      ensures Valid() && ref == Drop(old(ref), Victim(old(ref), k)) && |ref.at| < capacity
    {
      hide Stands, IsVictim;
      DropBack(lessK, greaterK, index, ref, k);
      ghost var v := Victim(ref, k);
      MapDrops(ref.at, v);
      ref := Drop(ref, v);
      if lessK != [] {
        index := index - {lessK[|lessK| - 1].id};
        lessK := lessK[..|lessK| - 1];
      } else {
        index := index - {greaterK[|greaterK| - 1].id};
        greaterK := greaterK[..|greaterK| - 1];
      }
    }

    method Put(id: Id, block: Block)
      requires Valid()
      modifies this
      ensures Valid() && ref == RefPut(old(ref), id, block, capacity, k)
    {
      hide Lists, Timed, IsVictim;
      if id in index {
        var few, p := Locate(id);
        UpdateAccessCount(few, p, block);
        return;
      }
      assert |index| == |ref.at| by { assert index.Keys == ref.at.Keys; }
      if |index| >= capacity {
        Evict();
      }
      PutIn(lessK, greaterK, index, ref, k, Item(id, block, 1));
      MapGrows(ref.at, id, Info(block, 1, ref.clock));
      lessK := [Item(id, block, 1)] + lessK;
      index := index[id := true];
      ref := Enter(ref, id, block, 1);
    }
  }
}
