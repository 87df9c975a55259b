/** The engine's store: the memory tables and the sorted files flushed from them, newest first.
    Writes go to the current table; reads walk the tables from new to old. */
module VersionStore {
  import opened Keys
  import opened Entries
  import Sl = SkipListSpec

  /** `tables[0]` is the current table, `tables[1..mem]` are the frozen ones and `tables[mem..]`
      were flushed to files. */
  datatype Store = Store(tables: seq<seq<Entry>>, mem: nat)

  ghost predicate Shaped(s: Store) {
    && 1 <= s.mem <= |s.tables|
    && forall i :: 0 <= i < |s.tables| ==> KeySorted(s.tables[i])
  }

  function EmptyStore(): Store { Store([[]], 1) }

  function Write(s: Store, e: Entry): Store
    requires s.tables != []
  {
    s.(tables := s.tables[0 := Sl.Put(s.tables[0], e)])
  }

  /** The current table becomes the newest frozen one. */
  function Freeze(s: Store): Store { Store([[]] + s.tables, s.mem + 1) }

  /** The oldest memory table becomes a file; a lone current table is frozen first. */
  function FlushOldest(s: Store): Store
    requires s.mem >= 1
  {
    var f := if s.mem == 1 then Freeze(s) else s;
    f.(mem := f.mem - 1)
  }

  // ---- reads --------------------------------------------------------------------------------------

  /** Memory tables: the first table, from new to old, whose skip list answers. */
  function MemGet(tables: seq<seq<Entry>>, k: Key, t: nat): Option<Entry> {
    if tables == [] then None
    else
      var r := Sl.Get(tables[0], k, t);
      if r.Some? then r else MemGet(tables[1..], k, t)
  }

  /** Files: the first file, from new to old, that holds a visible version. */
  function SstGet(tables: seq<seq<Entry>>, k: Key, t: nat): Option<Entry> {
    if tables == [] then None
    else
      var r := FirstVisible(Versions(tables[0], k), t);
      if r.Some? then r else SstGet(tables[1..], k, t)
  }

  /** The newest version found; a deletion mark counts as a find. */
  function Find(s: Store, k: Key, t: nat): Option<Entry>
    requires s.mem <= |s.tables|
  {
    var r := MemGet(s.tables[..s.mem], k, t);
    if r.Some? then r else SstGet(s.tables[s.mem..], k, t)
  }

  /** The engine's read: a find that is a deletion mark is no value. */
  function EngineGet(s: Store, k: Key, t: nat): Option<Entry>
    requires s.mem <= |s.tables|
  {
    var r := Find(s, k, t);
    if r.Some? && r.value.value == [] then None else r
  }

  // ---- the stack of a key over all tables -------------------------------------------------------

  function Stack(tables: seq<seq<Entry>>, k: Key): seq<Entry> {
    if tables == [] then [] else Versions(tables[0], k) + Stack(tables[1..], k)
  }

  lemma {:induction false} StackConcat(a: seq<seq<Entry>>, b: seq<seq<Entry>>, k: Key)
    ensures Stack(a + b, k) == Stack(a, k) + Stack(b, k)
  {
    hide Versions;
    if a == [] {
      assert a + b == b;
    } else {
      StackConcat(a[1..], b, k);
      assert (a + b)[0] == a[0] && (a + b)[1..] == a[1..] + b;
      var x, y, z := Versions(a[0], k), Stack(a[1..], k), Stack(b, k);
      assert x + (y + z) == (x + y) + z;
    }
  }

  ghost predicate Somewhere(tables: seq<seq<Entry>>, e: Entry) {
    exists i :: 0 <= i < |tables| && e in tables[i]
  }

  lemma {:induction false} StackMembers(tables: seq<seq<Entry>>, k: Key, e: Entry)
    ensures e in Stack(tables, k) <==> e.key == k && Somewhere(tables, e)
  {
    if tables != [] {
      StackMembers(tables[1..], k, e);
      VersionsMembers(tables[0], k, e);
      if Somewhere(tables[1..], e) {
        var i :| 0 <= i < |tables[1..]| && e in tables[1..][i];
        assert e in tables[i + 1];
      }
      if Somewhere(tables, e) {
        var i :| 0 <= i < |tables| && e in tables[i];
        assert i > 0 ==> e in tables[1..][i - 1];
      }
    }
  }

  lemma {:induction false} FirstVisibleConcat(a: seq<Entry>, b: seq<Entry>, t: nat)
    ensures FirstVisible(a + b, t) == if FirstVisible(a, t).Some? then FirstVisible(a, t) else FirstVisible(b, t)
  {
    if a == [] {
      assert a + b == b;
    } else {
      FirstVisibleConcat(a[1..], b, t);
      assert (a + b)[0] == a[0] && (a + b)[1..] == a[1..] + b;
    }
  }

  /** The file side is an exact snapshot read. */
  lemma {:induction false} SstGetIsFirstVisible(tables: seq<seq<Entry>>, k: Key, t: nat)
    ensures SstGet(tables, k, t) == FirstVisible(Stack(tables, k), t)
  {
    if tables != [] {
      SstGetIsFirstVisible(tables[1..], k, t);
      FirstVisibleConcat(Versions(tables[0], k), Stack(tables[1..], k), t);
    }
  }

  /** Whatever a memory read returns is a visible version of its key held by some table. */
  lemma {:induction false} MemGetMember(tables: seq<seq<Entry>>, k: Key, t: nat)
    ensures var r := MemGet(tables, k, t);
            r.Some? ==> r.value.key == k && Visible(r.value, t) && Somewhere(tables, r.value)
  {
    if tables != [] {
      MemGetMember(tables[1..], k, t);
      var r := MemGet(tables, k, t);
      if r.Some? {
        if Sl.Get(tables[0], k, t).Some? {
          assert r.value in tables[0];
        } else {
          var i :| 0 <= i < |tables[1..]| && r.value in tables[1..][i];
          assert r.value in tables[i + 1];
        }
      }
    }
  }

  lemma {:induction false} FindMember(s: Store, k: Key, t: nat)
    requires s.mem <= |s.tables|
    ensures var r := Find(s, k, t);
            r.Some? ==> r.value.key == k && Visible(r.value, t) && Somewhere(s.tables, r.value)
  {
    var r := Find(s, k, t);
    if r.Some? {
      MemGetMember(s.tables[..s.mem], k, t);
      SstGetIsFirstVisible(s.tables[s.mem..], k, t);
      if MemGet(s.tables[..s.mem], k, t).Some? {
        var i :| 0 <= i < s.mem && r.value in s.tables[..s.mem][i];
        assert r.value in s.tables[i];
      } else {
        StackMembers(s.tables[s.mem..], k, r.value);
        var i :| 0 <= i < |s.tables| - s.mem && r.value in s.tables[s.mem..][i];
        assert r.value in s.tables[s.mem + i];
      }
    }
  }

  /** With no snapshot bound a read sees the top of the stack over all tables. */
  lemma {:induction false} MemGetLatest(tables: seq<seq<Entry>>, k: Key)
    requires forall i :: 0 <= i < |tables| ==> KeySorted(tables[i])
    ensures var st := Stack(tables, k); MemGet(tables, k, 0) == if st == [] then None else Some(st[0])
  {
    if tables != [] {
      MemGetLatest(tables[1..], k);
      Sl.GetLooksAtTop(tables[0], k, 0);
    }
  }

  // ---- when a snapshot read is exact --------------------------------------------------------------

  /** The table that should answer hides it: its newest version of `k` is out of sight while an
      older one, in the same memory table, is visible. */
  predicate Shadowed(table: seq<Entry>, k: Key, t: nat) {
    var st := Versions(table, k);
    st != [] && !Visible(st[0], t) && FirstVisible(st, t).Some?
  }

  /** Where a snapshot read should be answered from: the first table with a visible version. */
  function Answering(tables: seq<seq<Entry>>, k: Key, t: nat): (i: nat)
    ensures i <= |tables|
    ensures i < |tables| ==> FirstVisible(Versions(tables[i], k), t).Some?
    ensures forall j :: 0 <= j < i ==> FirstVisible(Versions(tables[j], k), t).None?
  {
    if tables == [] || FirstVisible(Versions(tables[0], k), t).Some? then 0
    else 1 + Answering(tables[1..], k, t)
  }

  /** Nothing shadows the answer to a reader of `k` at `t`. */
  predicate Unshadowed(s: Store, k: Key, t: nat)
    requires s.mem <= |s.tables|
  {
    var i := Answering(s.tables[..s.mem], k, t);
    i < s.mem ==> !Shadowed(s.tables[i], k, t)
  }

  lemma {:induction false} MemGetExactIff(tables: seq<seq<Entry>>, k: Key, t: nat, below: Option<Entry>)
    requires forall i :: 0 <= i < |tables| ==> KeySorted(tables[i])
    requires Descending(Stack(tables, k))
    requires below.Some? ==> below.value !in Stack(tables, k)
    ensures var m := MemGet(tables, k, t);
            var want := FirstVisible(Stack(tables, k), t);
            var i := Answering(tables, k, t);
            ((if m.Some? then m else below) == (if want.Some? then want else below)) <==>
            (i < |tables| ==> !Shadowed(tables[i], k, t))
  {
    hide Versions, Sl.Get, KeySorted;
    if tables != [] {
      var top, rest := Versions(tables[0], k), Stack(tables[1..], k);
      Sl.GetLooksAtTop(tables[0], k, t);
      FirstVisibleConcat(top, rest, t);
      DescendingParts(top, rest);
      if FirstVisible(top, t).Some? {
        var e := FirstVisible(top, t).value;
        if !Visible(top[0], t) {
          LaterDiffers(tables[1..], k, t, e);
        }
      } else {
        assert top != [] ==> top[0] in top;
        MemGetExactIff(tables[1..], k, t, below);
      }
    }
  }

  lemma {:induction false} DescendingParts(a: seq<Entry>, b: seq<Entry>)
    requires Descending(a + b)
    ensures Descending(a) && Descending(b) && forall e :: e in a ==> e !in b
  {
    forall i, j | 0 <= i < j < |a| ensures a[i].tid > a[j].tid {
      assert (a + b)[i].tid > (a + b)[j].tid;
    }
    forall i, j | 0 <= i < j < |b| ensures b[i].tid > b[j].tid {
      assert (a + b)[|a| + i].tid > (a + b)[|a| + j].tid;
    }
    forall i, j | 0 <= i < |a| && 0 <= j < |b| ensures a[i].tid > b[j].tid {
      assert (a + b)[i].tid > (a + b)[|a| + j].tid;
    }
  }

  lemma {:induction false} LaterDiffers(tables: seq<seq<Entry>>, k: Key, t: nat, e: Entry)
    requires e !in Stack(tables, k)
    ensures MemGet(tables, k, t) != Some(e)
  {
    MemGetMember(tables, k, t);
    if MemGet(tables, k, t).Some? {
      StackMembers(tables, k, MemGet(tables, k, t).value);
    }
  }

  /** A store whose versions of `k` are in descending order answers a reader at `t` with the newest
      version visible to it if and only if the answer is not shadowed inside a memory table. */
  lemma {:induction false} FindExactIff(s: Store, k: Key, t: nat)
    requires Shaped(s) && Descending(Stack(s.tables, k))
    ensures Find(s, k, t) == FirstVisible(Stack(s.tables, k), t) <==> Unshadowed(s, k, t)
  {
    var a, b := s.tables[..s.mem], s.tables[s.mem..];
    assert s.tables == a + b;
    StackConcat(a, b, k);
    DescendingParts(Stack(a, k), Stack(b, k));
    FirstVisibleConcat(Stack(a, k), Stack(b, k), t);
    SstGetIsFirstVisible(b, k, t);
    var below := SstGet(b, k, t);
    if below.Some? {
      assert below.value in Stack(b, k);
    }
    MemGetExactIff(a, k, t, below);
  }

  // ---- what reads return ------------------------------------------------------------------------------

  /** Without a snapshot bound the engine finds the top of the stack over all tables. */
  lemma {:induction false} FindLatest(s: Store, k: Key)
    requires Shaped(s)
    ensures var st := Stack(s.tables, k); Find(s, k, 0) == if st == [] then None else Some(st[0])
  {
    hide KeySorted, Stack, MemGet, SstGet;
    var a, b := s.tables[..s.mem], s.tables[s.mem..];
    assert s.tables == a + b;
    StackConcat(a, b, k);
    MemGetLatest(a, k);
    SstGetIsFirstVisible(b, k, 0);
  }

  /** Memory answers with the newest visible version unless the answering table shadows it. */
  lemma {:induction false} MemGetExact(tables: seq<seq<Entry>>, k: Key, t: nat)
    requires forall i :: 0 <= i < |tables| ==> KeySorted(tables[i])
    requires var i := Answering(tables, k, t); i < |tables| ==> !Shadowed(tables[i], k, t)
    ensures MemGet(tables, k, t) == FirstVisible(Stack(tables, k), t)
  {
    hide Versions, Sl.Get, KeySorted;
    if tables != [] {
      var top := Versions(tables[0], k);
      Sl.GetLooksAtTop(tables[0], k, t);
      FirstVisibleConcat(top, Stack(tables[1..], k), t);
      if FirstVisible(top, t).None? {
        assert top != [] ==> top[0] in top;
        MemGetExact(tables[1..], k, t);
      }
    }
  }

  /** A snapshot read finds the newest visible version, in whatever order the versions lie. */
  lemma {:induction false} FindExact(s: Store, k: Key, t: nat)
    requires Shaped(s) && Unshadowed(s, k, t)
    ensures Find(s, k, t) == FirstVisible(Stack(s.tables, k), t)
  {
    hide KeySorted, Stack, MemGet, SstGet, Answering, Shadowed;
    var a, b := s.tables[..s.mem], s.tables[s.mem..];
    assert s.tables == a + b;
    StackConcat(a, b, k);
    FirstVisibleConcat(Stack(a, k), Stack(b, k), t);
    SstGetIsFirstVisible(b, k, t);
    AnsweringRange(a, k, t);
    MemGetExact(a, k, t);
  }

  lemma AnsweringRange(tables: seq<seq<Entry>>, k: Key, t: nat)
    ensures 0 <= Answering(tables, k, t) <= |tables|
  {
  }

  /** A version that is a value and not a deletion. */
  function ValueOf(e: Option<Entry>): Option<Entry> {
    match e
    case None => None
    case Some(x) => if x.value == [] then None else Some(x)
  }

  /** The engine's read: the top of the stack without a bound, the newest visible version at a bound, and in
      both cases nothing when that is a deletion. */
  lemma {:induction false} EngineGetIs(s: Store, k: Key, t: nat)
    requires Shaped(s)
    ensures var st := Stack(s.tables, k); EngineGet(s, k, 0) == ValueOf(if st == [] then None else Some(st[0]))
    ensures Unshadowed(s, k, t) ==> EngineGet(s, k, t) == ValueOf(FirstVisible(Stack(s.tables, k), t))
  {
    hide KeySorted, Stack, Find, FirstVisible, Unshadowed;
    FindLatest(s, k);
    if Unshadowed(s, k, t) {
      FindExact(s, k, t);
    }
  }

  /** A reader between two versions of one table gets the stale version of an older table. */
  lemma {:induction false} StaleRead()
    ensures var s := Store([[Entry([1], [50], 5), Entry([1], [30], 3)], [Entry([1], [20], 2)]], 2);
            && Find(s, [1], 4) == Some(Entry([1], [20], 2))
            && FirstVisible(Stack(s.tables, [1]), 4) == Some(Entry([1], [30], 3))
  {
    var new5, mid3, old2 := Entry([1], [50], 5), Entry([1], [30], 3), Entry([1], [20], 2);
    var top, low := [new5, mid3], [old2];
    var s := Store([top, low], 2);
    assert Sl.Bound(top, [1]) == 0 && Sl.Bound(low, [1]) == 0;
    assert s.tables[..2] == s.tables && s.tables[1..] == [low];
    assert MemGet([low], [1], 4) == Some(old2);
    assert top[1..] == [mid3];
    assert Versions([mid3], [1]) == [mid3];
    assert Versions(top, [1]) == top;
    assert FirstVisible([mid3], 4) == Some(mid3);
    assert FirstVisible(top, 4) == Some(mid3);
    FirstVisibleConcat(top, Stack([low], [1]), 4);
  }
}
