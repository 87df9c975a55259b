/** Compacting level 0 into level 1: the stream of versions that is written back. */
module Compaction {
  import opened Keys
  import opened Entries
  import opened Streams
  import opened HeapIterators
  import opened SstIterators
  import opened SnapshotScan
  import opened MergeIterators

  // ---- level 0 through the heap -----------------------------------------------------------------

  /** The heap index of an SST. */
  function Source(id: nat): int {
    -(id as int)
  }

  /** The queue items of one SST: newer files have larger ids, hence smaller indices. */
  function ItemsOf(id: nat, s: seq<Entry>): (r: seq<SearchItem>)
    ensures |r| == |s| && forall i :: 0 <= i < |s| ==> r[i] == SearchItem(s[i], Source(id), 0)
  {
    seq(|s|, i requires 0 <= i < |s| => SearchItem(s[i], Source(id), 0))
  }

  function L0Items(ssts: seq<Sst>, t: nat, keepAll: bool): seq<SearchItem> {
    if ssts == [] then []
    else L0Items(ssts[..|ssts| - 1], t, keepAll) +
         (var s := ssts[|ssts| - 1]; ItemsOf(s.id, BlockScan(s.blocks, t, keepAll)))
  }

  /** Feeds one SST to the queue. */
  method Collect(h: HeapIterator, it: SstIterator, ghost before: seq<SearchItem>)
    requires it.Valid() && h !in it.Repr() && it.sst.Some? && h.items == PushAll(before)
    modifies h`items, it.Repr()
    ensures it.sst == old(it.sst)
    ensures h.items == PushAll(before + ItemsOf(it.sst.value.id, old(it.Rest())))
  {
    hide PushAll, Push, BlockScan, SstIterator.Rest, SstIterator.IsValid;
    ghost var all, done := it.Rest(), 0;
    var id := it.sst.value.id;
    it.ValidIffMore();
    assert before + ItemsOf(id, all[..0]) == before && all[0..] == all;
    while it.IsValid() && !it.IsEnd()
      invariant it.Valid() && fresh(it.Repr() - old(it.Repr())) && h !in it.Repr()
      invariant it.sst == old(it.sst) && 0 <= done <= |all| && it.Rest() == all[done..]
      invariant h.items == PushAll(before + ItemsOf(id, all[..done]))
      invariant it.IsValid() <==> it.Rest() != []
      invariant it.IsEnd() ==> it.Rest() == []
      decreases |it.Rest()|
    {
      h.Emplace(SearchItem(it.Current(), Source(id), 0));
      PushOne(before, id, all, done);
      it.Next();
      done := done + 1;
      it.ValidIffMore();
    }
    assert all[..done] == all;
  }

  lemma {:induction false} PushOne(before: seq<SearchItem>, id: nat, all: seq<Entry>, done: nat)
    requires done < |all|
    ensures PushAll(before + ItemsOf(id, all[..done + 1])) ==
            Push(PushAll(before + ItemsOf(id, all[..done])), SearchItem(all[done], Source(id), 0))
  {
    hide Push;
    var v, x := before + ItemsOf(id, all[..done]), SearchItem(all[done], Source(id), 0);
    assert before + ItemsOf(id, all[..done + 1]) == v + [x];
    assert (v + [x])[..|v|] == v;
  }

  /** `merge_sst_iterator` over iterators that stand at the beginning of their SSTs. */
  method MergeSstIterators(ssts: seq<Sst>, t: nat, keepAll: bool) returns (h: HeapIterator)
    requires forall i :: 0 <= i < |ssts| ==> Wellformed(ssts[i])
    ensures fresh(h) && h.Valid() && h.maxTid == 0
    ensures h.keepAll == keepAll || h.Rest() == []
    ensures h.items == PushAll(L0Items(ssts, t, keepAll))
    ensures h.Rest() == HeapOut(EntriesOf(PushAll(L0Items(ssts, t, keepAll))), false, keepAll)
  {
    hide PushAll, HeapScan, HeapOut, BlockScan, EntriesOf;
    if ssts == [] {
      h := new HeapIterator.Empty(true, false);
      NoItems();
      return;
    }
    h := new HeapIterator.Empty(false, keepAll);
    NoItems();
    for n := 0 to |ssts|
      invariant fresh(h) && h.maxTid == 0 && !h.skipDelete && h.keepAll == keepAll
      invariant h.items == PushAll(L0Items(ssts[..n], t, keepAll))
    {
      var it := new SstIterator.Begin(ssts[n], t, keepAll);
      Collect(h, it, L0Items(ssts[..n], t, keepAll));
      assert ssts[..n + 1][..n] == ssts[..n];
    }
    assert ssts[..|ssts|] == ssts;
    HeapScanMeaning(h.Queue(), 0, false, keepAll);
  }

  lemma NoItems()
    ensures PushAll([]) == [] && EntriesOf([]) == []
    ensures forall t, keepAll :: L0Items([], t, keepAll) == []
    ensures forall skip, keepAll :: HeapOut([], skip, keepAll) == [] && HeapScan([], 0, skip, keepAll) == []
  {
  }

  // ---- level 0 and level 1 together ---------------------------------------------------------------

  /** What compaction is to write. */
  function CompactionOutput(l0: seq<Sst>, l1: seq<Sst>): seq<Entry> {
    MergeAll(EntriesOf(PushAll(L0Items(l0, 0, true))), ChainScan(l1, 0, true))
  }

  /** Runs the merged iterator to its end. */
  method CompactionStream(l0: seq<Sst>, l1: seq<Sst>) returns (out: seq<Entry>)
    requires forall i :: 0 <= i < |l0| ==> Wellformed(l0[i])
    requires forall i :: 0 <= i < |l1| ==> Wellformed(l1[i])
    ensures out == CompactionOutput(l0, l1)
  {
    hide MergeAll, PushAll, EntriesOf, ChainScan, L0Items, Merged, HeapScan;
    var h := MergeSstIterators(l0, 0, true);
    ghost var x := h.Rest();
    var c := new ConcactIterator(l1, 0, true);
    ghost var y := c.Rest();
    assert x == HeapOut(EntriesOf(PushAll(L0Items(l0, 0, true))), false, true);
    assert Heap(h).Rest() == x && Concact(c).Rest() == y;
    var m := new TwoMergeIterator(Heap(h), Concact(c), 0, true);
    EverythingVisible(x);
    EverythingVisible(y);
    MergedVisible(x, y);
    out := Drain(m);
  }

  /** Reads the current entry and moves on. */
  method Take(m: TwoMergeIterator) returns (e: Entry, done: bool)
    requires m.Valid() && m.Rest() != []
    modifies m.Repr()
    ensures m.Valid() && fresh(m.Repr() - old(m.Repr()))
    ensures [e] + m.Rest() == old(m.Rest()) && (done <==> m.Rest() == [])
  {
    hide TwoMergeIterator.Valid, TwoMergeIterator.Base, TwoMergeIterator.Rest, TwoMergeIterator.Current;
    e := m.Current();
    m.Next();
    done := m.IsEnd();
  }

  method Drain(m: TwoMergeIterator) returns (out: seq<Entry>)
    requires m.Valid()
    modifies m.Repr()
    ensures out == old(m.Rest())
  {
    hide TwoMergeIterator.Valid, TwoMergeIterator.Base, TwoMergeIterator.Rest;
    ghost var all := m.Rest();
    out := [];
    var done := m.IsEnd();
    while !done
      invariant m.Valid() && fresh(m.Repr() - old(m.Repr()))
      invariant out + m.Rest() == all
      invariant done <==> m.Rest() == []
      decreases |m.Rest()|
    {
      ghost var r := m.Rest();
      var e;
      e, done := Take(m);
      assert out + r == out + [e] + m.Rest();
      out := out + [e];
    }
  }

  lemma MergedVisible(x: seq<Entry>, y: seq<Entry>)
    ensures Merged(x, y, 0, true) == MergeAll(AllVisible(x, 0), AllVisible(y, 0))
  {
  }

  // ---- nothing a reader could see changes ---------------------------------------------------------

  /** No version is stored twice. */
  ghost predicate DistinctVersions(s: seq<Entry>) {
    forall i, j :: 0 <= i < j < |s| ==> s[i].key != s[j].key || s[i].tid != s[j].tid
  }

  /** A newer level-0 file does not hold an older version of a key than an older file does. */
  ghost predicate AgeOrdered(l0: seq<Sst>) {
    forall i, j, x, y ::
      (&& 0 <= i < |l0| && 0 <= j < |l0| && l0[i].id > l0[j].id
       && x in Flat(l0[i].blocks) && y in Flat(l0[j].blocks) && x.key == y.key)
      ==> x.tid >= y.tid
  }

  lemma {:induction false} OccursTwice(s: seq<Entry>, x: Entry)
    requires multiset(s)[x] >= 2
    ensures exists i, j :: 0 <= i < j < |s| && s[i] == x && s[j] == x
  {
    assert s == [s[0]] + s[1..];
    if s[0] == x {
      assert x in multiset(s[1..]);
      var j :| 0 <= j < |s[1..]| && s[1..][j] == x;
      assert s[0] == x && s[j + 1] == x;
    } else {
      OccursTwice(s[1..], x);
      var i, j :| 0 <= i < j < |s[1..]| && s[1..][i] == x && s[1..][j] == x;
      assert s[i + 1] == x && s[j + 1] == x;
    }
  }

  /** Reordering does not create duplicates. */
  lemma {:induction false} DistinctReordered(a: seq<Entry>, b: seq<Entry>)
    requires DistinctVersions(a) && multiset(a) == multiset(b)
    ensures DistinctVersions(b)
  {
    forall i, j | 0 <= i < j < |b| ensures b[i].key != b[j].key || b[i].tid != b[j].tid {
      if b[i] == b[j] {
        TwoOf(b, i, j);
        OccursTwice(a, b[i]);
      } else {
        assert b[i] in multiset(a) && b[j] in multiset(a);
        var m :| 0 <= m < |a| && a[m] == b[i];
        var n :| 0 <= n < |a| && a[n] == b[j];
        assert m != n;
      }
    }
  }

  lemma {:induction false} TwoOf(b: seq<Entry>, i: nat, j: nat)
    requires i < j < |b| && b[i] == b[j]
    ensures multiset(b)[b[i]] >= 2
  {
    var l, r := b[..j], b[j..];
    assert b == l + r && b[i] == l[i] && r[0] == b[j];
    assert b[i] in multiset(l) && b[i] in multiset(r);
  }

  lemma {:induction false} L0Entries(l0: seq<Sst>)
    requires forall i :: 0 <= i < |l0| ==> FullBlocks(l0[i].blocks)
    ensures multiset(EntriesOf(L0Items(l0, 0, true))) == multiset(FlatSsts(l0))
  {
    if l0 != [] {
      hide EntriesOf, BlockScan, Flat, FlatSsts;
      var init, s := l0[..|l0| - 1], l0[|l0| - 1];
      assert l0 == init + [s];
      L0Entries(init);
      FullScan(s.blocks);
      ItemsEntries(s.id, Flat(s.blocks));
      EntriesOfConcat(L0Items(init, 0, true), ItemsOf(s.id, Flat(s.blocks)));
      FlatSstsSnoc(init, s);
    }
  }

  lemma {:induction false} ItemsEntries(id: nat, s: seq<Entry>)
    ensures EntriesOf(ItemsOf(id, s)) == s
  {
    hide EntriesOf;
    EntriesOfAt(ItemsOf(id, s));
  }

  lemma {:induction false} FlatSstsSnoc(init: seq<Sst>, s: Sst)
    ensures FlatSsts(init + [s]) == FlatSsts(init) + Flat(s.blocks)
  {
    hide Flat;
    if init == [] {
      assert [s][1..] == [] && init + [s] == [s];
      assert FlatSsts([s]) == Flat(s.blocks) + FlatSsts([]);
    } else {
      FlatSstsSnoc(init[1..], s);
      assert (init + [s])[1..] == init[1..] + [s];
    }
  }

  lemma {:induction false} L0ItemFrom(l0: seq<Sst>, i: nat) returns (n: nat)
    requires (forall i :: 0 <= i < |l0| ==> FullBlocks(l0[i].blocks)) && i < |L0Items(l0, 0, true)|
    ensures var x := L0Items(l0, 0, true)[i];
            n < |l0| && x.idx == Source(l0[n].id) && x.level == 0 && x.entry in Flat(l0[n].blocks)
  {
    hide BlockScan, Flat;
    var init, s := l0[..|l0| - 1], l0[|l0| - 1];
    if i < |L0Items(init, 0, true)| {
      n := L0ItemFrom(init, i);
      assert init[n] == l0[n];
    } else {
      FullScan(s.blocks);
      n := |l0| - 1;
    }
  }

  lemma {:induction false} L0Coherent(l0: seq<Sst>)
    requires AgeOrdered(l0) && forall i :: 0 <= i < |l0| ==> FullBlocks(l0[i].blocks)
    ensures Coherent(L0Items(l0, 0, true))
  {
    hide BlockScan, Flat, L0Items;
    var v := L0Items(l0, 0, true);
    forall i, j | 0 <= i < |v| && 0 <= j < |v| ensures v[i].level == v[j].level && Agree(v[i], v[j]) {
      var m := L0ItemFrom(l0, i);
      var n := L0ItemFrom(l0, j);
    }
  }

  /** The level-0 queue is popped in strict node order and holds every level-0 version once. */
  lemma {:induction false} L0Popped(l0: seq<Sst>)
    requires AgeOrdered(l0) && (forall i :: 0 <= i < |l0| ==> FullBlocks(l0[i].blocks))
    requires DistinctVersions(FlatSsts(l0))
    ensures var s := EntriesOf(PushAll(L0Items(l0, 0, true)));
            EntrySorted(s) && multiset(s) == multiset(FlatSsts(l0)) && DistinctVersions(s)
  {
    hide L0Items, EntriesOf, PushAll, FlatSsts, PopOrder, Flat;
    var v := L0Items(l0, 0, true);
    L0Coherent(l0);
    L0Entries(l0);
    PushAllMeaning(v);
    PushAllEntries(v);
    var s := EntriesOf(PushAll(v));
    DistinctReordered(FlatSsts(l0), s);
    EntriesOfAt(PushAll(v));
    PopOrderSortsStrictly(PushAll(v));
  }

  /** Compaction keeps exactly the versions it was given, in node order, and with them every
      snapshot read: for every key and every reader id the newest visible version is the same. */
  lemma {:induction false} CompactionPreservesReads(l0: seq<Sst>, l1: seq<Sst>)
    requires forall i :: 0 <= i < |l0| ==> FullBlocks(l0[i].blocks)
    requires forall i :: 0 <= i < |l1| ==> FullBlocks(l1[i].blocks)
    requires AgeOrdered(l0) && EntrySorted(FlatSsts(l1))
    requires DistinctVersions(FlatSsts(l0) + FlatSsts(l1))
    ensures var out, store := CompactionOutput(l0, l1), multiset(FlatSsts(l0)) + multiset(FlatSsts(l1));
            && EntrySorted(out) && multiset(out) == store
            && forall k, t :: SnapshotRead(store, k, t, ReadAt(out, k, t))
  {
    hide L0Items, EntriesOf, PushAll, FlatSsts, ChainScan, MergeAll, EntrySorted, ReadAt, SnapshotRead;
    var f0, f1 := FlatSsts(l0), FlatSsts(l1);
    DistinctHalves(f0, f1);
    L0Popped(l0);
    FullChain(l1);
    var x := EntriesOf(PushAll(L0Items(l0, 0, true)));
    MergeAllKeeps(x, f1);
    ApartReordered(f0, x, f1);
    MergeAllSorted(x, f1);
    var out := CompactionOutput(l0, l1);
    forall k: Key, t: nat ensures SnapshotRead(multiset(out), k, t, ReadAt(out, k, t)) {
      SortedStoreReads(out, k, t);
    }
  }

  lemma {:induction false} DistinctHalves(a: seq<Entry>, b: seq<Entry>)
    requires DistinctVersions(a + b)
    ensures DistinctVersions(a) && Apart(a, b)
  {
    var s := a + b;
    forall i | 0 <= i < |a| ensures a[i] == s[i] {}
    forall i, j | 0 <= i < |a| && 0 <= j < |b| ensures a[i].key != b[j].key || a[i].tid != b[j].tid {
      assert s[i] == a[i] && s[|a| + j] == b[j];
    }
  }

  lemma {:induction false} ApartReordered(a: seq<Entry>, x: seq<Entry>, b: seq<Entry>)
    requires Apart(a, b) && multiset(a) == multiset(x)
    ensures Apart(x, b)
  {
    forall i, j | 0 <= i < |x| && 0 <= j < |b| ensures x[i].key != b[j].key || x[i].tid != b[j].tid {
      assert x[i] in multiset(a);
      var m :| 0 <= m < |a| && a[m] == x[i];
    }
  }
}
