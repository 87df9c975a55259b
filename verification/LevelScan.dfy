/** The layers a scan of the whole engine is built on, and what its level-0 heap does to deletions. */
module LevelScan {
  import opened Keys
  import opened Entries
  import opened Streams
  import opened HeapIterators
  import opened HeapScans
  import opened SstIterators
  import opened MergeIterators
  import opened LevelOutputs
  import opened LevelIterators
  import Compaction

  // ---- the level-0 heap ----------------------------------------------------------------------------------

  /** A query-mode cursor reports its bound instead of the id of the version it stands on. */
  function Tag(e: Entry, t: nat): Entry { Entry(e.key, e.value, t) }

  function TagAll(s: seq<Entry>, t: nat): (r: seq<Entry>)
    ensures |r| == |s| && forall i :: 0 <= i < |s| ==> r[i] == Tag(s[i], t)
  {
    seq(|s|, i requires 0 <= i < |s| => Tag(s[i], t))
  }

  /** The items of all level-0 files. */
  function LevelItems(ssts: seq<Sst>, t: nat): seq<SearchItem> {
    if ssts == [] then []
    else
      var s := ssts[|ssts| - 1];
      LevelItems(ssts[..|ssts| - 1], t) + Compaction.ItemsOf(s.id, TagAll(BlockScan(s.blocks, t, false), t))
  }

  /** What the level-0 heap would say if it kept deletions. */
  function LevelView(ssts: seq<Sst>, t: nat): seq<Entry> {
    FirstPerKey(EntriesOf(PushAll(LevelItems(ssts, t))))
  }

  lemma {:induction false} ItemFrom(ssts: seq<Sst>, t: nat, i: nat) returns (n: nat, m: nat)
    requires i < |LevelItems(ssts, t)|
    ensures n < |ssts| && m < |BlockScan(ssts[n].blocks, t, false)|
    ensures LevelItems(ssts, t)[i] ==
            SearchItem(Tag(BlockScan(ssts[n].blocks, t, false)[m], t), Compaction.Source(ssts[n].id), 0)
  {
    hide BlockScan;
    var init, s := ssts[..|ssts| - 1], ssts[|ssts| - 1];
    var before := |LevelItems(init, t)|;
    if i < before {
      n, m := ItemFrom(init, t, i);
    } else {
      n, m := |ssts| - 1, i - before;
    }
  }

  lemma {:induction false} ItemOf(ssts: seq<Sst>, t: nat, n: nat, e: Entry)
    requires n < |ssts| && e in BlockScan(ssts[n].blocks, t, false)
    ensures SearchItem(Tag(e, t), Compaction.Source(ssts[n].id), 0) in LevelItems(ssts, t)
  {
    hide BlockScan;
    var init, s := ssts[..|ssts| - 1], ssts[|ssts| - 1];
    if n < |init| {
      ItemOf(init, t, n, e);
    } else {
      var scan := BlockScan(s.blocks, t, false);
      var m :| 0 <= m < |scan| && scan[m] == e;
      var items := Compaction.ItemsOf(s.id, TagAll(scan, t));
      assert items[m] == SearchItem(Tag(e, t), Compaction.Source(s.id), 0);
    }
  }

  /** All items carry the bound as their id: age and source always agree, and all are visible. */
  lemma {:induction false} LevelItemsAreSafe(ssts: seq<Sst>, t: nat)
    ensures Coherent(LevelItems(ssts, t)) && Prefiltered(EntriesOf(LevelItems(ssts, t)), t)
  {
    hide BlockScan, LevelItems;
    var v := LevelItems(ssts, t);
    forall i | 0 <= i < |v| ensures v[i].entry.tid == t && v[i].level == 0 {
      var n, m := ItemFrom(ssts, t, i);
    }
    EntriesOfAt(v);
  }

  /** The heap that the constructor builds yields the level view without its deletions. */
  lemma {:induction false} LevelHeap(ssts: seq<Sst>, t: nat)
    ensures QueryRun(LevelItems(ssts, t), t) == Live(LevelView(ssts, t)) && StrictKeys(LevelView(ssts, t))
  {
    hide LevelItems, PushAll, EntriesOf, Scan, Wanted, Live, FirstPerKey, Groups, Swallowed;
    var v := LevelItems(ssts, t);
    LevelItemsAreSafe(ssts, t);
    FilteredIsSafe(v, t);
    PoppedView(v, t);
    var q := EntriesOf(PushAll(v));
    ScanExactIff(q, t);
    WantedIsLive(q, t);
    PushAllEntries(v);
    forall i | 0 <= i < |q| ensures Visible(q[i], t) {
      assert q[i] in multiset(EntriesOf(v));
    }
    AllSeen(q, t);
  }

  lemma {:induction false} AllSeen(q: seq<Entry>, t: nat)
    requires Prefiltered(q, t)
    ensures AllVisible(q, t) == q
  {
    if q != [] {
      AllSeen(q[1..], t);
      assert q == [q[0]] + q[1..];
    }
  }

  /** Files newest first: the scans they contribute, as layers. */
  function Layers(ssts: seq<Sst>, t: nat): (r: seq<seq<Entry>>)
    ensures |r| == |ssts| && forall i :: 0 <= i < |ssts| ==> r[i] == BlockScan(ssts[i].blocks, t, false)
  {
    seq(|ssts|, i requires 0 <= i < |ssts| => BlockScan(ssts[i].blocks, t, false))
  }

  ghost predicate NewestFirst(ssts: seq<Sst>) {
    forall i, j :: 0 <= i < j < |ssts| ==> ssts[i].id > ssts[j].id
  }

  /** The first layer that has the key. */
  lemma {:induction false} LayeredAt(ss: seq<seq<Entry>>, k: Key, n: nat)
    requires n < |ss| && Lookup(ss[n], k).Some? && forall m :: 0 <= m < n ==> Lookup(ss[m], k).None?
    ensures Layered(ss, k) == Lookup(ss[n], k)
    decreases |ss|
  {
    if n > 0 {
      assert Lookup(ss[0], k).None?;
      forall m | 0 <= m < n - 1 ensures Lookup(ss[1..][m], k).None? {
        assert ss[1..][m] == ss[m + 1];
      }
      LayeredAt(ss[1..], k, n - 1);
    }
  }

  /** An entry of the level view comes from the newest file that shows its key. */
  lemma {:induction false} ViewIsNewestFile(ssts: seq<Sst>, t: nat, e: Entry)
    requires NewestFirst(ssts) && (forall i :: 0 <= i < |ssts| ==> StrictKeys(BlockScan(ssts[i].blocks, t, false)))
    requires e in LevelView(ssts, t)
    ensures var r := Layered(Layers(ssts, t), e.key); r.Some? && e == Tag(r.value, t)
  {
    hide LevelItems, PushAll, EntriesOf, FirstPerKey, BlockScan, Layered, Lookup, StrictKeys;
    var v := LevelItems(ssts, t);
    var p := PushAll(v);
    var q := EntriesOf(p);
    LevelItemsAreSafe(ssts, t);
    PushAllMeaning(v);
    PopOrderSorts(p);
    FirstPerKeyMeaning(q);
    EntriesOfAt(p);
    var i := FirstVersionAt(q, e.key);
    assert q[i] == e && p[i].entry == e;
    var n, m := Origin(ssts, t, p[i]);
    var x := BlockScan(ssts[n].blocks, t, false)[m];
    assert x in Layers(ssts, t)[n] && x.key == e.key;
    StrictLookup(Layers(ssts, t)[n], x);
    forall c | 0 <= c < n ensures Lookup(Layers(ssts, t)[c], e.key).None? {
      NoNewer(ssts, t, p, i, n, c);
    }
    LayeredAt(Layers(ssts, t), e.key, n);
  }

  lemma {:induction false} Origin(ssts: seq<Sst>, t: nat, x: SearchItem) returns (n: nat, m: nat)
    requires x in multiset(PushAll(LevelItems(ssts, t)))
    ensures n < |ssts| && m < |BlockScan(ssts[n].blocks, t, false)|
    ensures x == SearchItem(Tag(BlockScan(ssts[n].blocks, t, false)[m], t), Compaction.Source(ssts[n].id), 0)
  {
    hide LevelItems, PushAll, BlockScan;
    var v := LevelItems(ssts, t);
    LevelItemsAreSafe(ssts, t);
    PushAllMeaning(v);
    assert x in multiset(v);
    var i :| 0 <= i < |v| && v[i] == x;
    n, m := ItemFrom(ssts, t, i);
  }

  /** A newer file that showed the key would have been popped first. */
  lemma {:induction false} NoNewer(ssts: seq<Sst>, t: nat, p: seq<SearchItem>, i: nat, n: nat, c: nat)
    requires NewestFirst(ssts) && c < n < |ssts| && i < |p| && p == PushAll(LevelItems(ssts, t))
    requires p[i].idx == Compaction.Source(ssts[n].id) && p[i].entry.tid == t
    requires forall j :: 0 <= j < i ==> p[j].entry.key != p[i].entry.key
    ensures Lookup(Layers(ssts, t)[c], p[i].entry.key).None?
  {
    hide LevelItems, PushAll, BlockScan, Lookup, PopOrder, After;
    var k, layer := p[i].entry.key, Layers(ssts, t)[c];
    LookupMember(layer, k);
    LevelItemsAreSafe(ssts, t);
    PushAllMeaning(LevelItems(ssts, t));
    forall e | e in layer ensures e.key != k {
      ItemOf(ssts, t, c, e);
      var x := SearchItem(Tag(e, t), Compaction.Source(ssts[c].id), 0);
      assert x in multiset(LevelItems(ssts, t)) && x in multiset(p);
      FirstHasLeastSource(p, i, x);
    }
  }

  lemma FirstHasLeastSource(p: seq<SearchItem>, i: nat, x: SearchItem)
    requires PopOrder(p) && i < |p| && x in p && forall j :: 0 <= j < i ==> p[j].entry.key != p[i].entry.key
    ensures x.entry.key == p[i].entry.key && x.entry.tid == p[i].entry.tid ==> p[i].idx <= x.idx
  {
    var j :| 0 <= j < |p| && p[j] == x;
  }

  lemma {:induction false} LayeredFrom(ss: seq<seq<Entry>>, k: Key) returns (n: nat)
    requires Layered(ss, k).Some?
    ensures n < |ss| && Lookup(ss[n], k).Some?
  {
    if Lookup(ss[0], k).Some? {
      n := 0;
    } else {
      var m := LayeredFrom(ss[1..], k);
      n := m + 1;
    }
  }

  lemma {:induction false} ShownKeyIsThere(ssts: seq<Sst>, t: nat, k: Key)
    requires Layered(Layers(ssts, t), k).Some?
    ensures exists e :: e in LevelView(ssts, t) && e.key == k
  {
    hide LevelView, BlockScan, Layered, Lookup;
    var n := LayeredFrom(Layers(ssts, t), k);
    LookupMember(Layers(ssts, t)[n], k);
    ShownEntryIsThere(ssts, t, n, Lookup(Layers(ssts, t)[n], k).value);
  }

  lemma {:induction false} ShownEntryIsThere(ssts: seq<Sst>, t: nat, n: nat, x: Entry)
    requires n < |ssts| && x in BlockScan(ssts[n].blocks, t, false)
    ensures exists e :: e in LevelView(ssts, t) && e.key == x.key
  {
    hide LevelItems, PushAll, EntriesOf, FirstPerKey, BlockScan, Coherent, Prefiltered;
    var v := LevelItems(ssts, t);
    ItemOf(ssts, t, n, x);
    ItemEntry(v, SearchItem(Tag(x, t), Compaction.Source(ssts[n].id), 0));
    LevelItemsAreSafe(ssts, t);
    PushAllEntries(v);
    PushAllMeaning(v);
    PopOrderSorts(PushAll(v));
    var q := EntriesOf(PushAll(v));
    assert Tag(x, t) in multiset(q);
    FirstPerKeyMeaning(q);
  }

  lemma ItemEntry(v: seq<SearchItem>, item: SearchItem)
    requires item in v
    ensures item.entry in multiset(EntriesOf(v))
  {
    EntriesOfAt(v);
    var i :| 0 <= i < |v| && v[i] == item;
    assert EntriesOf(v)[i] == item.entry;
  }

  /** The level view, as a map: each key has the value of the newest file that shows it. */
  lemma {:induction false} LevelViewMeaning(ssts: seq<Sst>, t: nat, k: Key)
    requires NewestFirst(ssts) && (forall i :: 0 <= i < |ssts| ==> StrictKeys(BlockScan(ssts[i].blocks, t, false)))
    ensures Lookup(LevelView(ssts, t), k) ==
            match Layered(Layers(ssts, t), k) { case None => None case Some(e) => Some(Tag(e, t)) }
  {
    hide LevelView, Layered, Lookup, BlockScan, StrictKeys, QueryRun;
    LevelHeap(ssts, t);
    LookupMember(LevelView(ssts, t), k);
    if Layered(Layers(ssts, t), k).Some? {
      ShownKeyIsThere(ssts, t, k);
    }
    if Lookup(LevelView(ssts, t), k).Some? {
      ViewIsNewestFile(ssts, t, Lookup(LevelView(ssts, t), k).value);
    }
  }

  // ---- the whole scan ---------------------------------------------------------------------------------

  function LowerScans(levels: seq<seq<Sst>>, t: nat): (r: seq<seq<Entry>>)
    ensures |r| == |levels| && forall i :: 0 <= i < |levels| ==> r[i] == ChainScan(levels[i], t, false)
  {
    seq(|levels|, i requires 0 <= i < |levels| => ChainScan(levels[i], t, false))
  }

  /** What the memory heap would say if it kept deletions. */
  function MemView(items: seq<SearchItem>, t: nat): seq<Entry> {
    FirstPerKey(AllVisible(EntriesOf(PushAll(items)), t))
  }

  /** Memory items as the tables hand them over: age and table agree, and no key is swallowed. */
  ghost predicate Orderly(items: seq<SearchItem>, t: nat) {
    Coherent(items) && !Swallowed(Popped(items), t)
  }

  /** The memory heap, too, yields its view without the deletions. */
  lemma {:induction false} MemHeap(items: seq<SearchItem>, t: nat)
    requires Orderly(items, t)
    ensures QueryRun(items, t) == Live(MemView(items, t)) && StrictKeys(MemView(items, t))
    ensures forall e :: e in MemView(items, t) ==> e in EntriesOf(items)
  {
    hide PushAll, EntriesOf, Scan, Wanted, Live, FirstPerKey, Groups, Swallowed, AllVisible;
    PoppedView(items, t);
    var q := EntriesOf(PushAll(items));
    ScanExactIff(q, t);
    WantedIsLive(q, t);
  }

  /** The layers of the engine, newest first. */
  function EngineLayers(mem: seq<SearchItem>, l0: seq<Sst>, levels: seq<seq<Sst>>, t: nat): seq<seq<Entry>> {
    [MemView(mem, t)] + ([LevelView(l0, t)] + LowerScans(levels, t))
  }

  /** What the children of the scan are about to yield. */
  function Children(mem: seq<SearchItem>, l0: seq<Sst>, levels: seq<seq<Sst>>, t: nat): seq<seq<Entry>> {
    [QueryRun(mem, t)] + ([QueryRun(LevelItems(l0, t), t)] + LowerScans(levels, t))
  }

  /** No deletion that a heap drops hides a live version further down. */
  ghost predicate NothingResurrected(mem: seq<SearchItem>, l0: seq<Sst>, levels: seq<seq<Sst>>, t: nat) {
    forall k :: !Resurrects([], MemView(mem, t), [Live(LevelView(l0, t))] + LowerScans(levels, t), k) &&
                !Resurrects([MemView(mem, t)], LevelView(l0, t), LowerScans(levels, t), k)
  }

  /** The children hold the layered map of the engine if and only if no dropped deletion, of memory or of
      level 0, hides a live version further down. */
  lemma {:induction false} LevelScanIff(mem: seq<SearchItem>, l0: seq<Sst>, levels: seq<seq<Sst>>, t: nat)
    requires Orderly(mem, t) && AllStrict(LowerScans(levels, t))
    ensures Live(Flatten(Children(mem, l0, levels, t))) == Live(Flatten(EngineLayers(mem, l0, levels, t))) <==>
            NothingResurrected(mem, l0, levels, t)
  {
    hide Live, Flatten, LevelView, MemView, LowerScans, StrictKeys, QueryRun, Orderly;
    LevelHeap(l0, t);
    MemHeap(mem, t);
    DroppingTwoIff(MemView(mem, t), LevelView(l0, t), LowerScans(levels, t));
  }

  /** The scan itself is the layered map of the engine if and only if it decides every key as the engine's layers
      do. When no deletion is dropped to effect, that is, if and only if no marker disturbs it, and when no marker
      disturbs it, if and only if no deletion is dropped to effect. */
  lemma {:induction false} EngineScanIff(mem: seq<SearchItem>, l0: seq<Sst>, levels: seq<seq<Sst>>, t: nat)
    requires Orderly(mem, t) && AllStrict(LowerScans(levels, t)) && MarkersOnly(Children(mem, l0, levels, t))
    ensures var out, want := LevelOut(Children(mem, l0, levels, t)), Live(Flatten(EngineLayers(mem, l0, levels, t)));
            && (out == want <==> DecidesAs(Children(mem, l0, levels, t), EngineLayers(mem, l0, levels, t)))
            && (NothingResurrected(mem, l0, levels, t) ==> (out == want <==> Undisturbed(Children(mem, l0, levels, t))))
            && (Undisturbed(Children(mem, l0, levels, t)) ==> (out == want <==> NothingResurrected(mem, l0, levels, t)))
  {
    hide LevelOut, Undisturbed, NothingResurrected, Live, Flatten, EngineLayers, Children;
    hide MarkersOnly, Orderly, DecidesAs;
    LayersAreStrict(mem, l0, levels, t);
    LevelOutIsIff(Children(mem, l0, levels, t), EngineLayers(mem, l0, levels, t));
    LevelScanIff(mem, l0, levels, t);
    LevelOutIff(Children(mem, l0, levels, t));
  }

  lemma {:induction false} LayersAreStrict(mem: seq<SearchItem>, l0: seq<Sst>, levels: seq<seq<Sst>>, t: nat)
    requires Orderly(mem, t) && AllStrict(LowerScans(levels, t))
    ensures AllStrict(EngineLayers(mem, l0, levels, t))
  {
    hide Live, LevelView, MemView, LowerScans, StrictKeys, QueryRun, Orderly;
    LevelHeap(l0, t);
    MemHeap(mem, t);
    var all := EngineLayers(mem, l0, levels, t);
    forall i | 0 <= i < |all| ensures StrictKeys(all[i]) {
      assert i >= 2 ==> all[i] == LowerScans(levels, t)[i - 2];
    }
  }

  // ---- the children of an engine ------------------------------------------------------------------------

  ghost predicate MarksOnly(s: seq<Entry>) {
    forall e :: e in s && e.key == [] ==> e.value == []
  }

  lemma {:induction false} LevelViewFrom(ssts: seq<Sst>, t: nat, e: Entry) returns (n: nat, m: nat)
    requires e in LevelView(ssts, t)
    ensures n < |ssts| && m < |BlockScan(ssts[n].blocks, t, false)|
    ensures e == Tag(BlockScan(ssts[n].blocks, t, false)[m], t)
  {
    hide LevelItems, PushAll, EntriesOf, FirstPerKey, BlockScan, Coherent;
    var v := LevelItems(ssts, t);
    LevelItemsAreSafe(ssts, t);
    PushAllEntries(v);
    PushAllMeaning(v);
    PopOrderSorts(PushAll(v));
    var q := EntriesOf(PushAll(v));
    FirstPerKeyMeaning(q);
    VersionsMembers(q, e.key, e);
    assert e in multiset(q) && e in EntriesOf(v);
    EntriesOfAt(v);
    var i :| 0 <= i < |EntriesOf(v)| && EntriesOf(v)[i] == e;
    n, m := ItemFrom(ssts, t, i);
  }

  /** Only markers stand under the empty key: then the heaps drop them, and only chained levels show them. */
  lemma {:induction false} ChildrenAreProper(mem: seq<SearchItem>, l0: seq<Sst>, levels: seq<seq<Sst>>, t: nat)
    requires Orderly(mem, t) && MarksOnly(EntriesOf(mem))
    requires forall i :: 0 <= i < |l0| ==> MarksOnly(BlockScan(l0[i].blocks, t, false))
    requires forall i :: 0 <= i < |levels| ==>
               StrictKeys(LowerScans(levels, t)[i]) && MarksOnly(LowerScans(levels, t)[i])
    ensures MarkersOnly(Children(mem, l0, levels, t))
  {
    hide LevelView, MemView, LowerScans, StrictKeys, QueryRun, Orderly, BlockScan, EntriesOf, Live;
    LevelHeap(l0, t);
    MemHeap(mem, t);
    var a, b := MemView(mem, t), LevelView(l0, t);
    LiveMembers(a);
    LiveMembers(b);
    forall e | e in b && e.key == [] ensures e.value == [] {
      var n, m := LevelViewFrom(l0, t, e);
      assert BlockScan(l0[n].blocks, t, false)[m] in BlockScan(l0[n].blocks, t, false);
    }
    var ss, low := Children(mem, l0, levels, t), LowerScans(levels, t);
    forall i | 0 <= i < |ss| ensures StrictKeys(ss[i]) && MarksOnly(ss[i]) {
      if i >= 2 {
        assert ss[i] == low[i - 2];
      }
    }
  }

  // ---- building it ----------------------------------------------------------------------------------------

  /** Feeds the items of one file to the vector. */
  method CollectFile(s: Sst, t: nat, before: seq<SearchItem>) returns (items: seq<SearchItem>)
    requires Wellformed(s)
    ensures items == before + Compaction.ItemsOf(s.id, TagAll(BlockScan(s.blocks, t, false), t))
  {
    hide BlockScan, SstIterator.Rest, SstIterator.IsValid;
    var it := new SstIterator.Begin(s, t, false);
    ghost var all, done := it.Rest(), 0;
    items := before;
    it.ValidIffMore();
    while it.IsValid()
      invariant it.Valid() && fresh(it.Repr()) && it.maxTid == t && !it.keepAll
      invariant 0 <= done <= |all| && it.Rest() == all[done..]
      invariant items == before + Compaction.ItemsOf(s.id, TagAll(all[..done], t))
      invariant it.IsValid() <==> it.Rest() != []
      decreases |it.Rest()|
    {
      OneItem(s.id, all, done, t);
      if !(t != 0 && it.TrancId() > t) {
        items := items + [SearchItem(Tag(it.Current(), it.TrancId()), Compaction.Source(s.id), 0)];
      }
      it.Next();
      done := done + 1;
      it.ValidIffMore();
    }
    assert all[..done] == all;
  }

  lemma OneItem(id: nat, all: seq<Entry>, done: nat, t: nat)
    requires done < |all|
    ensures Compaction.ItemsOf(id, TagAll(all[..done + 1], t)) ==
            Compaction.ItemsOf(id, TagAll(all[..done], t)) + [SearchItem(Tag(all[done], t), Compaction.Source(id), 0)]
  {
  }

  method CollectItems(l0: seq<Sst>, t: nat) returns (items: seq<SearchItem>)
    requires forall i :: 0 <= i < |l0| ==> Wellformed(l0[i])
    ensures items == LevelItems(l0, t)
  {
    hide BlockScan;
    items := [];
    for n := 0 to |l0|
      invariant items == LevelItems(l0[..n], t)
    {
      assert l0[..n + 1][..n] == l0[..n];
      items := CollectFile(l0[n], t, items);
    }
    assert l0[..|l0|] == l0;
  }

  /** The chained children of the lower levels. */
  method OpenChains(levels: seq<seq<Sst>>, t: nat) returns (chains: seq<BaseIterator>, ghost footprint: set<object>)
    requires forall i, j :: 0 <= i < |levels| && 0 <= j < |levels[i]| ==> Wellformed(levels[i][j])
    ensures |chains| == |levels| && fresh(footprint)
    ensures forall i :: 0 <= i < |chains| ==> chains[i].Obj() in chains[i].Repr() && chains[i].Repr() <= footprint
    ensures forall i, j :: 0 <= i < j < |chains| ==> chains[i].Repr() !! chains[j].Repr()
    ensures forall i :: 0 <= i < |chains| ==> chains[i].Valid() && !chains[i].KeepAll() && chains[i].MaxTid() == t
    ensures forall i :: 0 <= i < |chains| ==> chains[i].Rest() == ChainScan(levels[i], t, false)
  {
    hide ChainScan, BlockScan, ConcactIterator.Rest, Wellformed;
    chains, footprint := [], {};
    for n := 0 to |levels|
      invariant |chains| == n && fresh(footprint)
      invariant forall i :: 0 <= i < n ==> chains[i].Obj() in chains[i].Repr() && chains[i].Repr() <= footprint
      invariant forall i, j :: 0 <= i < j < n ==> chains[i].Repr() !! chains[j].Repr()
      invariant forall i :: 0 <= i < n ==> chains[i].Valid() && !chains[i].KeepAll() && chains[i].MaxTid() == t
      invariant forall i :: 0 <= i < n ==> chains[i].Rest() == ChainScan(levels[i], t, false)
    {
      var c := new ConcactIterator(levels[n], t, false);
      footprint := footprint + c.repr;
      chains := chains + [Concact(c)];
    }
  }

  /** The constructor of the scan, from the items of the memory tables and the files of each level. */
  method OpenScan(mem: seq<SearchItem>, l0: seq<Sst>, levels: seq<seq<Sst>>, t: nat) returns (it: LevelIterator)
    requires Orderly(mem, t) && MarksOnly(EntriesOf(mem))
    requires forall i :: 0 <= i < |l0| ==> Wellformed(l0[i]) && MarksOnly(BlockScan(l0[i].blocks, t, false))
    requires forall i, j :: 0 <= i < |levels| && 0 <= j < |levels[i]| ==> Wellformed(levels[i][j])
    requires forall i :: 0 <= i < |levels| ==>
               StrictKeys(LowerScans(levels, t)[i]) && MarksOnly(LowerScans(levels, t)[i])
    ensures fresh(it) && it.Valid() && it.Rest() == LevelOut(Children(mem, l0, levels, t))
  {
    hide ChainScan, BlockScan, HeapScan, Settled, PushAll, LevelOut, MarkersOnly, LevelItems, EntriesOf,
         Wellformed, QueryRun, Orderly;
    ghost var ss := Children(mem, l0, levels, t);
    ChildrenAreProper(mem, l0, levels, t);
    var first := new HeapIterator(mem, t, true, false);
    HeapStarts(first, mem, t);
    var items := CollectItems(l0, t);
    var second := new HeapIterator(items, t, true, false);
    HeapStarts(second, items, t);
    var chains, footprint := OpenChains(levels, t);
    var children := [Heap(first), Heap(second)] + chains;
    ghost var all := {first, second} + footprint;
    it := new LevelIterator(children, t, ss, all);
  }

  lemma HeapStarts(heap: HeapIterator, items: seq<SearchItem>, t: nat)
    requires heap.maxTid == t && heap.skipDelete && !heap.keepAll
    requires heap.Queue() == Settled(EntriesOf(PushAll(items)), t, true, false)
    ensures heap.Rest() == QueryRun(items, t)
  {
    hide PushAll, EntriesOf, Settled, HeapScan;
  }
}
