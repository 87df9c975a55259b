/** What scans of blocks and SSTs mean: when they show the whole snapshot, and when they stop
    short of it. */
module SnapshotScan {
  import opened Keys
  import opened Entries
  import opened Streams
  import opened SstIterators

  /** All entries of a row of blocks. */
  function Flat(bs: seq<seq<Entry>>): seq<Entry> {
    if bs == [] then [] else bs[0] + Flat(bs[1..])
  }

  /** All entries of a row of SSTs. */
  function FlatSsts(ssts: seq<Sst>): seq<Entry> {
    if ssts == [] then [] else Flat(ssts[0].blocks) + FlatSsts(ssts[1..])
  }

  /** The views of all blocks, one after the other. */
  function Views(bs: seq<seq<Entry>>, t: nat, keepAll: bool): seq<Entry> {
    if bs == [] then [] else View(bs[0], t, keepAll) + Views(bs[1..], t, keepAll)
  }

  /** Nothing in the block is visible at `t`. */
  ghost predicate Blind(b: seq<Entry>, t: nat) {
    forall e :: e in b ==> !Visible(e, t)
  }

  lemma {:induction false} ViewEmptyIff(b: seq<Entry>, t: nat, keepAll: bool)
    ensures View(b, t, keepAll) == [] <==> Blind(b, t)
  {
    var v := AllVisible(b, t);
    assert View(b, t, keepAll) == [] <==> v == [];
    if v != [] {
      AllVisibleMember(b, t, v[0]);
    }
    forall e | e in b && v == [] ensures !Visible(e, t) {
      AllVisibleMember(b, t, e);
    }
  }

  /** Some block that shows something stands behind one that shows nothing. */
  ghost predicate Obscured(bs: seq<seq<Entry>>, t: nat) {
    exists i, j :: 0 <= i < j < |bs| && Blind(bs[i], t) && !Blind(bs[j], t)
  }

  lemma {:induction false} ViewsEmptyIff(bs: seq<seq<Entry>>, t: nat, keepAll: bool)
    ensures Views(bs, t, keepAll) == [] <==> forall i :: 0 <= i < |bs| ==> Blind(bs[i], t)
  {
    if bs != [] {
      hide View, Blind;
      ViewsEmptyIff(bs[1..], t, keepAll);
      ViewEmptyIff(bs[0], t, keepAll);
      forall i | 0 < i < |bs| ensures bs[i] == bs[1..][i - 1] {}
      if Views(bs[1..], t, keepAll) == [] && Blind(bs[0], t) {
        forall i | 0 <= i < |bs| ensures Blind(bs[i], t) {
          if i > 0 { assert bs[i] == bs[1..][i - 1]; }
        }
      }
      if forall i :: 0 <= i < |bs| ==> Blind(bs[i], t) {
        forall i | 0 <= i < |bs[1..]| ensures Blind(bs[1..][i], t) { assert bs[1..][i] == bs[i + 1]; }
      }
    }
  }

  /** An SST scan shows everything its blocks show exactly when no such block is obscured. */
  lemma {:induction false} ScanCompleteIff(bs: seq<seq<Entry>>, t: nat, keepAll: bool)
    ensures BlockScan(bs, t, keepAll) == Views(bs, t, keepAll) <==> !Obscured(bs, t)
  {
    if bs != [] {
      hide View, Blind;
      var v, rest := View(bs[0], t, keepAll), bs[1..];
      ViewEmptyIff(bs[0], t, keepAll);
      ScanCompleteIff(rest, t, keepAll);
      ObscuredStep(bs, t);
      if v == [] {
        ViewsEmptyIff(rest, t, keepAll);
        ViewsEmptyIff(bs, t, keepAll);
      } else if BlockScan(bs, t, keepAll) == Views(bs, t, keepAll) {
        assert BlockScan(rest, t, keepAll) == BlockScan(bs, t, keepAll)[|v|..];
        assert Views(rest, t, keepAll) == Views(bs, t, keepAll)[|v|..];
      }
    }
  }

  lemma {:induction false} ObscuredStep(bs: seq<seq<Entry>>, t: nat)
    requires bs != []
    ensures Obscured(bs, t) <==>
            Obscured(bs[1..], t) || (Blind(bs[0], t) && exists j :: 0 <= j < |bs[1..]| && !Blind(bs[1..][j], t))
  {
    hide Blind;
    var rest := bs[1..];
    forall i | 0 <= i < |rest| ensures rest[i] == bs[i + 1] {}
    if Obscured(bs, t) {
      var i, j :| 0 <= i < j < |bs| && Blind(bs[i], t) && !Blind(bs[j], t);
      assert rest[j - 1] == bs[j] && (i > 0 ==> rest[i - 1] == bs[i]);
    }
    if Obscured(rest, t) {
      var i, j :| 0 <= i < j < |rest| && Blind(rest[i], t) && !Blind(rest[j], t);
      assert Blind(bs[i + 1], t) && !Blind(bs[j + 1], t);
    }
    if Blind(bs[0], t) && exists j :: 0 <= j < |rest| && !Blind(rest[j], t) {
      var j :| 0 <= j < |rest| && !Blind(rest[j], t);
      assert !Blind(bs[j + 1], t);
    }
  }

  /** No key has versions in two blocks. */
  ghost predicate NoSpan(bs: seq<seq<Entry>>) {
    forall i, j, x, y :: 0 <= i < j < |bs| && x in bs[i] && y in bs[j] ==> x.key != y.key
  }

  lemma {:induction false} FlatMember(bs: seq<seq<Entry>>, e: Entry)
    requires e in Flat(bs)
    ensures exists i :: 0 <= i < |bs| && e in bs[i]
  {
    if e !in bs[0] {
      FlatMember(bs[1..], e);
      var i :| 0 <= i < |bs[1..]| && e in bs[1..][i];
      assert bs[i + 1] == bs[1..][i];
    }
  }

  lemma {:induction false} FirstPerKeyConcat(a: seq<Entry>, b: seq<Entry>)
    requires forall x, y :: x in a && y in b ==> x.key != y.key
    ensures FirstPerKey(a + b) == FirstPerKey(a) + FirstPerKey(b)
    decreases |a|
  {
    hide FirstPerKey, DropKey;
    if a == [] {
      assert a + b == b;
      NothingFirst();
    } else {
      var e, t := a[0], a[1..];
      var r := DropKey(t, e.key);
      assert a == [e] + t && a + b == [e] + (t + b) && e in a;
      DropKeyConcat(t, b, e.key);
      DroppedFrom(t, e.key);
      FirstPerKeyConcat(r, b);
      FirstPerKeyCons(e, t);
      FirstPerKeyCons(e, t + b);
    }
  }

  lemma NothingFirst()
    ensures FirstPerKey([]) == []
  {
  }

  lemma FirstPerKeyCons(e: Entry, t: seq<Entry>)
    ensures FirstPerKey([e] + t) == [e] + FirstPerKey(DropKey(t, e.key))
  {
    assert ([e] + t)[1..] == t;
  }

  lemma {:induction false} DroppedFrom(t: seq<Entry>, k: Key)
    ensures forall x :: x in DropKey(t, k) ==> x in t
  {
    hide DropKey;
    DropKeySuffix(t, k);
  }

  lemma {:induction false} DropKeyConcat(a: seq<Entry>, b: seq<Entry>, k: Key)
    requires b != [] ==> b[0].key != k
    ensures DropKey(a + b, k) == DropKey(a, k) + b
  {
    if a == [] {
      assert a + b == b;
    } else {
      DropKeyConcat(a[1..], b, k);
      assert (a + b)[1..] == a[1..] + b;
    }
  }

  lemma {:induction false} ViewConcat(a: seq<Entry>, b: seq<Entry>, t: nat, keepAll: bool)
    requires keepAll || forall x, y :: x in a && y in b ==> x.key != y.key
    ensures View(a + b, t, keepAll) == View(a, t, keepAll) + View(b, t, keepAll)
  {
    hide AllVisible, FirstPerKey;
    AllVisibleConcat(a, b, t);
    if !keepAll {
      var va, vb := AllVisible(a, t), AllVisible(b, t);
      forall x, y | x in va && y in vb ensures x.key != y.key {
        AllVisibleMember(a, t, x);
        AllVisibleMember(b, t, y);
      }
      FirstPerKeyConcat(va, vb);
    }
  }

  /** Block by block or as one list: the view is the same when no key is cut in two. */
  lemma {:induction false} ViewsAreView(bs: seq<seq<Entry>>, t: nat, keepAll: bool)
    requires keepAll || NoSpan(bs)
    ensures Views(bs, t, keepAll) == View(Flat(bs), t, keepAll)
  {
    if bs != [] {
      hide View;
      var rest := bs[1..];
      forall i | 0 <= i < |rest| ensures rest[i] == bs[i + 1] {}
      assert keepAll || NoSpan(rest) by {
        if !keepAll {
          forall i, j, x: Entry, y: Entry | 0 <= i < j < |rest| && x in rest[i] && y in rest[j] ensures x.key != y.key {
            assert x in bs[i + 1] && y in bs[j + 1];
          }
        }
      }
      ViewsAreView(rest, t, keepAll);
      forall x, y | !keepAll && x in bs[0] && y in Flat(rest) ensures x.key != y.key {
        FlatMember(rest, y);
        var j :| 0 <= j < |rest| && y in rest[j];
        assert y in bs[j + 1];
      }
      ViewConcat(bs[0], Flat(rest), t, keepAll);
    } else {
      assert View([], t, keepAll) == [];
    }
  }

  /** The SST scan at `t`: exactly the newest visible version of every key that has one, in
      strictly ascending key order. */
  lemma {:induction false} SstScanIsSnapshot(bs: seq<seq<Entry>>, t: nat, e: Entry)
    requires EntrySorted(Flat(bs)) && NoSpan(bs) && !Obscured(bs, t)
    ensures StrictKeys(BlockScan(bs, t, false))
    ensures e in BlockScan(bs, t, false) <==> IsNewest(multiset(Flat(bs)), e.key, t, e)
  {
    hide *;
    ScanCompleteIff(bs, t, false);
    ViewsAreView(bs, t, false);
    QueryViewMeaning(Flat(bs), t, e);
  }

  /** Under `keep_all_versions`: every visible version, in node order. */
  lemma {:induction false} SstScanIsFullView(bs: seq<seq<Entry>>, t: nat, e: Entry)
    requires EntrySorted(Flat(bs)) && !Obscured(bs, t)
    ensures EntrySorted(BlockScan(bs, t, true))
    ensures e in BlockScan(bs, t, true) <==> e in Flat(bs) && Visible(e, t)
  {
    hide *;
    ScanCompleteIff(bs, t, true);
    ViewsAreView(bs, t, true);
    FullViewMeaning(Flat(bs), t, e);
  }

  /** Two blocks, the first newer than the reader: the second is never reached. */
  lemma {:induction false} ScanLosesBlocks(y: Entry, z: Entry)
    requires y.key != z.key && y.tid > z.tid > 0
    ensures var bs := [[y], [z]];
            && BlockScan(bs, z.tid, false) == []
            && IsNewest(multiset(Flat(bs)), z.key, z.tid, z)
  {
    var bs := [[y], [z]];
    assert bs[1..] == [[z]] && Flat([[z]]) == [z] + [];
    assert Flat(bs) == [y, z];
    ViewEmptyIff([y], z.tid, false);
  }

  // ---- a row of SSTs ------------------------------------------------------------------------------

  /** The scans of all SSTs, one after the other. */
  function Scans(ssts: seq<Sst>, t: nat, keepAll: bool): seq<Entry> {
    if ssts == [] then [] else BlockScan(ssts[0].blocks, t, keepAll) + Scans(ssts[1..], t, keepAll)
  }

  /** The SST has no block, or nothing in its first block is visible. */
  ghost predicate ShowsNothing(sst: Sst, t: nat) {
    sst.blocks == [] || Blind(sst.blocks[0], t)
  }

  lemma {:induction false} ScanEmptyIff(sst: Sst, t: nat, keepAll: bool)
    ensures BlockScan(sst.blocks, t, keepAll) == [] <==> ShowsNothing(sst, t)
  {
    if sst.blocks != [] {
      ViewEmptyIff(sst.blocks[0], t, keepAll);
    }
  }

  /** Some SST with something to show stands behind one that shows nothing. */
  ghost predicate Barred(ssts: seq<Sst>, t: nat) {
    exists i, j :: 0 <= i < j < |ssts| && ShowsNothing(ssts[i], t) && !ShowsNothing(ssts[j], t)
  }

  lemma {:induction false} ScansEmptyIff(ssts: seq<Sst>, t: nat, keepAll: bool)
    ensures Scans(ssts, t, keepAll) == [] <==> forall i :: 0 <= i < |ssts| ==> ShowsNothing(ssts[i], t)
  {
    hide BlockScan, ShowsNothing;
    if ssts != [] {
      var rest := ssts[1..];
      ScansEmptyIff(rest, t, keepAll);
      ScanEmptyIff(ssts[0], t, keepAll);
      forall i | 0 <= i < |rest| ensures rest[i] == ssts[i + 1] {}
      forall i | 0 < i < |ssts| ensures ssts[i] == rest[i - 1] {}
    }
  }

  lemma {:induction false} BarredStep(ssts: seq<Sst>, t: nat, keepAll: bool)
    requires ssts != []
    ensures Barred(ssts, t) <==>
            Barred(ssts[1..], t) || (ShowsNothing(ssts[0], t) && Scans(ssts[1..], t, keepAll) != [])
  {
    hide BlockScan, ShowsNothing;
    var rest := ssts[1..];
    ScansEmptyIff(rest, t, keepAll);
    forall i | 0 <= i < |rest| ensures rest[i] == ssts[i + 1] {}
    if Barred(ssts, t) {
      var i, j :| 0 <= i < j < |ssts| && ShowsNothing(ssts[i], t) && !ShowsNothing(ssts[j], t);
      assert rest[j - 1] == ssts[j];
      assert i > 0 ==> rest[i - 1] == ssts[i];
    }
    if Barred(rest, t) {
      var i, j :| 0 <= i < j < |rest| && ShowsNothing(rest[i], t) && !ShowsNothing(rest[j], t);
      assert ssts[i + 1] == rest[i] && ssts[j + 1] == rest[j];
    }
  }

  /** The chain shows what its SSTs show exactly when none is barred. */
  lemma {:induction false} ChainCompleteIff(ssts: seq<Sst>, t: nat, keepAll: bool)
    ensures ChainScan(ssts, t, keepAll) == Scans(ssts, t, keepAll) <==> !Barred(ssts, t)
  {
    hide BlockScan, ShowsNothing, Barred;
    if ssts == [] {
      NothingBarred(t);
    } else {
      var v, rest := BlockScan(ssts[0].blocks, t, keepAll), ssts[1..];
      ChainCompleteIff(rest, t, keepAll);
      BarredStep(ssts, t, keepAll);
      ScanEmptyIff(ssts[0], t, keepAll);
      if v == [] {
        assert Scans(ssts, t, keepAll) == Scans(rest, t, keepAll);
        BarredShows(rest, t, keepAll);
      } else {
        SameTails(v, ChainScan(rest, t, keepAll), Scans(rest, t, keepAll));
      }
    }
  }

  lemma NothingBarred(t: nat)
    ensures !Barred([], t)
  {
  }

  lemma BarredShows(ssts: seq<Sst>, t: nat, keepAll: bool)
    ensures Barred(ssts, t) ==> Scans(ssts, t, keepAll) != []
  {
    ScansEmptyIff(ssts, t, keepAll);
  }

  // ---- a row of SSTs against all of its blocks --------------------------------------------------------

  function AllBlocks(ssts: seq<Sst>): seq<seq<Entry>> {
    if ssts == [] then [] else ssts[0].blocks + AllBlocks(ssts[1..])
  }

  /** Some block of the row is out of reach. */
  ghost predicate CutOff(ssts: seq<Sst>, t: nat) {
    Barred(ssts, t) || exists i :: 0 <= i < |ssts| && Obscured(ssts[i].blocks, t)
  }

  lemma {:induction false} ViewsConcat(a: seq<seq<Entry>>, b: seq<seq<Entry>>, t: nat, keepAll: bool)
    ensures Views(a + b, t, keepAll) == Views(a, t, keepAll) + Views(b, t, keepAll)
  {
    hide View;
    if a == [] {
      assert a + b == b;
    } else {
      ViewsConcat(a[1..], b, t, keepAll);
      assert (a + b)[0] == a[0] && (a + b)[1..] == a[1..] + b;
      var v, x, y := View(a[0], t, keepAll), Views(a[1..], t, keepAll), Views(b, t, keepAll);
      assert v + (x + y) == (v + x) + y;
    }
  }

  lemma {:induction false} ScanIsShorter(bs: seq<seq<Entry>>, t: nat, keepAll: bool)
    ensures |BlockScan(bs, t, keepAll)| <= |Views(bs, t, keepAll)|
    ensures |BlockScan(bs, t, keepAll)| == |Views(bs, t, keepAll)| ==>
              BlockScan(bs, t, keepAll) == Views(bs, t, keepAll)
  {
    hide View;
    if bs != [] {
      ScanIsShorter(bs[1..], t, keepAll);
    }
  }

  /** A row that shows nothing at its head shows nothing at all unless something is cut off. */
  lemma {:induction false} BlindRow(ssts: seq<Sst>, t: nat, keepAll: bool)
    ensures Views(AllBlocks(ssts), t, keepAll) == [] <==>
            forall i :: 0 <= i < |ssts| ==> ShowsNothing(ssts[i], t) && !Obscured(ssts[i].blocks, t)
  {
    hide ShowsNothing, Obscured, Views;
    if ssts == [] {
      NoViews(t, keepAll);
    } else {
      var rest := ssts[1..];
      BlindRow(rest, t, keepAll);
      ViewsConcat(ssts[0].blocks, AllBlocks(rest), t, keepAll);
      BlindFile(ssts[0], t, keepAll);
      forall i | 0 <= i < |rest| ensures rest[i] == ssts[i + 1] {}
      forall i | 0 < i < |ssts| ensures ssts[i] == rest[i - 1] {}
    }
  }

  lemma NoViews(t: nat, keepAll: bool)
    ensures Views([], t, keepAll) == []
  {
  }

  lemma {:induction false} BlindFile(sst: Sst, t: nat, keepAll: bool)
    ensures Views(sst.blocks, t, keepAll) == [] <==> ShowsNothing(sst, t) && !Obscured(sst.blocks, t)
  {
    hide Blind, View;
    var bs := sst.blocks;
    ViewsEmptyIff(bs, t, keepAll);
    if bs != [] && Blind(bs[0], t) && !Obscured(bs, t) {
      forall i | 0 <= i < |bs| ensures Blind(bs[i], t) {
        assert i == 0 || !(Blind(bs[0], t) && !Blind(bs[i], t));
      }
    }
  }

  lemma {:induction false} CutOffStep(ssts: seq<Sst>, t: nat, keepAll: bool)
    requires ssts != [] && !ShowsNothing(ssts[0], t)
    ensures CutOff(ssts, t) <==> Obscured(ssts[0].blocks, t) || CutOff(ssts[1..], t)
  {
    hide ShowsNothing, Obscured, Barred;
    var rest := ssts[1..];
    BarredStep(ssts, t, keepAll);
    forall i | 0 <= i < |rest| ensures rest[i] == ssts[i + 1] {}
    if exists i :: 0 <= i < |ssts| && Obscured(ssts[i].blocks, t) {
      var i :| 0 <= i < |ssts| && Obscured(ssts[i].blocks, t);
      assert i > 0 ==> Obscured(rest[i - 1].blocks, t);
    }
    if exists i :: 0 <= i < |rest| && Obscured(rest[i].blocks, t) {
      var i :| 0 <= i < |rest| && Obscured(rest[i].blocks, t);
      assert Obscured(ssts[i + 1].blocks, t);
    }
  }

  lemma {:induction false} CutOffAtBlind(ssts: seq<Sst>, t: nat)
    requires ssts != [] && ShowsNothing(ssts[0], t)
    ensures !CutOff(ssts, t) <==>
            forall i :: 0 <= i < |ssts| ==> ShowsNothing(ssts[i], t) && !Obscured(ssts[i].blocks, t)
  {
    hide ShowsNothing, Obscured;
    if !CutOff(ssts, t) {
      forall i | 0 <= i < |ssts| ensures ShowsNothing(ssts[i], t) && !Obscured(ssts[i].blocks, t) {
        assert i == 0 || !(ShowsNothing(ssts[0], t) && !ShowsNothing(ssts[i], t));
      }
    }
  }

  lemma {:induction false} ChainLength(ssts: seq<Sst>, t: nat, keepAll: bool)
    ensures var chain, all := ChainScan(ssts, t, keepAll), Views(AllBlocks(ssts), t, keepAll);
            && |chain| <= |all| && (if CutOff(ssts, t) then |chain| < |all| else chain == all)
  {
    hide BlockScan, Views, CutOff, ShowsNothing, Obscured;
    if ssts == [] {
      NoViews(t, keepAll);
      NothingCutOff(t);
    } else {
      var bs, rest := ssts[0].blocks, ssts[1..];
      ChainLength(rest, t, keepAll);
      ViewsConcat(bs, AllBlocks(rest), t, keepAll);
      ScanEmptyIff(ssts[0], t, keepAll);
      if BlockScan(bs, t, keepAll) == [] {
        CutOffAtBlind(ssts, t);
        BlindRow(ssts, t, keepAll);
      } else {
        CutOffStep(ssts, t, keepAll);
        ScanCompleteIff(bs, t, keepAll);
        ScanIsShorter(bs, t, keepAll);
      }
    }
  }

  lemma NothingCutOff(t: nat)
    ensures !CutOff([], t)
  {
  }

  /** The chain shows what all blocks of all its SSTs show if and only if no SST is barred and no block
      obscured. */
  lemma {:induction false} ChainShowsAllIff(ssts: seq<Sst>, t: nat, keepAll: bool)
    ensures ChainScan(ssts, t, keepAll) == Views(AllBlocks(ssts), t, keepAll) <==> !CutOff(ssts, t)
  {
    hide ChainScan, Views, CutOff;
    ChainLength(ssts, t, keepAll);
  }

  lemma {:induction false} FlatOfAll(ssts: seq<Sst>)
    ensures Flat(AllBlocks(ssts)) == FlatSsts(ssts)
  {
    if ssts != [] {
      FlatOfAll(ssts[1..]);
      FlatConcat(ssts[0].blocks, AllBlocks(ssts[1..]));
    }
  }

  lemma {:induction false} FlatConcat(a: seq<seq<Entry>>, b: seq<seq<Entry>>)
    ensures Flat(a + b) == Flat(a) + Flat(b)
  {
    if a == [] {
      assert a + b == b;
    } else {
      FlatConcat(a[1..], b);
      assert (a + b)[0] == a[0] && (a + b)[1..] == a[1..] + b;
      var v, x, y := a[0], Flat(a[1..]), Flat(b);
      assert v + (x + y) == (v + x) + y;
    }
  }

  /** A chained level at `t`: exactly the newest visible version of every key that has one, ascending. */
  lemma {:induction false} ChainIsSnapshot(ssts: seq<Sst>, t: nat, e: Entry)
    requires EntrySorted(FlatSsts(ssts)) && NoSpan(AllBlocks(ssts)) && !CutOff(ssts, t)
    ensures StrictKeys(ChainScan(ssts, t, false))
    ensures e in ChainScan(ssts, t, false) <==> IsNewest(multiset(FlatSsts(ssts)), e.key, t, e)
  {
    hide *;
    ChainShowsAllIff(ssts, t, false);
    ViewsAreView(AllBlocks(ssts), t, false);
    FlatOfAll(ssts);
    QueryViewMeaning(FlatSsts(ssts), t, e);
  }

  /** Two SSTs, the first newer than the reader: the second is never reached. */
  lemma {:induction false} ChainLosesSsts(y: Entry, z: Entry, keepAll: bool)
    requires y.tid > z.tid > 0
    ensures var ssts := [Sst(1, [[y]]), Sst(2, [[z]])];
            ChainScan(ssts, z.tid, keepAll) == [] && z in Scans(ssts, z.tid, keepAll) && Barred(ssts, z.tid)
  {
    var a, b := Sst(1, [[y]]), Sst(2, [[z]]);
    var ssts := [a, b];
    assert ssts[1..] == [b] && [b][1..] == [] && [[z]][1..] == [] && [z][1..] == [];
    ScanEmptyIff(a, z.tid, keepAll);
    assert ShowsNothing(ssts[0], z.tid) && !ShowsNothing(ssts[1], z.tid) by { assert z in [z]; }
    FirstPerKeyCons(z, []);
    assert [z] + [] == [z] && DropKey([], z.key) == [] && FirstPerKey([]) == [];
    assert AllVisible([z], z.tid) == [z] && FirstPerKey([z]) == [z];
    assert BlockScan(b.blocks, z.tid, keepAll) == [z] + BlockScan([], z.tid, keepAll) == [z];
    assert Scans([b], z.tid, keepAll) == [z] + Scans([], z.tid, keepAll);
  }

  lemma SameTails(v: seq<Entry>, x: seq<Entry>, y: seq<Entry>)
    ensures v + x == v + y <==> x == y
  {
    if v + x == v + y {
      assert x == (v + x)[|v|..] == (v + y)[|v|..] == y;
    }
  }

  // ---- compaction reads everything ----------------------------------------------------------------

  ghost predicate FullBlocks(bs: seq<seq<Entry>>) {
    bs != [] && forall i :: 0 <= i < |bs| ==> bs[i] != []
  }

  lemma {:induction false} FullScan(bs: seq<seq<Entry>>)
    requires forall i :: 0 <= i < |bs| ==> bs[i] != []
    ensures BlockScan(bs, 0, true) == Flat(bs)
  {
    if bs != [] {
      hide AllVisible;
      EverythingVisible(bs[0]);
      FullScan(bs[1..]);
    }
  }

  lemma {:induction false} FullChain(ssts: seq<Sst>)
    requires forall i :: 0 <= i < |ssts| ==> FullBlocks(ssts[i].blocks)
    ensures ChainScan(ssts, 0, true) == FlatSsts(ssts)
  {
    if ssts != [] {
      hide AllVisible, BlockScan;
      FullScan(ssts[0].blocks);
      FullChain(ssts[1..]);
    }
  }
}
