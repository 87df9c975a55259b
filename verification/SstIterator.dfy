/** Cursors over one SST (a row of blocks) and over a row of SSTs. */
module SstIterators {
  import opened Keys
  import opened Entries
  import opened Streams
  import opened BlockIterators

  /** An SST in inline mode: values are stored as they are. */
  datatype Sst = Sst(id: nat, blocks: seq<seq<Entry>>)

  ghost predicate Wellformed(sst: Sst) {
    forall i :: 0 <= i < |sst.blocks| ==> KeySorted(sst.blocks[i])
  }

  /** What a scan from the first of `bs` yields: it gives up at a block where nothing is visible. */
  function BlockScan(bs: seq<seq<Entry>>, t: nat, keepAll: bool): seq<Entry> {
    if bs == [] then []
    else
      var v := View(bs[0], t, keepAll);
      if v == [] then [] else v + BlockScan(bs[1..], t, keepAll)
  }

  /** What a scan of a row of SSTs yields: it gives up at an SST whose scan yields nothing. */
  function ChainScan(ssts: seq<Sst>, t: nat, keepAll: bool): seq<Entry> {
    if ssts == [] then []
    else
      var v := BlockScan(ssts[0].blocks, t, keepAll);
      if v == [] then [] else v + ChainScan(ssts[1..], t, keepAll)
  }

  class SstIterator {
    var sst: Option<Sst>
    var blockIdx: nat
    var blockIt: BlockIterator?
    var maxTid: nat
    var keepAll: bool

    ghost function Repr(): set<object>
      reads this
    {
      if blockIt == null then {this} else {this, blockIt}
    }

    ghost predicate Valid()
      reads this, Repr()
    {
      && (sst.Some? ==> Wellformed(sst.value))
      && (blockIt != null ==>
            && sst.Some? && blockIdx < |sst.value.blocks|
            && blockIt.block == sst.value.blocks[blockIdx]
            && blockIt.trancId == maxTid && blockIt.keepAll == keepAll && blockIt.Valid())
    }

    /** What is still to come: the rest of this block, then the blocks behind it. */
    ghost function Rest(): seq<Entry>
      requires Valid()
      reads this, Repr()
    {
      if blockIt == null || blockIt.Rest() == [] then []
      else blockIt.Rest() + BlockScan(sst.value.blocks[blockIdx + 1..], maxTid, keepAll)
    }

    predicate IsEnd()
      reads this
    {
      blockIt == null
    }

    predicate IsValid()
      reads this, Repr()
    {
      blockIt != null && !blockIt.IsEnd() && sst.Some? && blockIdx < |sst.value.blocks|
    }

    lemma ValidIffMore()
      requires Valid()
      ensures IsValid() <==> Rest() != []
      ensures IsEnd() ==> !IsValid()
      ensures IsValid() ==> Rest()[0] == blockIt.block[blockIt.index]
    {
      if blockIt != null {
        blockIt.EndIffDone();
      }
    }

    /** The null iterator. */
    constructor Null(t: nat, keep: bool)
      ensures Valid() && Rest() == [] && IsEnd() && fresh(Repr()) && maxTid == t && keepAll == keep
    {
      sst, blockIdx, blockIt, maxTid, keepAll := None, 0, null, t, keep;
    }

    constructor Begin(s: Sst, t: nat, keep: bool)
      requires Wellformed(s)
      ensures Valid() && fresh(Repr()) && sst == Some(s) && maxTid == t && keepAll == keep
      ensures Rest() == BlockScan(s.blocks, t, keep)
    {
      hide View;
      sst, blockIdx, maxTid, keepAll := Some(s), 0, t, keep;
      if |s.blocks| == 0 {
        blockIt := null;
      } else {
        blockIt := new BlockIterator(s.blocks[0], 0, t, keep);
        assert s.blocks[0][0..] == s.blocks[0];
      }
    }

    method Next()
      requires Valid()
      modifies Repr()
      ensures Valid() && fresh(Repr() - old(Repr())) && sst == old(sst)
      ensures maxTid == old(maxTid) && keepAll == old(keepAll) && (old(blockIt) == null ==> blockIt == null)
      ensures old(Rest()) != [] ==> Rest() == old(Rest())[1..]
    {
      hide View, AllVisible;
      if blockIt == null {
        return;
      }
      ghost var r, tail := blockIt.Rest(), BlockScan(sst.value.blocks[blockIdx + 1..], maxTid, keepAll);
      blockIt.EndIffDone();
      blockIt.Next();
      blockIt.EndIffDone();
      assert r != [] ==> (r + tail)[1..] == r[1..] + tail;
      if blockIt.IsEnd() {
        ghost var bs := sst.value.blocks[blockIdx + 1..];
        blockIdx := blockIdx + 1;
        if blockIdx < |sst.value.blocks| {
          assert bs[0] == sst.value.blocks[blockIdx] && bs[1..] == sst.value.blocks[blockIdx + 1..];
          blockIt.Restart(sst.value.blocks[blockIdx]);
          assert r != [] ==> r[1..] + tail == tail;
        } else {
          assert tail == [];
          blockIt := null;
        }
      }
    }

    /** `operator*` where it does not throw. */
    function Current(): (e: Entry)
      requires Valid() && Rest() != []
      reads this, Repr()
      ensures e == Rest()[0]
    {
      ValidIffMore();
      blockIt.block[blockIt.index]
    }

    function TrancId(): nat
      reads this, Repr()
    {
      if keepAll && blockIt != null then blockIt.CurTrancId() else maxTid
    }

    function CurTrancId(): nat
      reads this, Repr()
    {
      if blockIt == null then 0 else blockIt.CurTrancId()
    }
  }

  class ConcactIterator {
    var ssts: seq<Sst>
    var curIter: SstIterator
    var curIdx: nat
    var maxTid: nat
    var keepAll: bool

    ghost var repr: set<object>

    ghost predicate Valid()
      reads this, repr
      ensures Valid() ==> this in repr
    {
      && this in repr && curIter in repr && curIter.Repr() <= repr
      && this !in curIter.Repr() && curIter.Valid() && (forall i :: 0 <= i < |ssts| ==> Wellformed(ssts[i]))
      && curIter.maxTid == maxTid && (curIter.blockIt != null ==> curIter.keepAll == keepAll)
      && (curIter.blockIt != null ==> curIdx < |ssts|)
    }

    ghost function Rest(): seq<Entry>
      requires Valid()
      reads this, repr
    {
      if curIter.Rest() == [] then []
      else curIter.Rest() + ChainScan(ssts[curIdx + 1..], maxTid, keepAll)
    }

    constructor (row: seq<Sst>, t: nat, keep: bool)
      requires forall i :: 0 <= i < |row| ==> Wellformed(row[i])
      ensures Valid() && fresh(repr) && maxTid == t && keepAll == keep
      ensures Rest() == ChainScan(row, t, keep)
    {
      hide BlockScan, View, Wellformed, SstIterator.Rest, SstIterator.IsValid;
      ssts, curIdx, maxTid, keepAll := row, 0, t, keep;
      if row != [] {
        curIter := new SstIterator.Begin(row[0], t, keep);
      } else {
        curIter := new SstIterator.Null(t, false);
      }
      new;
      repr := {this} + curIter.Repr();
    }

    predicate IsEnd()
      requires Valid()
      reads this, repr
    {
      curIter.IsEnd() || !curIter.IsValid()
    }

    predicate IsValid()
      requires Valid()
      reads this, repr
    {
      !curIter.IsEnd() && curIter.IsValid()
    }

    lemma EndIffDone()
      requires Valid()
      ensures IsEnd() <==> Rest() == []
      ensures IsValid() <==> Rest() != []
      ensures Rest() != [] ==> curIter.blockIt != null && Rest()[0] == curIter.blockIt.block[curIter.blockIt.index]
    {
      curIter.ValidIffMore();
    }

    method Next()
      requires Valid()
      modifies repr
      ensures Valid() && fresh(repr - old(repr))
      ensures maxTid == old(maxTid) && keepAll == old(keepAll)
      ensures old(Rest()) != [] ==> Rest() == old(Rest())[1..]
    {
      hide BlockScan, View, ChainScan, Wellformed, SstIterator.Rest, SstIterator.IsValid;
      ghost var r := curIter.Rest();
      curIter.ValidIffMore();
      ghost var tail := if curIdx < |ssts| then ChainScan(ssts[curIdx + 1..], maxTid, keepAll) else [];
      curIter.Next();
      curIter.ValidIffMore();
      assert r != [] ==> (r + tail)[1..] == r[1..] + tail;
      repr := repr + curIter.Repr();
      if curIter.IsEnd() || !curIter.IsValid() {
        assert r != [] ==> r[1..] + tail == tail;
        NextSst();
      }
    }

    /** On to the next SST of the row, or to the null iterator after the last one. */
    method NextSst()
      requires Valid()
      modifies this`curIdx, this`curIter, this`repr
      ensures Valid() && fresh(repr - old(repr))
      ensures Rest() == if old(curIdx) < |ssts| then ChainScan(ssts[old(curIdx) + 1..], maxTid, keepAll) else []
    {
      hide BlockScan, View, Wellformed, SstIterator.Rest, SstIterator.IsValid;
      curIdx := curIdx + 1;
      if curIdx < |ssts| {
        ghost var more := ssts[curIdx..];
        assert more[0] == ssts[curIdx] && more[1..] == ssts[curIdx + 1..];
        curIter := new SstIterator.Begin(ssts[curIdx], maxTid, keepAll);
      } else {
        curIter := new SstIterator.Null(maxTid, false);
      }
      repr := repr + curIter.Repr();
    }

    function Current(): (e: Entry)
      requires Valid() && Rest() != []
      reads this, repr
      ensures e == Rest()[0]
    {
      curIter.Current()
    }

    function TrancId(): nat
      requires Valid()
      reads this, repr
    {
      if keepAll then curIter.TrancId() else maxTid
    }
  }
}
