/** A cursor over one block: entries sorted by key, newer versions of a key first. */
module BlockIterators {
  import opened Keys
  import opened Entries
  import opened Streams

  lemma {:induction false} SkipInvisible(s: seq<Entry>, i: nat, t: nat, keepAll: bool)
    requires i < |s| && !Visible(s[i], t)
    ensures View(s[i..], t, keepAll) == View(s[i + 1..], t, keepAll)
  {
    hide FirstPerKey;
    assert s[i..][1..] == s[i + 1..];
  }

  lemma {:induction false} AtVisible(s: seq<Entry>, i: nat, t: nat, keepAll: bool)
    requires i < |s| && Visible(s[i], t)
    ensures var v := View(s[i..], t, keepAll); v != [] && v[0] == s[i]
  {
  }

  /** Leaving entry `i` for the next key at `j`: exactly the first view entry is gone. */
  lemma {:induction false} SkipSameKey(s: seq<Entry>, i: nat, j: nat, t: nat)
    requires KeySorted(s) && i < j <= |s| && Visible(s[i], t)
    requires forall m :: i < m < j ==> s[m].key == s[i].key
    requires j < |s| ==> s[j].key != s[i].key
    ensures View(s[i..], t, false) == [s[i]] + View(s[j..], t, false)
  {
    hide DropKey, AllVisible, KeyLess;
    var k, p, r := s[i].key, s[i + 1..j], s[j..];
    AllVisibleCons(s[i], p + r, t);
    assert s[i..] == [s[i]] + (p + r);
    AllVisibleConcat(p, r, t);
    var vp, vr := AllVisible(p, t), AllVisible(r, t);
    forall m | 0 <= m < |vp| ensures vp[m].key == k {
      AllVisibleMember(p, t, vp[m]);
    }
    if vr != [] {
      AllVisibleMember(r, t, vr[0]);
      var m :| j <= m < |s| && s[m] == vr[0];
      OtherKeyBeyond(s, i, j, m);
    }
    DropKeyPrefix(vp, vr, k);
    var all := AllVisible(s[i..], t);
    assert all == [s[i]] + (vp + vr) && all[1..] == vp + vr;
  }

  lemma {:induction false} OtherKeyBeyond(s: seq<Entry>, i: nat, j: nat, m: nat)
    requires KeySorted(s) && i < j <= m < |s| && s[j].key != s[i].key
    ensures s[m].key != s[i].key
  {
    hide KeyLess;
    var _ := KeyOrder();
    assert !KeyLess(s[j].key, s[i].key) && (j < m ==> !KeyLess(s[m].key, s[j].key));
    KeyTrichotomy(s[i].key, s[j].key);
  }

  class BlockIterator {
    var block: seq<Entry>
    var index: nat
    var trancId: nat
    var keepAll: bool
    var cached: Option<Entry>

    ghost predicate Valid()
      reads this
    {
      && index <= |block| && KeySorted(block)
      && (index < |block| ==> Visible(block[index], trancId))
      && (cached.Some? ==> index < |block| && cached.value == block[index])
    }

    /** Everything the cursor still has to visit, its position included. */
    ghost function Rest(): seq<Entry>
      reads this
      requires index <= |block|
    {
      View(block[index..], trancId, keepAll)
    }

    constructor (b: seq<Entry>, i: nat, t: nat, keep: bool)
      requires KeySorted(b) && i <= |b|
      ensures Valid() && Rest() == View(b[i..], t, keep)
      ensures block == b && trancId == t && keepAll == keep
    {
      block, index, trancId, keepAll, cached := b, i, t, keep, None;
      new;
      SkipByTrancId();
    }

    /** The whole cursor is overwritten in place by one at the start of another block. */
    method Restart(b: seq<Entry>)
      requires KeySorted(b)
      modifies this
      ensures Valid() && Rest() == View(b, trancId, keepAll)
      ensures block == b && trancId == old(trancId) && keepAll == old(keepAll)
    {
      block, index := b, 0;
      assert b[0..] == b;
      SkipByTrancId();
    }

    /** Forward to the next visible entry; the cached value is forgotten. */
    method SkipByTrancId()
      requires index <= |block| && KeySorted(block)
      modifies this`index, this`cached
      ensures Valid() && Rest() == old(Rest()) && old(index) <= index
    {
      hide View;
      if trancId == 0 {
        cached := None;
        return;
      }
      while index < |block|
        invariant old(index) <= index <= |block|
        invariant Rest() == old(Rest())
      {
        if block[index].tid <= trancId {
          break;
        }
        SkipInvisible(block, index, trancId, keepAll);
        index := index + 1;
      }
      cached := None;
    }

    function IsEnd(): bool
      reads this
    {
      index == |block|
    }

    lemma EndIffDone()
      requires Valid()
      ensures IsEnd() <==> Rest() == []
      ensures !IsEnd() ==> Rest()[0] == block[index]
    {
      if index < |block| {
        AtVisible(block, index, trancId, keepAll);
      }
    }

    method Next()
      requires Valid()
      modifies this`index, this`cached
      ensures Valid()
      ensures Rest() == if old(Rest()) == [] then [] else old(Rest())[1..]
    {
      hide View, AllVisible;
      EndIffDone();
      if index < |block| {
        ghost var i := index;
        var prev := block[index];
        index := index + 1;
        if !keepAll {
          while index < |block|
            invariant i < index <= |block|
            invariant forall m :: i < m < index ==> block[m].key == prev.key
          {
            if block[index].key != prev.key {
              break;
            }
            index := index + 1;
          }
          SkipSameKey(block, i, index, trancId);
        } else {
          StepAll(block, i, trancId);
        }
        SkipByTrancId();
      }
    }

    /** `operator*`, which throws past the end. */
    method Deref() returns (r: Option<Entry>)
      requires Valid()
      modifies this`cached
      ensures Valid() && r == if Rest() == [] then None else Some(Rest()[0])
    {
      hide View, AllVisible;
      EndIffDone();
      if index >= |block| {
        return None;
      }
      if cached.None? {
        cached := Some(block[index]);
      }
      r := cached;
    }

    function CurTrancId(): nat
      reads this
    {
      if index >= |block| then 0 else block[index].tid
    }
  }

  lemma {:induction false} StepAll(s: seq<Entry>, i: nat, t: nat)
    requires i < |s| && Visible(s[i], t)
    ensures View(s[i..], t, true) == [s[i]] + View(s[i + 1..], t, true)
  {
    assert s[i..][1..] == s[i + 1..];
  }
}
