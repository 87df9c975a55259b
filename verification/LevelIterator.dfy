/** The scan over the whole engine: memtable, level 0 and the lower levels, merged key by key. */
module LevelIterators {
  import opened Keys
  import opened Entries
  import opened Streams
  import opened MergeIterators
  import opened LevelOutputs

  function Total(ss: seq<seq<Entry>>): nat {
    if ss == [] then 0 else |ss[0]| + Total(ss[1..])
  }

  lemma {:induction false} TotalShrinks(ss: seq<seq<Entry>>, i: nat)
    requires i < |ss| && ss[i] != []
    ensures Total(SkipKey(ss, ss[i][0].key)) < Total(ss)
  {
    var k, r := ss[i][0].key, SkipKey(ss, ss[i][0].key);
    assert r[1..] == SkipKey(ss[1..], k);
    TotalNoMore(ss[1..], k);
    if i == 0 {
      assert |DropKey(ss[0], k)| < |ss[0]|;
    } else {
      TotalShrinks(ss[1..], i - 1);
    }
  }

  lemma {:induction false} TotalNoMore(ss: seq<seq<Entry>>, k: Key)
    ensures Total(SkipKey(ss, k)) <= Total(ss)
  {
    if ss != [] {
      assert SkipKey(ss, k)[1..] == SkipKey(ss[1..], k);
      TotalNoMore(ss[1..], k);
    }
  }

  class LevelIterator {
    const iters: seq<BaseIterator>
    const maxTid: nat
    var curIdx: nat
    var cached: Option<Entry>
    ghost var repr: set<object>

    /** The children share nothing, are in query mode with the same bound and carry keyed streams. */
    ghost predicate Base()
      reads this, repr
    {
      && this in repr
      && (forall i :: 0 <= i < |iters| ==> iters[i].Obj() in repr)
      && (forall i :: 0 <= i < |iters| ==> iters[i].Obj() in iters[i].Repr() && iters[i].Repr() <= repr - {this})
      && (forall i, j :: 0 <= i < j < |iters| ==> iters[i].Repr() !! iters[j].Repr())
      && (forall i :: 0 <= i < |iters| ==>
            iters[i].Valid() && !iters[i].KeepAll() && iters[i].MaxTid() == maxTid)
    }

    /** What the children still have to say. */
    ghost function Streams(): (ss: seq<seq<Entry>>)
      requires Base()
      reads this, repr
      ensures |ss| == |iters| && forall i :: 0 <= i < |iters| ==> ss[i] == iters[i].Rest()
    {
      seq(|iters|, i requires 0 <= i < |iters| && Base() reads this, repr => iters[i].Rest())
    }

    /** What is still to be yielded. */
    ghost function Rest(): seq<Entry>
      requires Base()
      reads this, repr
    {
      LevelOut(Streams())
    }

    /** Either everything is exhausted or the cache holds the chosen entry, which is live. */
    ghost predicate Valid()
      reads this, repr
    {
      && Base() && MarkersOnly(Streams())
      && (Exhausted(Streams()) ||
          (&& IsChosen(Streams(), curIdx) && curIdx < |Streams()| && Streams()[curIdx] != []
           && cached == Some(Streams()[curIdx][0]) && Streams()[curIdx][0].value != []))
    }

    predicate IsEnd()
      requires Base()
      reads this, repr
      ensures IsEnd() <==> Exhausted(Streams())
    {
      assert forall i :: 0 <= i < |iters| ==> (iters[i].IsValid() <==> Streams()[i] != []) by {
        forall i | 0 <= i < |iters| ensures iters[i].IsValid() <==> Streams()[i] != [] {
          iters[i].Interface();
        }
      }
      forall i :: 0 <= i < |iters| ==> !iters[i].IsValid()
    }

    /** One child moves on by one entry. */
    method AdvanceChild(i: nat)
      requires Base() && i < |iters| && iters[i].Rest() != []
      modifies repr
      ensures Base() && fresh(repr - old(repr)) && cached == old(cached) && curIdx == old(curIdx)
      ensures Streams() == old(Streams())[i := old(Streams())[i][1..]]
    {
      hide BaseIterator.Rest, BaseIterator.Valid;
      iters[i].Next();
      repr := repr + iters[i].Repr();
    }

    /** The child with the smallest current key; on a tie the first one, since all children report the same
        id. The empty key serves as "nothing found yet", so whatever follows a marker displaces it. */
    method GetMinKeyIdx() returns (minIdx: nat, minKey: Key)
      requires Base() && MarkersOnly(Streams())
      ensures Exhausted(Streams()) ==> minKey == []
      ensures !Exhausted(Streams()) ==> IsChosen(Streams(), minIdx) && minIdx < |iters| && Streams()[minIdx] != []
      ensures !Exhausted(Streams()) ==> minKey == Streams()[minIdx][0].key
    {
      hide BaseIterator.Rest, BaseIterator.Valid, BaseIterator.Current, KeyLess, MarkersOnly, IsChosen;
      ghost var ss := Streams();
      minIdx, minKey := 0, [];
      for i := 0 to |iters|
        invariant Exhausted(ss[..i]) ==> minKey == []
        invariant !Exhausted(ss[..i]) ==>
                    IsChosen(ss[..i], minIdx) && minIdx < i && ss[minIdx] != [] && minKey == ss[minIdx][0].key
      {
        var here: nat := i;
        iters[i].Interface();
        NextChild(ss[..i], ss[i], minIdx);
        assert ss[..i + 1] == ss[..i] + [ss[i]];
        NothingBelowEmpty(minKey);
        if iters[i].IsValid() {
          var key := iters[i].Current().key;
          if minKey == [] {
            minKey, minIdx := key, here;
          } else if KeyLess(key, iters[minIdx].Current().key) {
            minKey, minIdx := key, here;
          } else if key == minKey {
            iters[minIdx].Interface();
            if maxTid != 0 && iters[i].TrancId() > iters[minIdx].TrancId() {
              minIdx := here;
            }
          }
        }
      }
      assert ss[..|iters|] == ss;
    }

    /** Moves one child past `key`. */
    method SkipChildKey(i: nat, key: Key)
      requires Base() && i < |iters|
      modifies repr
      ensures Base() && fresh(repr - old(repr)) && cached == old(cached) && curIdx == old(curIdx)
      ensures Streams() == old(Streams())[i := DropKey(old(Streams())[i], key)]
    {
      hide BaseIterator.Rest, BaseIterator.Valid, BaseIterator.Current;
      iters[i].Interface();
      while iters[i].IsValid() && iters[i].Current().key == key
        invariant Base() && fresh(repr - old(repr)) && cached == old(cached) && curIdx == old(curIdx)
        invariant Streams() == old(Streams())[i := Streams()[i]]
        invariant DropKey(Streams()[i], key) == DropKey(old(Streams())[i], key)
        invariant iters[i].IsValid() <==> iters[i].Rest() != []
        decreases |Streams()[i]|
      {
        AdvanceChild(i);
        iters[i].Interface();
      }
    }

    /** Moves every child past `key`. */
    method SkipKeyEverywhere(key: Key)
      requires Base()
      modifies repr
      ensures Base() && fresh(repr - old(repr)) && cached == old(cached) && curIdx == old(curIdx)
      ensures Streams() == SkipKey(old(Streams()), key)
    {
      hide LevelIterator.Base, DropKey;
      ghost var ss := Streams();
      for i := 0 to |iters|
        invariant Base() && fresh(repr - old(repr)) && cached == old(cached) && curIdx == old(curIdx)
        invariant forall j :: 0 <= j < i ==> Streams()[j] == DropKey(ss[j], key)
        invariant forall j :: i <= j < |ss| ==> Streams()[j] == ss[j]
      {
        SkipChildKey(i, key);
      }
    }

    /** Chooses the front child and caches its entry. */
    method PickFront()
      requires Base() && MarkersOnly(Streams()) && !Exhausted(Streams())
      modifies this`curIdx, this`cached
      ensures Base() && Streams() == old(Streams()) && curIdx < |Streams()| && Streams()[curIdx] != []
      ensures IsChosen(Streams(), curIdx) && cached == Some(Streams()[curIdx][0])
    {
      hide BaseIterator.Rest, BaseIterator.Valid, BaseIterator.Current, MarkersOnly, Exhausted, KeyLess, IsChosen;
      var minIdx, _ := GetMinKeyIdx();
      curIdx := minIdx;
      cached := Some(iters[curIdx].Current());
    }

    /** Looks for the next key that is not deleted. */
    method Settle()
      requires Base() && MarkersOnly(Streams())
      modifies repr
      ensures Valid() && fresh(repr - old(repr)) && Rest() == old(Rest())
    {
      hide MarkersOnly, IsChosen, LevelOut, Exhausted, DropKey, BaseIterator.Rest, BaseIterator.Valid;
      while !IsEnd()
        invariant Base() && MarkersOnly(Streams()) && fresh(repr - old(repr)) && Rest() == old(Rest())
        decreases Total(Streams())
      {
        PickFront();
        ghost var ss := Streams();
        ChosenStep(ss, curIdx);
        TotalShrinks(ss, curIdx);
        if cached.value.value == [] {
          SkipKeyEverywhere(cached.value.key);
        } else {
          break;
        }
      }
    }

    /** `ss` names what the children are about to yield. */
    constructor (children: seq<BaseIterator>, t: nat, ghost ss: seq<seq<Entry>>, ghost footprint: set<object>)
      requires forall i :: 0 <= i < |children| ==> children[i].Obj() in children[i].Repr()
      requires forall i :: 0 <= i < |children| ==> children[i].Repr() <= footprint
      requires forall i, j :: 0 <= i < j < |children| ==> children[i].Repr() !! children[j].Repr()
      requires forall i :: 0 <= i < |children| ==>
                 children[i].Valid() && !children[i].KeepAll() && children[i].MaxTid() == t
      requires |ss| == |children| && MarkersOnly(ss) && forall i :: 0 <= i < |ss| ==> children[i].Rest() == ss[i]
      modifies footprint
      ensures Valid() && iters == children && maxTid == t && fresh(repr - footprint)
      ensures Rest() == LevelOut(ss)
    {
      hide BaseIterator.Rest, BaseIterator.Valid, LevelOut, MarkersOnly;
      iters, maxTid, curIdx, cached := children, t, 0, None;
      new;
      repr := footprint + {this};
      assert Streams() == ss;
      Settle();
    }

    /** On to the next live key; what was yielded is the first entry of what was to come. */
    method Next()
      requires Valid() && Rest() != []
      modifies repr
      ensures Valid() && fresh(repr - old(repr)) && Rest() == old(Rest())[1..]
    {
      hide LevelIterator.Base, MarkersOnly, IsChosen, LevelOut;
      ghost var ss := Streams();
      NotExhausted(ss);
      ChosenStep(ss, curIdx);
      SkipKeyEverywhere(cached.value.key);
      Settle();
    }

    /** `operator*`. */
    function Current(): (e: Entry)
      requires Valid() && Rest() != []
      reads this, repr
      ensures e == Rest()[0]
    {
      var ss := Streams();
      NotExhausted(ss);
      assert Rest()[0] == ss[curIdx][0] by { ChosenStep(ss, curIdx); }
      cached.value
    }
  }

  lemma NotExhausted(ss: seq<seq<Entry>>)
    requires LevelOut(ss) != []
    ensures !Exhausted(ss)
  {
    hide LevelOut;
    if Exhausted(ss) {
      ExhaustedYieldsNothing(ss);
    }
  }

  /** The choice after one more child `s`, when `m` was chosen before, if anything. */
  ghost predicate NextChoice(pre: seq<seq<Entry>>, s: seq<Entry>, m: nat, none: bool) {
    var all := pre + [s];
    if s == [] then none || IsChosen(all, m)
    else if none || OnMarker(s) then IsChosen(all, |pre|)
    else
      && m < |pre| && pre[m] != []
      && IsChosen(all, if pre[m][0].key == [] || KeyLess(s[0].key, pre[m][0].key) then |pre| else m)
  }

  /** How the choice moves when one more child is looked at. */
  lemma {:induction false} NextChild(pre: seq<seq<Entry>>, s: seq<Entry>, m: nat)
    requires Exhausted(pre) || (IsChosen(pre, m) && m < |pre| && pre[m] != [])
    ensures Exhausted(pre + [s]) <==> Exhausted(pre) && s == []
    ensures NextChoice(pre, s, m, Exhausted(pre))
  {
    hide KeyLess, IsChosen, LastMarker;
    ExhaustedMore(pre, s);
    if OnMarker(s) {
      NextMarker(pre, s);
    } else if Exhausted(pre) {
      if s != [] {
        NextFirst(pre, s);
      }
    } else {
      NextBehind(pre, s, m);
    }
  }

  lemma {:induction false} ExhaustedMore(pre: seq<seq<Entry>>, s: seq<Entry>)
    ensures Exhausted(pre + [s]) <==> Exhausted(pre) && s == []
  {
    var all := pre + [s];
    assert all[|pre|] == s;
    forall i | 0 <= i < |pre| ensures all[i] == pre[i] {}
    if Exhausted(all) {
      forall i | 0 <= i < |pre| ensures pre[i] == [] {
        assert all[i] == [];
      }
    }
  }

  lemma {:induction false} NextMarker(pre: seq<seq<Entry>>, s: seq<Entry>)
    requires OnMarker(s)
    ensures IsChosen(pre + [s], |pre|)
  {
    hide LastMarker;
    var all := pre + [s];
    LastMarkerIs(all, |pre|);
    assert all[|pre| + 1..] == [];
  }

  lemma {:induction false} SameLast(pre: seq<seq<Entry>>, s: seq<Entry>)
    requires !OnMarker(s)
    ensures LastMarker(pre + [s]) == LastMarker(pre)
  {
    assert (pre + [s])[..|pre|] == pre;
  }

  lemma {:induction false} SliceMore(pre: seq<seq<Entry>>, s: seq<Entry>, n: nat)
    requires n <= |pre|
    ensures (pre + [s])[n..] == pre[n..] + [s]
  {
  }

  /** The first child that has something. */
  lemma {:induction false} NextFirst(pre: seq<seq<Entry>>, s: seq<Entry>)
    requires Exhausted(pre) && !OnMarker(s) && s != []
    ensures IsChosen(pre + [s], |pre|)
  {
    hide LastMarker, IsFront, Exhausted;
    SameLast(pre, s);
    NoMarkerYet(pre);
    SliceMore(pre, s, 0);
    assert pre[0..] == pre;
    ExtendFront(pre, s, 0);
    ExhaustedMore(pre, s);
  }

  lemma NoMarkerYet(pre: seq<seq<Entry>>)
    requires Exhausted(pre)
    ensures LastMarker(pre) == -1
  {
  }

  /** A proper key among the children behind the last marker. */
  lemma {:induction false} NextBehind(pre: seq<seq<Entry>>, s: seq<Entry>, m: nat)
    requires !OnMarker(s) && IsChosen(pre, m) && m < |pre| && pre[m] != []
    ensures var behind := s == [] || (pre[m][0].key != [] && !KeyLess(s[0].key, pre[m][0].key));
            IsChosen(pre + [s], if behind then m else |pre|)
  {
    hide LastMarker, KeyLess, IsFront, Exhausted, OnMarker;
    LastMarkerRange(pre);
    var n := LastMarker(pre) + 1;
    if Exhausted(pre[n..]) {
      MarkerKey(pre[m]);
      if s != [] {
        NextAfterMarker(pre, s, n);
      } else {
        StillMarker(pre, s, n);
      }
    } else {
      ProperKey(pre[m]);
      NextAtFront(pre, s, m, n);
    }
  }

  lemma MarkerKey(s: seq<Entry>)
    requires OnMarker(s)
    ensures s != [] && s[0].key == []
  {
  }

  lemma ProperKey(s: seq<Entry>)
    requires !OnMarker(s) && s != []
    ensures s[0].key != []
  {
  }

  /** Behind a lone marker any child is the first. */
  lemma {:induction false} NextAfterMarker(pre: seq<seq<Entry>>, s: seq<Entry>, n: nat)
    requires !OnMarker(s) && s != [] && n == LastMarker(pre) + 1 <= |pre| && Exhausted(pre[n..])
    ensures IsChosen(pre + [s], |pre|)
  {
    hide LastMarker, IsFront, Exhausted;
    SameLast(pre, s);
    SliceMore(pre, s, n);
    ExhaustedMore(pre[n..], s);
    ExtendFront(pre[n..], s, 0);
  }

  lemma {:induction false} StillMarker(pre: seq<seq<Entry>>, s: seq<Entry>, n: nat)
    requires s == [] && n == LastMarker(pre) + 1 <= |pre| && Exhausted(pre[n..]) && n > 0
    ensures IsChosen(pre + [s], n - 1)
  {
    hide LastMarker, IsFront, Exhausted;
    SameLast(pre, s);
    SliceMore(pre, s, n);
    ExhaustedMore(pre[n..], s);
  }

  lemma {:induction false} NextAtFront(pre: seq<seq<Entry>>, s: seq<Entry>, m: nat, n: nat)
    requires !OnMarker(s) && n == LastMarker(pre) + 1 <= m < |pre| && pre[m] != []
    requires !Exhausted(pre[n..]) && IsFront(pre[n..], m - n)
    ensures IsChosen(pre + [s], if s != [] && KeyLess(s[0].key, pre[m][0].key) then |pre| else m)
  {
    hide LastMarker, IsFront, Exhausted, KeyLess;
    SameLast(pre, s);
    SliceMore(pre, s, n);
    ExhaustedMore(pre[n..], s);
    assert pre[n..][m - n] == pre[m];
    if s == [] {
      ExtendEmpty(pre[n..], s, m - n);
    } else {
      ExtendFront(pre[n..], s, m - n);
    }
  }

  lemma {:induction false} ExtendEmpty(pre: seq<seq<Entry>>, s: seq<Entry>, m: nat)
    requires s == [] && IsFront(pre, m)
    ensures IsFront(pre + [s], m)
  {
    hide KeyLess;
    var all := pre + [s];
    forall j | 0 <= j < |all| && all[j] != [] ensures j < |pre| && all[j] == pre[j] {}
  }

  /** How the front moves when one more non-empty stream is looked at. */
  lemma {:induction false} ExtendFront(pre: seq<seq<Entry>>, s: seq<Entry>, m: nat)
    requires s != []
    ensures Exhausted(pre) ==> IsFront(pre + [s], |pre|)
    ensures IsFront(pre, m) ==> IsFront(pre + [s], if KeyLess(s[0].key, pre[m][0].key) then |pre| else m)
  {
    hide KeyLess;
    var rank := KeyOrder();
    var all := pre + [s];
    KeyTrichotomy(s[0].key, s[0].key);
    forall j | 0 <= j < |pre| ensures all[j] == pre[j] {}
    if IsFront(pre, m) && KeyLess(s[0].key, pre[m][0].key) {
      forall j | 0 <= j < |pre| && all[j] != []
        ensures !KeyLess(all[j][0].key, s[0].key) && all[j][0].key != s[0].key
      {
        assert !KeyLess(pre[j][0].key, pre[m][0].key);
      }
    }
  }
}
