/** Iterators over iterators: the two-way merge used by scans and compaction. */
module MergeIterators {
  import opened Keys
  import opened Entries
  import opened Streams
  import opened HeapIterators
  import opened SstIterators

  /** The iterators a merge can stand on, called through the common interface. */
  datatype BaseIterator = Heap(h: HeapIterator) | Concact(c: ConcactIterator) {

    ghost function Obj(): object {
      match this
      case Heap(h) => h
      case Concact(c) => c
    }

    ghost function Repr(): set<object>
      reads Obj()
    {
      match this
      case Heap(h) => {h}
      case Concact(c) => c.repr
    }

    ghost predicate Valid()
      reads Obj(), Repr()
      ensures Valid() ==> Obj() in Repr()
    {
      match this
      case Heap(h) => h.Valid()
      case Concact(c) => c.Valid()
    }

    /** Everything still to come, the current entry first. */
    ghost function Rest(): seq<Entry>
      requires Valid()
      reads Obj(), Repr()
    {
      match this
      case Heap(h) => h.Rest()
      case Concact(c) => c.Rest()
    }

    predicate IsEnd()
      requires Valid()
      reads Obj(), Repr()
    {
      match this
      case Heap(h) => h.IsEnd()
      case Concact(c) => c.IsEnd()
    }

    predicate IsValid()
      requires Valid()
      reads Obj(), Repr()
    {
      match this
      case Heap(h) => !h.IsEnd()
      case Concact(c) => c.IsValid()
    }

    function TrancId(): nat
      requires Valid()
      reads Obj(), Repr()
    {
      match this
      case Heap(h) => h.TrancId()
      case Concact(c) => c.TrancId()
    }

    function MaxTid(): nat
      reads Obj(), Repr()
    {
      match this
      case Heap(h) => h.maxTid
      case Concact(c) => c.maxTid
    }

    function KeepAll(): bool
      reads Obj(), Repr()
    {
      match this
      case Heap(h) => h.keepAll
      case Concact(c) => c.keepAll
    }

    /** Ends when nothing is left, and reports the id of its current entry when it keeps all
        versions, otherwise its own bound. */
    lemma Interface()
      requires Valid()
      ensures IsEnd() <==> Rest() == []
      ensures IsValid() <==> Rest() != []
      ensures KeepAll() && Rest() != [] ==> TrancId() == Rest()[0].tid
      ensures !KeepAll() || Rest() == [] ==> TrancId() == MaxTid() || TrancId() == 0
      ensures !KeepAll() ==> TrancId() == MaxTid()
    {
      match this
      case Heap(h) =>
      case Concact(c) => c.EndIffDone();
    }

    method Next()
      requires Valid()
      modifies Repr()
      ensures Valid() && fresh(Repr() - old(Repr()))
      ensures MaxTid() == old(MaxTid()) && KeepAll() == old(KeepAll())
      ensures old(Rest()) != [] ==> Rest() == old(Rest())[1..]
    {
      hide HeapScan, ChainScan, BlockScan, View;
      match this
      case Heap(h) => h.Next();
      case Concact(c) => c.Next();
    }

    /** `operator*`. */
    function Current(): (e: Entry)
      requires Valid() && Rest() != []
      reads Obj(), Repr()
      ensures e == Rest()[0]
    {
      Interface();
      match this
      case Heap(h) => h.Top()
      case Concact(c) => c.Current()
    }
  }

  // ---- two streams ----------------------------------------------------------------------------

  function Chooses(x: seq<Entry>, y: seq<Entry>, keepAll: bool): bool {
    if x == [] then false
    else if y == [] then true
    else if x[0].key != y[0].key then KeyLess(x[0].key, y[0].key)
    else if keepAll then x[0].tid > y[0].tid
    else true
  }

  /** What the merge of two streams is to yield. */
  function Merged(x: seq<Entry>, y: seq<Entry>, t: nat, keepAll: bool): seq<Entry> {
    if keepAll then MergeAll(AllVisible(x, t), AllVisible(y, t)) else Override(x, y)
  }

  /** Both heads visible; in query mode they carry different keys. */
  predicate HeadsReady(x: seq<Entry>, y: seq<Entry>, t: nat, keepAll: bool) {
    if keepAll then (x != [] ==> Visible(x[0], t)) && (y != [] ==> Visible(y[0], t))
    else x != [] && y != [] ==> x[0].key != y[0].key
  }

  /** With ready heads the chosen head comes first and the rest is the merge without it. */
  lemma {:induction false} MergedStep(x: seq<Entry>, y: seq<Entry>, t: nat, keepAll: bool)
    requires HeadsReady(x, y, t, keepAll) && (x != [] || y != [])
    ensures var m := Merged(x, y, t, keepAll);
            if Chooses(x, y, keepAll) then m == [x[0]] + Merged(x[1..], y, t, keepAll)
            else y != [] && m == [y[0]] + Merged(x, y[1..], t, keepAll)
  {
    hide KeyLess;
    if keepAll {
      hide MergeAll;
      var vx, vy := AllVisible(x, t), AllVisible(y, t);
      assert x != [] ==> vx == [x[0]] + AllVisible(x[1..], t) && vx[1..] == AllVisible(x[1..], t);
      assert y != [] ==> vy == [y[0]] + AllVisible(y[1..], t) && vy[1..] == AllVisible(y[1..], t);
      MergeAllStep(vx, vy);
    } else {
      assert x != [] ==> x == [x[0]] + x[1..];
      assert y != [] ==> y == [y[0]] + y[1..];
    }
  }

  lemma {:induction false} MergeAllStep(x: seq<Entry>, y: seq<Entry>)
    requires x != [] || y != []
    ensures if Chooses(x, y, true) then MergeAll(x, y) == [x[0]] + MergeAll(x[1..], y)
            else y != [] && MergeAll(x, y) == [y[0]] + MergeAll(x, y[1..])
  {
    assert x != [] ==> x == [x[0]] + x[1..];
    assert y != [] ==> y == [y[0]] + y[1..];
  }

  class TwoMergeIterator {
    const a: BaseIterator
    const b: BaseIterator
    const maxTid: nat
    const keepAll: bool
    var chooseA: bool

    ghost function Repr(): set<object>
      reads a.Obj(), b.Obj()
    {
      {this} + a.Repr() + b.Repr()
    }

    /** What holds throughout: the children share nothing, run in the same mode, see no further
        than the merge, and in query mode carry every key once. */
    ghost predicate Base()
      reads a.Obj(), b.Obj(), a.Repr(), b.Repr()
    {
      && a.Obj() in a.Repr() && b.Obj() in b.Repr()
      && a.Repr() !! b.Repr() && this !in a.Repr() + b.Repr()
      && a.Valid() && b.Valid()
      && (a.KeepAll() == keepAll || a.Rest() == []) && (b.KeepAll() == keepAll || b.Rest() == [])
      && (maxTid != 0 ==> a.MaxTid() <= maxTid && b.MaxTid() <= maxTid)
      && (!keepAll ==> StrictKeys(a.Rest()) && StrictKeys(b.Rest()))
    }

    ghost predicate Valid()
      reads this, a.Obj(), b.Obj(), a.Repr(), b.Repr()
      ensures Valid() ==> Base()
    {
      Base() && HeadsReady(a.Rest(), b.Rest(), maxTid, keepAll) && chooseA == Chooses(a.Rest(), b.Rest(), keepAll)
    }

    ghost function Rest(): seq<Entry>
      requires Base()
      reads this, a.Obj(), b.Obj(), a.Repr(), b.Repr()
    {
      Merged(a.Rest(), b.Rest(), maxTid, keepAll)
    }

    constructor (ia: BaseIterator, ib: BaseIterator, t: nat, keep: bool)
      requires ia.Repr() !! ib.Repr() && ia.Valid() && ib.Valid()
      requires (ia.KeepAll() == keep || ia.Rest() == []) && (ib.KeepAll() == keep || ib.Rest() == [])
      requires t != 0 ==> ia.MaxTid() <= t && ib.MaxTid() <= t
      requires !keep ==> StrictKeys(ia.Rest()) && StrictKeys(ib.Rest())
      modifies ia.Repr(), ib.Repr()
      ensures Valid() && a == ia && b == ib && maxTid == t && keepAll == keep
      ensures fresh(Repr() - old(ia.Repr()) - old(ib.Repr()))
      ensures Rest() == Merged(old(ia.Rest()), old(ib.Rest()), t, keep)
    {
      hide Merged, StrictKeys, BaseIterator.Rest;
      a, b, maxTid, keepAll, chooseA := ia, ib, t, keep, false;
      new;
      Prepare();
    }

    method IsEnd() returns (done: bool)
      requires Valid()
      ensures Valid() && Repr() == old(Repr()) && Rest() == old(Rest())
      ensures done <==> Rest() == []
    {
      hide StrictKeys, Merged, BaseIterator.Rest;
      a.Interface();
      b.Interface();
      MergedEmpty(maxTid, keepAll);
      assert a.Rest() != [] || b.Rest() != [] ==> Rest() != [] by {
        if a.Rest() != [] || b.Rest() != [] {
          MergedStep(a.Rest(), b.Rest(), maxTid, keepAll);
        }
      }
      done := a.IsEnd() && b.IsEnd();
    }

    /** Skips what is invisible, skips the key of `b` that `a` hides, and chooses a side. */
    method Prepare()
      requires Base()
      modifies Repr()
      ensures Valid() && Rest() == old(Rest()) && fresh(Repr() - old(Repr()))
    {
      hide Merged, StrictKeys, BaseIterator.Rest;
      SkipByTrancId();
      SkipB();
      chooseA := ChooseA();
    }

    method SkipByTrancId()
      requires Base()
      modifies a.Repr(), b.Repr()
      ensures Base() && fresh(Repr() - old(Repr())) && Rest() == old(Rest())
      ensures keepAll ==> HeadsReady(a.Rest(), b.Rest(), maxTid, true)
    {
      hide StrictKeys, MergeAll, AllVisible, Override, BaseIterator.Rest;
      if maxTid == 0 {
        return;
      }
      SkipChild(a, maxTid);
      SkipChild(b, maxTid);
    }

    /** One step of `b` is enough: its keys are all different. */
    method SkipB()
      requires Base() && (keepAll ==> HeadsReady(a.Rest(), b.Rest(), maxTid, true))
      modifies a.Repr(), b.Repr()
      ensures Base() && fresh(Repr() - old(Repr())) && Rest() == old(Rest())
      ensures HeadsReady(a.Rest(), b.Rest(), maxTid, keepAll)
    {
      hide StrictKeys, Merged, BaseIterator.Rest, BaseIterator.Current;
      if keepAll {
        return;
      }
      a.Interface();
      b.Interface();
      if !a.IsEnd() && !b.IsEnd() && a.Current().key == b.Current().key {
        HiddenKey(a.Rest(), b.Rest(), maxTid);
        b.Next();
      }
    }

    /** `choose_it_a` only looks. */
    predicate ChooseA()
      requires Base()
      reads this, a.Obj(), b.Obj(), a.Repr(), b.Repr()
      ensures ChooseA() == Chooses(a.Rest(), b.Rest(), keepAll)
    {
      a.Interface();
      b.Interface();
      if a.IsEnd() then false
      else if b.IsEnd() then true
      else if a.Current().key != b.Current().key then KeyLess(a.Current().key, b.Current().key)
      else if keepAll then a.TrancId() > b.TrancId()
      else true
    }

    method Next()
      requires Valid() && Rest() != []
      modifies Repr()
      ensures Valid() && fresh(Repr() - old(Repr())) && Rest() == old(Rest())[1..]
    {
      hide StrictKeys, Merged, KeyLess, BaseIterator.Rest;
      ghost var x, y := a.Rest(), b.Rest();
      assert x != [] || y != [] by { MergedEmpty(maxTid, keepAll); }
      MergedStep(x, y, maxTid, keepAll);
      if chooseA {
        TailStrict(x);
        a.Next();
      } else {
        TailStrict(y);
        b.Next();
      }
      Prepare();
    }

    /** `operator*` with the id a compaction reads beside it. */
    function Current(): (e: Entry)
      requires Valid() && Rest() != []
      reads this, a.Obj(), b.Obj(), a.Repr(), b.Repr()
      ensures e == Rest()[0]
    {
      MergedEmpty(maxTid, keepAll);
      MergedStep(a.Rest(), b.Rest(), maxTid, keepAll);
      if chooseA then a.Current() else b.Current()
    }
  }

  method SkipChild(it: BaseIterator, t: nat)
    requires it.Valid() && t != 0 && it.MaxTid() <= t
    modifies it.Repr()
    ensures it.Valid() && fresh(it.Repr() - old(it.Repr()))
    ensures it.MaxTid() == old(it.MaxTid()) && it.KeepAll() == old(it.KeepAll())
    ensures AllVisible(it.Rest(), t) == AllVisible(old(it.Rest()), t)
    ensures it.KeepAll() && it.Rest() != [] ==> Visible(it.Rest()[0], t)
    ensures !it.KeepAll() ==> it.Rest() == old(it.Rest())
    ensures |it.Rest()| <= |old(it.Rest())|
  {
    it.Interface();
    while it.TrancId() > t
      invariant it.Valid() && fresh(it.Repr() - old(it.Repr()))
      invariant it.MaxTid() == old(it.MaxTid()) && it.KeepAll() == old(it.KeepAll())
      invariant AllVisible(it.Rest(), t) == AllVisible(old(it.Rest()), t)
      invariant !it.KeepAll() ==> it.Rest() == old(it.Rest())
      invariant |it.Rest()| <= |old(it.Rest())|
      decreases |it.Rest()|
    {
      it.Interface();
      it.Next();
      it.Interface();
    }
    it.Interface();
  }

  lemma MergedEmpty(t: nat, keepAll: bool)
    ensures Merged([], [], t, keepAll) == []
  {
  }

  lemma {:induction false} HiddenKey(x: seq<Entry>, y: seq<Entry>, t: nat)
    requires StrictKeys(y) && x != [] && y != [] && x[0].key == y[0].key
    ensures StrictKeys(y[1..]) && HeadsReady(x, y[1..], t, false)
    ensures Merged(x, y[1..], t, false) == Merged(x, y, t, false)
  {
    if y[1..] != [] {
      assert y[1..][0] == y[1];
      KeyTrichotomy(y[0].key, y[1].key);
    }
    StrictTail(y);
  }

  lemma {:induction false} TailStrict(s: seq<Entry>)
    ensures StrictKeys(s) && s != [] ==> StrictKeys(s[1..])
  {
    if StrictKeys(s) && s != [] {
      StrictTail(s);
    }
  }
}
