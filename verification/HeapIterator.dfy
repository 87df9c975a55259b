/** The heap iterator: a priority queue of versions from several tables or SSTs. */
module HeapIterators {
  import opened Keys
  import opened Entries
  import opened Streams

  /** A version and where it comes from: `idx` is the source (smaller is newer), `level` its level. */
  datatype SearchItem = SearchItem(entry: Entry, idx: int, level: int)

  // ---- the comparison -----------------------------------------------------------------------------

  /** `operator>` as written. */
  predicate Greater(a: SearchItem, b: SearchItem) {
    if a.entry.key != b.entry.key then KeyLess(b.entry.key, a.entry.key)
    else if a.entry.tid < b.entry.tid then true
    else if a.level < b.level then true
    else a.idx > b.idx
  }

  /** The order it is meant to be: key ascending, then id descending, then source. */
  predicate After(a: SearchItem, b: SearchItem) {
    if a.entry.key != b.entry.key then KeyLess(b.entry.key, a.entry.key)
    else if a.entry.tid != b.entry.tid then a.entry.tid < b.entry.tid
    else a.idx > b.idx
  }

  /** Age and source agree: of two versions of a key the one from the newer source is not older. */
  predicate Agree(a: SearchItem, b: SearchItem) {
    a.entry.key == b.entry.key ==>
      && (a.idx < b.idx ==> a.entry.tid >= b.entry.tid)
      && (b.idx < a.idx ==> b.entry.tid >= a.entry.tid)
  }

  /** Within one level the comparison is asymmetric exactly where age and source agree, and
      there it is the intended order. */
  lemma {:induction false} GreaterSoundIff(a: SearchItem, b: SearchItem)
    requires a.level == b.level
    ensures !(Greater(a, b) && Greater(b, a)) <==> Agree(a, b)
    ensures Agree(a, b) ==> (Greater(a, b) <==> After(a, b))
  {
    KeyTrichotomy(a.entry.key, b.entry.key);
  }

  /** A newer version from an older source: each item is greater than the other. */
  lemma {:induction false} GreaterBothWays()
    ensures var a, b := SearchItem(Entry([1], [20], 2), 5, 0), SearchItem(Entry([1], [10], 1), 0, 0);
            Greater(a, b) && Greater(b, a) && !Agree(a, b)
  {
  }

  /** The intended order is a strict weak order; two items tie only when key, id and source agree. */
  lemma {:induction false} AfterIsStrictWeak(a: SearchItem, b: SearchItem, c: SearchItem)
    ensures !After(a, a) && (After(a, b) ==> !After(b, a))
    ensures After(a, b) && After(b, c) ==> After(a, c)
    ensures !After(a, b) && !After(b, c) ==> !After(a, c)
    ensures !After(a, b) && !After(b, a) <==>
            a.entry.key == b.entry.key && a.entry.tid == b.entry.tid && a.idx == b.idx
  {
    hide KeyLess;
    var rank := KeyOrder();
    KeyTrichotomy(a.entry.key, b.entry.key);
    KeyTrichotomy(b.entry.key, c.entry.key);
    KeyTrichotomy(a.entry.key, c.entry.key);
  }

  // ---- the queue, kept as the list in which items are popped --------------------------------------

  ghost predicate Coherent(q: seq<SearchItem>) {
    forall i, j :: 0 <= i < |q| && 0 <= j < |q| ==> q[i].level == q[j].level && Agree(q[i], q[j])
  }

  ghost predicate PopOrder(q: seq<SearchItem>) {
    forall i, j :: 0 <= i < j < |q| ==> !After(q[i], q[j])
  }

  function Push(q: seq<SearchItem>, x: SearchItem): seq<SearchItem> {
    if q == [] then [x]
    else if Greater(q[0], x) then [x] + q
    else [q[0]] + Push(q[1..], x)
  }

  function PushAll(v: seq<SearchItem>): seq<SearchItem> {
    if v == [] then [] else Push(PushAll(v[..|v| - 1]), v[|v| - 1])
  }

  lemma {:induction false} PushKeeps(q: seq<SearchItem>, x: SearchItem)
    ensures multiset(Push(q, x)) == multiset(q) + multiset{x}
  {
    if q != [] && !Greater(q[0], x) {
      PushKeeps(q[1..], x);
      assert q == [q[0]] + q[1..];
    }
  }

  lemma {:induction false} PushOrders(q: seq<SearchItem>, x: SearchItem)
    requires PopOrder(q) && forall i :: 0 <= i < |q| ==> q[i].level == x.level && Agree(q[i], x)
    ensures PopOrder(Push(q, x))
  {
    hide After, Greater, Agree;
    if q != [] {
      GreaterSoundIff(q[0], x);
      var r := Push(q[1..], x);
      if Greater(q[0], x) {
        forall j | 0 <= j < |q| ensures !After(x, q[j]) {
          AfterIsStrictWeak(q[0], x, x);
          AfterIsStrictWeak(x, q[0], q[j]);
        }
      } else {
        PushOrders(q[1..], x);
        PushKeeps(q[1..], x);
        forall j | 0 <= j < |r| ensures !After(q[0], r[j]) {
          assert r[j] in multiset(r);
          if r[j] != x {
            assert r[j] in q[1..];
            var m :| 0 <= m < |q[1..]| && q[1..][m] == r[j];
            assert q[m + 1] == r[j];
          }
        }
      }
    }
  }

  lemma {:induction false} PushAllMeaning(v: seq<SearchItem>)
    requires Coherent(v)
    ensures PopOrder(PushAll(v)) && multiset(PushAll(v)) == multiset(v)
  {
    hide After, Agree, Push, PopOrder;
    if v == [] {
      NothingToPop();
    } else {
      var init, x := v[..|v| - 1], v[|v| - 1];
      assert v == init + [x];
      PushAllMeaning(init);
      var q := PushAll(init);
      PushKeeps(q, x);
      CoherentWith(init, x, q);
      PushOrders(q, x);
    }
  }

  lemma NothingToPop()
    ensures PopOrder([])
  {
  }

  lemma {:induction false} CoherentWith(init: seq<SearchItem>, x: SearchItem, q: seq<SearchItem>)
    requires Coherent(init + [x]) && multiset(q) == multiset(init)
    ensures forall i :: 0 <= i < |q| ==> q[i].level == x.level && Agree(q[i], x)
  {
    hide Agree;
    var v := init + [x];
    forall i | 0 <= i < |q| ensures q[i].level == x.level && Agree(q[i], x) {
      assert q[i] in multiset(init);
      var m :| 0 <= m < |init| && init[m] == q[i];
      assert v[m] == q[i] && v[|init|] == x;
    }
  }

  function EntriesOf(q: seq<SearchItem>): seq<Entry> {
    if q == [] then [] else [q[0].entry] + EntriesOf(q[1..])
  }

  lemma {:induction false} EntriesOfAt(q: seq<SearchItem>)
    ensures |EntriesOf(q)| == |q| && forall i :: 0 <= i < |q| ==> EntriesOf(q)[i] == q[i].entry
  {
    if q != [] {
      EntriesOfAt(q[1..]);
    }
  }

  lemma {:induction false} EntriesOfConcat(a: seq<SearchItem>, b: seq<SearchItem>)
    ensures EntriesOf(a + b) == EntriesOf(a) + EntriesOf(b)
  {
    if a == [] {
      assert a + b == b;
    } else {
      EntriesOfConcat(a[1..], b);
      assert (a + b)[1..] == a[1..] + b;
    }
  }

  /** Popping goes through the keys in ascending order and through each key newest first. */
  lemma {:induction false} PopOrderSorts(q: seq<SearchItem>)
    requires PopOrder(q)
    ensures KeySorted(EntriesOf(q))
    ensures forall i, j :: 0 <= i < j < |q| && q[i].entry.key == q[j].entry.key ==> q[i].entry.tid >= q[j].entry.tid
  {
    hide EntriesOf, KeyLess;
    EntriesOfAt(q);
    var s := EntriesOf(q);
    forall i, j | 0 <= i < j < |s| ensures !KeyLess(s[j].key, s[i].key) {
      assert !After(q[i], q[j]);
      KeyTrichotomy(s[i].key, s[j].key);
    }
    forall i, j | 0 <= i < j < |q| && q[i].entry.key == q[j].entry.key ensures q[i].entry.tid >= q[j].entry.tid {
      assert !After(q[i], q[j]);
    }
  }

  /** With no version twice the popped entries are strictly in node order. */
  lemma {:induction false} PopOrderSortsStrictly(q: seq<SearchItem>)
    requires PopOrder(q)
    requires forall i, j :: 0 <= i < j < |q| ==> q[i].entry.key != q[j].entry.key || q[i].entry.tid != q[j].entry.tid
    ensures EntrySorted(EntriesOf(q))
  {
    hide EntriesOf, KeyLess;
    EntriesOfAt(q);
    var s := EntriesOf(q);
    forall i, j | 0 <= i < j < |s| ensures EntryLess(s[i], s[j]) {
      assert !After(q[i], q[j]);
      KeyTrichotomy(s[i].key, s[j].key);
    }
  }

  // ---- what the iterator does to the queue --------------------------------------------------------

  predicate TopLegal(q: seq<Entry>, t: nat, skipDelete: bool) {
    q == [] || (Visible(q[0], t) && (skipDelete ==> q[0].value != []))
  }

  function DropInvisible(q: seq<Entry>, t: nat): (r: seq<Entry>)
    ensures |r| <= |q|
    ensures q != [] && !Visible(q[0], t) ==> |r| < |q|
  {
    if q != [] && !Visible(q[0], t) then DropInvisible(q[1..], t) else q
  }

  /** One pop, or one pop of a whole key. */
  function AfterTop(q: seq<Entry>, keepAll: bool): (r: seq<Entry>)
    requires q != []
    ensures |r| < |q|
  {
    if keepAll then q[1..] else DropKey(q[1..], q[0].key)
  }

  function DropMarks(q: seq<Entry>, keepAll: bool): (r: seq<Entry>)
    ensures |r| <= |q|
    ensures q != [] && q[0].value == [] ==> |r| < |q|
    decreases |q|
  {
    if q != [] && q[0].value == [] then DropMarks(AfterTop(q, keepAll), keepAll) else q
  }

  /** One round of the loop that looks for a legal top. */
  function Round(q: seq<Entry>, t: nat, skipDelete: bool, keepAll: bool): (r: seq<Entry>)
    ensures |r| <= |q|
    ensures !TopLegal(q, t, skipDelete) ==> |r| < |q|
  {
    var v := DropInvisible(q, t);
    if skipDelete then DropMarks(v, keepAll) else v
  }

  function Settled(q: seq<Entry>, t: nat, skipDelete: bool, keepAll: bool): (r: seq<Entry>)
    ensures |r| <= |q| && TopLegal(r, t, skipDelete)
    decreases |q|
  {
    if TopLegal(q, t, skipDelete) then q else Settled(Round(q, t, skipDelete, keepAll), t, skipDelete, keepAll)
  }

  /** Everything the iterator yields from a queue with a legal top. */
  function HeapScan(q: seq<Entry>, t: nat, skipDelete: bool, keepAll: bool): seq<Entry>
    decreases |q|
  {
    if q == [] then []
    else [q[0]] + HeapScan(Settled(AfterTop(q, keepAll), t, skipDelete, keepAll), t, skipDelete, keepAll)
  }

  /** What it should yield: the first version of every key (or all), without deletions if asked. */
  function HeapOut(q: seq<Entry>, skipDelete: bool, keepAll: bool): seq<Entry> {
    var d := if keepAll then q else FirstPerKey(q);
    if skipDelete then Live(d) else d
  }

  ghost predicate Prefiltered(q: seq<Entry>, t: nat) {
    forall i :: 0 <= i < |q| ==> Visible(q[i], t)
  }

  lemma {:induction false} AfterTopPrefiltered(q: seq<Entry>, t: nat, keepAll: bool)
    requires q != [] && Prefiltered(q, t)
    ensures Prefiltered(AfterTop(q, keepAll), t)
  {
    DropKeySuffix(q[1..], q[0].key);
  }

  lemma {:induction false} HeapOutStep(q: seq<Entry>, skipDelete: bool, keepAll: bool)
    requires q != []
    ensures HeapOut(q, skipDelete, keepAll) ==
            var rest := HeapOut(AfterTop(q, keepAll), skipDelete, keepAll);
            if skipDelete && q[0].value == [] then rest else [q[0]] + rest
  {
    hide DropKey;
    assert q == [q[0]] + q[1..];
    if !keepAll {
      var f := FirstPerKey(DropKey(q[1..], q[0].key));
      assert ([q[0]] + f)[1..] == f;
    }
  }

  /** Marks dropped inside the loop or one key at a time: the queue settles in the same place. */
  lemma {:induction false} SettledPastMark(q: seq<Entry>, t: nat, keepAll: bool)
    requires q != [] && Prefiltered(q, t) && q[0].value == []
    ensures Settled(q, t, true, keepAll) == Settled(AfterTop(q, keepAll), t, true, keepAll)
    decreases |q|
  {
    hide DropKey;
    var n := AfterTop(q, keepAll);
    AfterTopPrefiltered(q, t, keepAll);
    assert Round(q, t, true, keepAll) == DropMarks(n, keepAll);
    if n != [] && n[0].value == [] {
      SettledPastMark(n, t, keepAll);
      assert Round(n, t, true, keepAll) == DropMarks(n, keepAll);
    } else {
      assert DropMarks(n, keepAll) == n;
    }
  }

  /** On visible items the iterator yields exactly what it should, in both modes. */
  lemma {:induction false} HeapScanMeaning(q: seq<Entry>, t: nat, skipDelete: bool, keepAll: bool)
    requires Prefiltered(q, t)
    ensures HeapScan(Settled(q, t, skipDelete, keepAll), t, skipDelete, keepAll) == HeapOut(q, skipDelete, keepAll)
    decreases |q|
  {
    hide DropKey, AfterTop, DropMarks, Round, HeapOut;
    if q == [] {
      assert HeapOut([], skipDelete, keepAll) == [] by { HeapOutEmpty(skipDelete, keepAll); }
    } else {
      AfterTopPrefiltered(q, t, keepAll);
      HeapScanMeaning(AfterTop(q, keepAll), t, skipDelete, keepAll);
      HeapOutStep(q, skipDelete, keepAll);
      if skipDelete && q[0].value == [] {
        SettledPastMark(q, t, keepAll);
      }
    }
  }

  lemma HeapOutEmpty(skipDelete: bool, keepAll: bool)
    ensures HeapOut([], skipDelete, keepAll) == []
  {
  }

  /** Nothing is lost or invented between the items handed over and the queue. */
  lemma {:induction false} PushAllEntries(v: seq<SearchItem>)
    ensures multiset(EntriesOf(PushAll(v))) == multiset(EntriesOf(v))
  {
    hide Push, EntriesOf;
    if v != [] {
      var init, x := v[..|v| - 1], v[|v| - 1];
      PushAllEntries(init);
      PushOneMore(PushAll(init), init, x);
      assert v == init + [x];
    }
  }

  lemma {:induction false} PushOneMore(q: seq<SearchItem>, v: seq<SearchItem>, x: SearchItem)
    requires multiset(EntriesOf(q)) == multiset(EntriesOf(v))
    ensures multiset(EntriesOf(Push(q, x))) == multiset(EntriesOf(v + [x]))
  {
    hide Push, EntriesOf;
    PushEntries(q, x);
    EntriesOfConcat(v, [x]);
    EntriesOfAt([x]);
    assert EntriesOf([x]) == [x.entry];
  }

  lemma {:induction false} PushEntries(q: seq<SearchItem>, x: SearchItem)
    ensures multiset(EntriesOf(Push(q, x))) == multiset(EntriesOf(q)) + multiset{x.entry}
  {
    if q == [] {
      EntriesOfAt([x]);
    } else if Greater(q[0], x) {
      EntriesOfCons(x, q);
    } else {
      PushEntries(q[1..], x);
      EntriesOfCons(q[0], Push(q[1..], x));
      assert EntriesOf(q) == [q[0].entry] + EntriesOf(q[1..]);
    }
  }

  lemma {:induction false} EntriesOfCons(x: SearchItem, q: seq<SearchItem>)
    ensures EntriesOf([x] + q) == [x.entry] + EntriesOf(q)
  {
    assert ([x] + q)[1..] == q;
  }

  class HeapIterator {
    /** The queue, in pop order. */
    var items: seq<SearchItem>
    var maxTid: nat
    var skipDelete: bool
    var keepAll: bool

    ghost function Queue(): seq<Entry>
      reads this
    {
      EntriesOf(items)
    }

    ghost predicate Valid()
      reads this
    {
      TopLegal(Queue(), maxTid, skipDelete)
    }

    /** Everything still to come, the current item included. */
    ghost function Rest(): seq<Entry>
      reads this
    {
      HeapScan(Queue(), maxTid, skipDelete, keepAll)
    }

    /** The empty iterator, to be filled with `Emplace`. */
    constructor Empty(skip: bool, keep: bool)
      ensures Valid() && items == [] && maxTid == 0 && skipDelete == skip && keepAll == keep
    {
      items, maxTid, skipDelete, keepAll := [], 0, skip, keep;
    }

    constructor (itemVec: seq<SearchItem>, t: nat, skip: bool, keep: bool)
      ensures Valid() && maxTid == t && skipDelete == skip && keepAll == keep
      ensures Queue() == Settled(EntriesOf(PushAll(itemVec)), t, skip, keep)
    {
      items, maxTid, skipDelete, keepAll := [], t, skip, keep;
      new;
      hide EntriesOf, Settled, Push;
      for i := 0 to |itemVec|
        invariant items == PushAll(itemVec[..i])
        invariant maxTid == t && skipDelete == skip && keepAll == keep
      {
        assert itemVec[..i + 1][..i] == itemVec[..i];
        Emplace(itemVec[i]);
      }
      assert itemVec[..|itemVec|] == itemVec;
      Settle();
    }

    method Emplace(x: SearchItem)
      modifies this`items
      ensures items == Push(old(items), x)
    {
      items := Push(items, x);
    }

    method Pop()
      requires items != []
      modifies this`items
      ensures Queue() == old(Queue())[1..] && |items| == |old(items)| - 1
    {
      items := items[1..];
    }

    /** Pops everything with key `k` from the top. */
    method PopKey(k: Key)
      modifies this`items
      ensures Queue() == DropKey(old(Queue()), k)
    {
      while items != [] && items[0].entry.key == k
        invariant DropKey(Queue(), k) == DropKey(old(Queue()), k)
        decreases |items|
      {
        Pop();
      }
    }

    method SkipByTrancId()
      modifies this`items
      ensures Queue() == DropInvisible(old(Queue()), maxTid)
    {
      if maxTid == 0 {
        return;
      }
      while items != [] && items[0].entry.tid > maxTid
        invariant DropInvisible(Queue(), maxTid) == DropInvisible(old(Queue()), maxTid)
        decreases |items|
      {
        Pop();
      }
    }

    /** The inner loop: drops deletions from the top. */
    method SkipMarks()
      modifies this`items
      ensures Queue() == DropMarks(old(Queue()), keepAll)
    {
      while items != [] && items[0].entry.value == []
        invariant DropMarks(Queue(), keepAll) == DropMarks(old(Queue()), keepAll)
        decreases |Queue()|
      {
        var delKey := items[0].entry.key;
        if !keepAll {
          PopKey(delKey);
        } else {
          Pop();
        }
      }
    }

    /** Looks for a legal top. */
    method Settle()
      modifies this`items
      ensures Queue() == Settled(old(Queue()), maxTid, skipDelete, keepAll) && Valid()
    {
      hide DropInvisible, DropMarks, EntriesOf;
      while !TopIsLegal()
        invariant Settled(Queue(), maxTid, skipDelete, keepAll) == Settled(old(Queue()), maxTid, skipDelete, keepAll)
        decreases |Queue()|
      {
        SkipByTrancId();
        if !skipDelete {
          continue;
        }
        SkipMarks();
      }
    }

    /** `top_value_legal`. */
    predicate TopIsLegal()
      reads this
      ensures TopIsLegal() <==> TopLegal(Queue(), maxTid, skipDelete)
    {
      if items == [] then true
      else if maxTid == 0 then (if skipDelete then |items[0].entry.value| > 0 else true)
      else if items[0].entry.tid <= maxTid then (if skipDelete then |items[0].entry.value| > 0 else true)
      else false
    }

    predicate IsEnd()
      reads this
    {
      items == []
    }

    method Next()
      requires Valid()
      modifies this`items
      ensures Valid() && Rest() == if old(Rest()) == [] then [] else old(Rest())[1..]
    {
      hide Settled, DropKey;
      if items == [] {
        return;
      }
      var oldKey := items[0].entry.key;
      Pop();
      if !keepAll {
        PopKey(oldKey);
      }
      Settle();
    }

    /** `operator*`; undefined on an empty queue. */
    function Top(): (e: Entry)
      requires items != []
      reads this
      ensures Rest() != [] && e == Rest()[0]
    {
      items[0].entry
    }

    function TrancId(): nat
      reads this
    {
      if keepAll && items != [] then items[0].entry.tid else maxTid
    }
  }
}
