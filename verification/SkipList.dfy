/** The skip list as it is stored: up to `maxLevel` doubly linked lists over the same nodes. */
module SkipListHeap {
  import opened Keys
  import LittleEndian
  import opened Entries
  import Spec = SkipListSpec

  class Node {
    const key: Key
    var value: Value
    const tid: nat
    var forward: seq<Node?>
    var backward: seq<Node?>
    ghost const height: nat

    constructor (k: Key, v: Value, level: nat, t: nat)
      ensures key == k && value == v && tid == t && height == level
      ensures |forward| == |backward| == level
      ensures forall l :: 0 <= l < level ==> forward[l] == null && backward[l] == null
    {
      key, value, tid, height := k, v, t, level;
      forward := seq(level, _ => null);
      backward := seq(level, _ => null);
    }

    method SetBackward(level: nat, node: Node?)
      requires level < |backward|
      modifies this`backward
      ensures backward == old(backward)[level := node]
    {
      backward := backward[level := node];
    }
  }

  // ---- which nodes take part in a level -------------------------------------------------------

  /** The nodes of `s` that take part in level `l`, in the order of `s`. */
  ghost function AtLevel(s: seq<Node>, l: nat): seq<Node> {
    if s == [] then []
    else if s[0].height > l then [s[0]] + AtLevel(s[1..], l)
    else AtLevel(s[1..], l)
  }

  lemma {:induction false} AtLevelCons(n: Node, s: seq<Node>, l: nat)
    ensures AtLevel([n] + s, l) == if n.height > l then [n] + AtLevel(s, l) else AtLevel(s, l)
  {
    assert ([n] + s)[1..] == s;
  }

  lemma {:induction false} AtLevelConcat(a: seq<Node>, b: seq<Node>, l: nat)
    ensures AtLevel(a + b, l) == AtLevel(a, l) + AtLevel(b, l)
  {
    if a == [] {
      assert a + b == b;
    } else {
      AtLevelConcat(a[1..], b, l);
      AtLevelConcatStep(a[0], a[1..], b, l);
      assert a == [a[0]] + a[1..];
    }
  }

  lemma {:induction false} AtLevelConcatStep(x: Node, t: seq<Node>, b: seq<Node>, l: nat)
    requires AtLevel(t + b, l) == AtLevel(t, l) + AtLevel(b, l)
    ensures AtLevel([x] + t + b, l) == AtLevel([x] + t, l) + AtLevel(b, l)
  {
    hide AtLevel;
    AtLevelCons(x, t, l);
    AtLevelCons(x, t + b, l);
    assert [x] + t + b == [x] + (t + b);
  }

  lemma {:induction false} AtLevelMember(s: seq<Node>, l: nat, n: Node)
    ensures n in AtLevel(s, l) <==> n in s && n.height > l
  {
    if s != [] {
      AtLevelMember(s[1..], l, n);
      assert s == [s[0]] + s[1..];
    }
  }

  ghost predicate Distinct(s: seq<Node>) {
    forall i, j :: 0 <= i < j < |s| ==> s[i] != s[j]
  }

  lemma {:induction false} AtLevelDistinct(s: seq<Node>, l: nat)
    requires Distinct(s)
    ensures Distinct(AtLevel(s, l))
  {
    if s != [] {
      AtLevelDistinct(s[1..], l);
      AtLevelMember(s[1..], l, s[0]);
      assert s[0] !in s[1..];
    }
  }

  lemma {:induction false} AllAtBottom(s: seq<Node>)
    requires forall n :: n in s ==> n.height >= 1
    ensures AtLevel(s, 0) == s
  {
    if s != [] {
      AllAtBottom(s[1..]);
    }
  }

  /** The level-`l` list of a skip list, its head included. */
  ghost function LevelList(head: Node, nodes: seq<Node>, l: nat): (list: seq<Node>)
    ensures list != [] && list[0] == head
  {
    [head] + AtLevel(nodes, l)
  }

  ghost function Last(list: seq<Node>): Node
    requires list != []
  {
    list[|list| - 1]
  }

  /** The level list over `before + after` falls into two parts without a common node. */
  lemma {:induction false} SplitLevel(head: Node, before: seq<Node>, after: seq<Node>, l: nat)
    ensures LevelList(head, before + after, l) == LevelList(head, before, l) + AtLevel(after, l)
  {
    hide AtLevel;
    AtLevelConcat(before, after, l);
  }

  lemma {:induction false} LevelDistinct(head: Node, nodes: seq<Node>, l: nat)
    requires Distinct(nodes) && head !in nodes
    ensures Distinct(LevelList(head, nodes, l))
  {
    AtLevelDistinct(nodes, l);
    AtLevelMember(nodes, l, head);
  }

  lemma {:induction false} AbsentFromLevel(head: Node, nodes: seq<Node>, l: nat, n: Node)
    requires n !in nodes && n != head
    ensures n !in LevelList(head, nodes, l)
  {
    AtLevelMember(nodes, l, n);
  }

  /** The level list once `n` stands between `before` and `after`. */
  lemma {:induction false} SplitLevelWith(head: Node, before: seq<Node>, n: Node, after: seq<Node>, l: nat)
    ensures LevelList(head, before + [n] + after, l) ==
            if n.height > l then LevelList(head, before, l) + [n] + AtLevel(after, l)
            else LevelList(head, before, l) + AtLevel(after, l)
  {
    hide AtLevel;
    assert before + [n] + after == before + ([n] + after);
    SplitLevel(head, before, [n] + after, l);
    AtLevelCons(n, after, l);
  }

  // ---- links ----------------------------------------------------------------------------------

  /** `list` is a doubly linked list at level `l` over nodes of `world`, ending in null. */
  ghost predicate Linked(list: seq<Node>, l: nat, world: set<Node>)
    reads world
  {
    && (forall i :: 0 <= i < |list| ==> list[i] in world && l < |list[i].forward| && l < |list[i].backward|)
    && (forall i {:trigger list[i].forward[l]} :: 0 <= i < |list| ==>
          list[i].forward[l] == if i + 1 < |list| then list[i + 1] else null)
    && (forall i {:trigger list[i].backward[l]} :: 1 <= i < |list| ==> list[i].backward[l] == list[i - 1])
  }

  lemma LinkedGrows(list: seq<Node>, l: nat, small: set<Node>, large: set<Node>)
    requires Linked(list, l, small) && small <= large
    ensures Linked(list, l, large)
  {
  }

  /** Between the two states the nodes of `world` changed their links at `level` at most. */
  twostate predicate OnlyLevel(world: set<Node>, level: nat)
    reads world
  {
    forall x :: x in world ==>
      && x.value == old(x.value)
      && |x.forward| == |old(x.forward)| && |x.backward| == |old(x.backward)|
      && (forall k :: 0 <= k < |x.forward| && k != level ==> x.forward[k] == old(x.forward)[k])
      && (forall k :: 0 <= k < |x.backward| && k != level ==> x.backward[k] == old(x.backward)[k])
  }

  /** The pointer surgery of an insertion at one level. */
  method LinkAfter(level: nat, n: Node, prev: Node, ghost nexts: set<Node>)
    requires n != prev && level < |n.forward| && level < |n.backward| && level < |prev.forward|
    requires prev.forward[level] != null ==> prev.forward[level] != n && level < |prev.forward[level].backward|
    requires prev.forward[level] != null ==> prev.forward[level] in nexts
    modifies n`forward, n`backward, prev`forward, nexts`backward
    ensures forall x :: x in nexts && x != old(prev.forward[level]) && x != n ==> x.backward == old(x.backward)
    ensures n.forward == old(n.forward)[level := old(prev.forward[level])]
    ensures n.backward == old(n.backward)[level := prev]
    ensures prev.forward == old(prev.forward)[level := n]
    ensures var next := old(prev.forward[level]);
            next != null ==> next.backward == old(next.backward)[level := n]
  {
    n.forward := n.forward[level := prev.forward[level]];
    prev.forward := prev.forward[level := n];
    n.SetBackward(level, prev);
    if n.forward[level] != null {
      n.forward[level].SetBackward(level, n);
    }
  }

  /** The pointer surgery of a removal at one level. */
  method UnlinkAfter(level: nat, t: Node, prev: Node, ghost nexts: set<Node>)
    requires t != prev && level < |t.forward| && level < |prev.forward|
    requires t.forward[level] != null ==> level < |t.forward[level].backward|
    requires t.forward[level] != null ==> t.forward[level] in nexts
    modifies prev`forward, nexts`backward
    ensures forall x :: x in nexts && x != old(t.forward[level]) ==> x.backward == old(x.backward)
    ensures prev.forward == old(prev.forward)[level := t.forward[level]] && t.forward == old(t.forward)
    ensures var next := t.forward[level]; next != null ==> next.backward == old(next.backward)[level := prev]
  {
    prev.forward := prev.forward[level := t.forward[level]];
    if t.forward[level] != null {
      t.forward[level].SetBackward(level, prev);
    }
  }

  /** Splices `n` into the level-`level` list between `a` and `b`. */
  method LinkAt(level: nat, n: Node, prev: Node,
                ghost a: seq<Node>, ghost b: seq<Node>, ghost world: set<Node>)
    requires a != [] && prev == Last(a) && n in world
    requires Distinct(a + b) && n !in a + b && Linked(a + b, level, world)
    requires level < |n.forward| && level < |n.backward|
    modifies world
    ensures Linked(a + [n] + b, level, world)
    ensures OnlyLevel(world, level)
  {
    ghost var o, list := a + b, a + [n] + b;
    assert o[|a| - 1] == prev && (b != [] ==> o[|a|] == b[0]);
    LinkAfter(level, n, prev, world);
    forall i | 0 <= i < |list|
      ensures list[i] in world && level < |list[i].forward| && level < |list[i].backward|
      ensures list[i].forward[level] == if i + 1 < |list| then list[i + 1] else null
      ensures i > 0 ==> list[i].backward[level] == list[i - 1]
    {
      if i < |a| - 1 {
        assert list[i] == o[i] && list[i + 1] == o[i + 1] && o[i] != prev;
      } else if i == |a| - 1 {
        assert list[i] == prev && list[i + 1] == n;
      } else if i == |a| {
        assert list[i] == n && list[i - 1] == prev;
      } else {
        assert list[i] == o[i - 1] && o[i - 1] != prev;
        assert list[i - 1] == if i == |a| + 1 then n else o[i - 2];
      }
    }
    assert Linked(list, level, world);
  }

  /** Takes `t` out of the level-`level` list between `a` and `b`. */
  method UnlinkAt(level: nat, t: Node, prev: Node,
                  ghost a: seq<Node>, ghost b: seq<Node>, ghost world: set<Node>)
    requires a != [] && prev == Last(a)
    requires Distinct(a + [t] + b) && Linked(a + [t] + b, level, world)
    modifies world
    ensures Linked(a + b, level, world)
    ensures OnlyLevel(world, level)
  {
    ghost var o, list := a + [t] + b, a + b;
    assert o[|a| - 1] == prev && o[|a|] == t && (b != [] ==> o[|a| + 1] == b[0]);
    UnlinkAfter(level, t, prev, world);
    forall i | 0 <= i < |list|
      ensures list[i] in world && level < |list[i].forward| && level < |list[i].backward|
      ensures list[i].forward[level] == if i + 1 < |list| then list[i + 1] else null
      ensures i > 0 ==> list[i].backward[level] == list[i - 1]
    {
      assert list[i] == o[if i < |a| then i else i + 1];
    }
    assert Linked(list, level, world);
  }

  /** The lists of the levels other than `level`. */
  ghost predicate LinkedExcept(lists: nat -> seq<Node>, level: nat, maxLevel: nat, world: set<Node>)
    reads world
  {
    forall k :: 0 <= k < maxLevel && k != level ==> Linked(lists(k), k, world)
  }

  /** `LinkAt`, seen from all levels. */
  method LinkKeepingOthers(level: nat, n: Node, prev: Node, ghost a: seq<Node>, ghost b: seq<Node>,
                           ghost lists: nat -> seq<Node>, ghost maxLevel: nat, ghost world: set<Node>)
    requires a != [] && prev == Last(a) && n in world
    requires Distinct(a + b) && n !in a + b && Linked(a + b, level, world)
    requires level < |n.forward| && level < |n.backward|
    requires LinkedExcept(lists, level, maxLevel, world)
    modifies world
    ensures Linked(a + [n] + b, level, world)
    ensures OnlyLevel(world, level)
    ensures LinkedExcept(lists, level, maxLevel, world)
  {
    LinkAt(level, n, prev, a, b, world);
  }

  /** `UnlinkAt`, seen from all levels. */
  method UnlinkKeepingOthers(level: nat, t: Node, prev: Node, ghost a: seq<Node>, ghost b: seq<Node>,
                             ghost lists: nat -> seq<Node>, ghost maxLevel: nat, ghost world: set<Node>)
    requires a != [] && prev == Last(a)
    requires Distinct(a + [t] + b) && Linked(a + [t] + b, level, world)
    requires LinkedExcept(lists, level, maxLevel, world)
    modifies world
    ensures Linked(a + b, level, world)
    ensures OnlyLevel(world, level)
    ensures LinkedExcept(lists, level, maxLevel, world)
  {
    UnlinkAt(level, t, prev, a, b, world);
  }

  // ---- one node, all its levels ---------------------------------------------------------------

  lemma {:induction false} InsertDistinct(before: seq<Node>, n: Node, after: seq<Node>)
    requires Distinct(before + after) && n !in before + after
    ensures Distinct(before + [n] + after)
  {
    var o, s := before + after, before + [n] + after;
    forall i, j | 0 <= i < j < |s| ensures s[i] != s[j] {
      assert i < |before| ==> s[i] == o[i];
      assert i > |before| ==> s[i] == o[i - 1];
      assert j < |before| ==> s[j] == o[j];
      assert j > |before| ==> s[j] == o[j - 1];
    }
  }

  lemma {:induction false} RemoveDistinct(before: seq<Node>, n: Node, after: seq<Node>)
    requires Distinct(before + [n] + after)
    ensures Distinct(before + after) && n !in before + after
  {
    var o, s := before + [n] + after, before + after;
    assert o[|before|] == n;
    forall i | 0 <= i < |s| ensures s[i] == o[if i < |before| then i else i + 1] {}
  }

  ghost predicate NodesSorted(s: seq<Node>) {
    forall i, j :: 0 <= i < j < |s| ==> !KeyLess(s[j].key, s[i].key)
  }

  lemma {:induction false} InsertSorted(before: seq<Node>, n: Node, after: seq<Node>)
    requires NodesSorted(before + after)
    requires forall i :: 0 <= i < |before| ==> KeyLess(before[i].key, n.key)
    requires forall i :: 0 <= i < |after| ==> !KeyLess(after[i].key, n.key)
    ensures NodesSorted(before + [n] + after)
  {
    var _ := KeyOrder();
    var o, s := before + after, before + [n] + after;
    forall i, j | 0 <= i < j < |s| ensures !KeyLess(s[j].key, s[i].key) {
      assert i < |before| ==> s[i] == o[i] == before[i];
      assert i > |before| ==> s[i] == o[i - 1] == after[i - |before| - 1];
      assert j < |before| ==> s[j] == o[j] == before[j];
      assert j > |before| ==> s[j] == o[j - 1] == after[j - |before| - 1];
    }
  }

  lemma {:induction false} RemoveSorted(before: seq<Node>, n: Node, after: seq<Node>)
    requires NodesSorted(before + [n] + after)
    ensures NodesSorted(before + after)
  {
    var o, s := before + [n] + after, before + after;
    forall i | 0 <= i < |s| ensures s[i] == o[if i < |before| then i else i + 1] {}
  }

  /** The level-`k` list while `n` is linked in at the levels from `lo` up to `hi` only. */
  ghost function HalfList(head: Node, before: seq<Node>, n: Node, after: seq<Node>,
                          lo: nat, hi: nat, k: nat): seq<Node>
  {
    if lo <= k < hi then LevelList(head, before, k) + [n] + AtLevel(after, k)
    else LevelList(head, before, k) + AtLevel(after, k)
  }

  ghost predicate Sized(world: set<Node>)
    reads world
  {
    forall x :: x in world ==> x.height == |x.forward| == |x.backward|
  }

  /** Half way through an insertion or a removal. */
  ghost predicate Spliced(head: Node, before: seq<Node>, n: Node, after: seq<Node>,
                          lo: nat, hi: nat, maxLevel: nat, world: set<Node>)
    reads world
  {
    && Distinct(before + after) && head !in before + after && n !in before + after && n != head
    && n in world && Sized(world)
    && forall k :: 0 <= k < maxLevel ==> Linked(HalfList(head, before, n, after, lo, hi, k), k, world)
  }

  method SpliceLevel(head: Node, n: Node, prev: Node, level: nat, ghost before: seq<Node>,
                     ghost after: seq<Node>, ghost maxLevel: nat, ghost world: set<Node>)
    requires level < n.height <= maxLevel && Spliced(head, before, n, after, 0, level, maxLevel, world)
    requires prev == Last(LevelList(head, before, level))
    modifies world
    ensures Spliced(head, before, n, after, 0, level + 1, maxLevel, world)
    ensures forall x :: x in world ==> x.value == old(x.value)
  {
    hide AtLevel, LevelList;
    ghost var a, b := LevelList(head, before, level), AtLevel(after, level);
    ghost var lists: nat -> seq<Node> := k => HalfList(head, before, n, after, 0, level, k);
    ghost var next := level + 1;
    SplitLevel(head, before, after, level);
    LevelDistinct(head, before + after, level);
    AbsentFromLevel(head, before + after, level, n);
    assert a + b == lists(level);
    assert LinkedExcept(lists, level, maxLevel, world);
    LinkKeepingOthers(level, n, prev, a, b, lists, maxLevel, world);
    forall k | 0 <= k < maxLevel ensures Linked(HalfList(head, before, n, after, 0, next, k), k, world) {
      assert k != level ==> lists(k) == HalfList(head, before, n, after, 0, next, k);
    }
  }

  method SpliceAll(head: Node, n: Node, update: seq<Node>, ghost before: seq<Node>,
                   ghost after: seq<Node>, ghost maxLevel: nat, ghost world: set<Node>)
    requires Spliced(head, before, n, after, 0, 0, maxLevel, world) && n.height <= |update| <= maxLevel
    requires forall l :: 0 <= l < |update| ==> update[l] == Last(LevelList(head, before, l))
    modifies world
    ensures Spliced(head, before, n, after, 0, n.height, maxLevel, world)
    ensures forall x :: x in world ==> x.value == old(x.value)
  {
    hide AtLevel, LevelList, Linked, Distinct, HalfList;
    var level := 0;
    while level < |n.forward|
      invariant 0 <= level <= n.height
      invariant Spliced(head, before, n, after, 0, level, maxLevel, world)
      invariant forall x :: x in world ==> x.value == old(x.value)
    {
      SpliceLevel(head, n, update[level], level, before, after, maxLevel, world);
      level := level + 1;
    }
  }

  lemma {:induction false} EndSplice(head: Node, before: seq<Node>, n: Node, after: seq<Node>, k: nat)
    ensures LevelList(head, before + [n] + after, k) == HalfList(head, before, n, after, 0, n.height, k)
  {
    hide AtLevel, LevelList;
    SplitLevelWith(head, before, n, after, k);
  }

  method UnspliceLevel(head: Node, n: Node, prev: Node, level: nat, ghost before: seq<Node>,
                       ghost after: seq<Node>, ghost maxLevel: nat, ghost world: set<Node>)
    requires level < n.height <= maxLevel
    requires Spliced(head, before, n, after, level, n.height, maxLevel, world)
    requires prev == Last(LevelList(head, before, level))
    modifies world
    ensures Spliced(head, before, n, after, level + 1, n.height, maxLevel, world)
    ensures forall x :: x in world ==> x.value == old(x.value)
  {
    hide AtLevel, LevelList;
    ghost var a, b := LevelList(head, before, level), AtLevel(after, level);
    ghost var lists: nat -> seq<Node> := k => HalfList(head, before, n, after, level, n.height, k);
    ghost var next := level + 1;
    SplitLevel(head, before, after, level);
    LevelDistinct(head, before + after, level);
    AbsentFromLevel(head, before + after, level, n);
    InsertDistinct(a, n, b);
    assert a + [n] + b == lists(level);
    assert LinkedExcept(lists, level, maxLevel, world);
    UnlinkKeepingOthers(level, n, prev, a, b, lists, maxLevel, world);
    forall k | 0 <= k < maxLevel ensures Linked(HalfList(head, before, n, after, next, n.height, k), k, world) {
      assert k != level ==> lists(k) == HalfList(head, before, n, after, next, n.height, k);
    }
  }

  // ---- what is stored, and the byte counter -----------------------------------------------------

  ghost function Stored(s: seq<Node>): (r: seq<Entry>)
    reads s
    ensures |r| == |s|
    ensures forall i :: 0 <= i < |s| ==> r[i] == Entry(s[i].key, s[i].value, s[i].tid)
  {
    seq(|s|, i requires 0 <= i < |s| reads s => Entry(s[i].key, s[i].value, s[i].tid))
  }

  lemma StoredInsert(r: seq<Entry>, s: seq<Entry>, p: nat, e: Entry)
    requires p <= |s| && |r| == |s| + 1 && r[p] == e
    requires forall i :: 0 <= i < p ==> r[i] == s[i]
    requires forall i :: p < i < |r| ==> r[i] == s[i - 1]
    ensures r == s[..p] + [e] + s[p..]
  {
  }

  lemma StoredRemove(r: seq<Entry>, s: seq<Entry>, p: nat)
    requires p < |s| && |r| == |s| - 1
    requires forall i :: 0 <= i < |r| ==> r[i] == s[if i < p then i else i + 1]
    ensures r == s[..p] + s[p + 1..]
  {
  }

  /** Bytes charged for what is stored: key, value and an 8-byte id per version. */
  function Footprint(s: seq<Entry>): nat {
    if s == [] then 0 else |s[0].key| + |s[0].value| + 8 + Footprint(s[1..])
  }

  lemma {:induction false} FootprintConcat(a: seq<Entry>, b: seq<Entry>)
    ensures Footprint(a + b) == Footprint(a) + Footprint(b)
  {
    if a == [] {
      assert a + b == b;
    } else {
      FootprintConcat(a[1..], b);
      assert (a + b)[1..] == a[1..] + b;
    }
  }

  lemma {:induction false} FootprintSplit(a: seq<Entry>, e: Entry, b: seq<Entry>)
    ensures Footprint(a + [e] + b) == Footprint(a + b) + |e.key| + |e.value| + 8
  {
    FootprintConcat(a + [e], b);
    FootprintConcat(a, [e]);
    FootprintConcat(a, b);
    assert Footprint([e]) == |e.key| + |e.value| + 8;
  }

  /** A 64-bit counter that lags behind `bytes` by `lag`. */
  predicate Counts(counter: nat, bytes: int, lag: int) {
    counter == (bytes - lag) % LittleEndian.TWO_64
  }

  lemma CounterMoves(counter: nat, bytes: int, lag: int, delta: int, moreLag: int)
    requires Counts(counter, bytes, lag)
    ensures Counts((counter + delta) % LittleEndian.TWO_64, bytes + delta + moreLag, lag + moreLag)
  {
    var q := (bytes - lag) / LittleEndian.TWO_64;
    assert bytes + delta + moreLag - (lag + moreLag) == counter + delta + q * LittleEndian.TWO_64;
    ModShift(counter + delta, q);
  }

  lemma {:induction false} ModShift(x: int, q: int)
    ensures (x + q * LittleEndian.TWO_64) % LittleEndian.TWO_64 == x % LittleEndian.TWO_64
    decreases if q < 0 then -q else q
  {
    if q > 0 { ModShift(x, q - 1); } else if q < 0 { ModShift(x, q + 1); }
  }

  /** The counter reads the true size exactly when the bytes overwritten amount to a multiple
      of its range, in particular when nothing was ever overwritten. */
  lemma CounterExactIff(counter: nat, bytes: nat, lag: nat)
    requires Counts(counter, bytes, lag) && bytes < LittleEndian.TWO_64
    ensures counter == bytes <==> lag % LittleEndian.TWO_64 == 0
  {
    var q := (bytes - lag) / LittleEndian.TWO_64;
    assert bytes - lag == q * LittleEndian.TWO_64 + counter;
    if counter == bytes {
      ModShift(0, -q);
    }
    if lag % LittleEndian.TWO_64 == 0 {
      var r := lag / LittleEndian.TWO_64;
      ModShift(bytes, -r);
      assert bytes - lag == bytes + (-r) * LittleEndian.TWO_64;
    }
  }

  lemma {:induction false} SameRemainder(a: int, b: int)
    ensures (a - b) % LittleEndian.TWO_64 == 0 <==> a % LittleEndian.TWO_64 == b % LittleEndian.TWO_64
  {
    var m := LittleEndian.TWO_64;
    var x, y := a % m, b % m;
    assert a - b == (x - y) + (a / m - b / m) * m;
    ModShift(x - y, a / m - b / m);
  }

  /** A zero counter tells an empty list exactly when the bytes overwritten leave the remainder they
      should: none for an empty list, another one than the footprint's for a non-empty list. */
  lemma {:induction false} ZeroMeansEmptyIff(counter: nat, s: seq<Entry>, lag: nat)
    requires Counts(counter, Footprint(s), lag)
    ensures (counter == 0 <==> s == []) <==>
            if s == [] then lag % LittleEndian.TWO_64 == 0
            else lag % LittleEndian.TWO_64 != Footprint(s) % LittleEndian.TWO_64
  {
    SameRemainder(Footprint(s), lag);
  }

  lemma {:induction false} CountInsert(counter: nat, s: seq<Entry>, lag: nat, p: nat, e: Entry)
    requires p <= |s| && Counts(counter, Footprint(s), lag)
    ensures Counts((counter + (|e.key| + |e.value| + 8)) % LittleEndian.TWO_64, Footprint(s[..p] + [e] + s[p..]), lag)
  {
    FootprintSplit(s[..p], e, s[p..]);
    assert s[..p] + s[p..] == s;
    CounterMoves(counter, Footprint(s), lag, |e.key| + |e.value| + 8, 0);
  }

  lemma {:induction false} CountRemove(counter: nat, s: seq<Entry>, lag: nat, p: nat)
    requires p < |s| && Counts(counter, Footprint(s), lag)
    ensures var less := (counter - (|s[p].key| + |s[p].value| + 8)) % LittleEndian.TWO_64;
            Counts(less, Footprint(s[..p] + s[p + 1..]), lag)
  {
    FootprintSplit(s[..p], s[p], s[p + 1..]);
    assert s[..p] + [s[p]] + s[p + 1..] == s;
    CounterMoves(counter, Footprint(s), lag, -(|s[p].key| + |s[p].value| + 8), 0);
  }

  lemma {:induction false} CountOverwrite(counter: nat, s: seq<Entry>, lag: nat, p: nat, e: Entry)
    requires p < |s| && s[p].key == e.key && Counts(counter, Footprint(s), lag)
    ensures Counts((counter - |s[p].value|) % LittleEndian.TWO_64, Footprint(s[p := e]), lag + |e.value|)
  {
    FootprintSplit(s[..p], s[p], s[p + 1..]);
    FootprintSplit(s[..p], e, s[p + 1..]);
    assert s[..p] + [s[p]] + s[p + 1..] == s && s[..p] + [e] + s[p + 1..] == s[p := e];
    CounterMoves(counter, Footprint(s), lag, -|s[p].value|, |e.value|);
  }

  // ---- the list ---------------------------------------------------------------------------------

  class SkipList {
    var head: Node
    const maxLevel: nat
    var currentLevel: nat
    var sizeBytes: nat

    /** The bottom list, in order, and the nodes it is made of, the head included. */
    ghost var nodes: seq<Node>
    ghost var repr: set<Node>
    /** Total length of the values that calls of `Put` wrote over existing versions. */
    ghost var overwritten: nat

    /** Every level is an acyclic null-terminated list over exactly the nodes tall enough for
        it, in bottom-list order, mirrored by the backward links; keys ascend. */
    ghost predicate Shape()
      reads this, repr
    {
      && 1 <= currentLevel <= maxLevel
      && head in repr && head.height == maxLevel && Sized(repr)
      && head !in nodes && Distinct(nodes) && NodesSorted(nodes)
      && (forall i :: 0 <= i < |nodes| ==> nodes[i] in repr && 1 <= nodes[i].height <= currentLevel)
      && forall l :: 0 <= l < maxLevel ==> Linked(LevelList(head, nodes, l), l, repr)
    }

    ghost function Contents(): seq<Entry>
      requires forall i :: 0 <= i < |nodes| ==> nodes[i] in repr
      reads this, repr
    {
      Stored(nodes)
    }

    /** `sizeBytes` is a 64-bit counter; an overwrite takes the old length off and forgets the
        new one, so it lags behind the true footprint by the bytes overwritten. */
    ghost predicate Valid()
      reads this, repr
    {
      Shape() && Counts(sizeBytes, Footprint(Contents()), overwritten)
    }

    constructor (maxLvl: nat)
      requires maxLvl >= 1
      ensures Valid() && Contents() == [] && fresh(repr) && maxLevel == maxLvl && overwritten == 0
    {
      var h := new Node([], [], maxLvl, 0);
      head := h;
      maxLevel, currentLevel, sizeBytes := maxLvl, 1, 0;
      nodes, repr, overwritten := [], {h}, 0;
    }

    /** Coin flips decide the height; any value in range can come out. */
    method RandomLevel() returns (level: nat)
      requires maxLevel >= 1
      ensures 1 <= level <= maxLevel
    {
      level := 1;
      var flip: bool := *;
      while flip && level < maxLevel
        invariant 1 <= level <= maxLevel
      {
        level := level + 1;
        flip := *;
      }
    }

    /** The position in the bottom list where a plain scan for `k` stops. */
    ghost predicate IsBound(p: nat, k: Key)
      reads this
    {
      && p <= |nodes|
      && (forall i :: 0 <= i < p ==> KeyLess(nodes[i].key, k))
      && (forall i :: p <= i < |nodes| ==> !KeyLess(nodes[i].key, k))
    }

    lemma BoundExists(key: Key) returns (p: nat)
      requires NodesSorted(nodes)
      ensures IsBound(p, key)
    {
      var _ := KeyOrder();
      p := 0;
      while p < |nodes| && KeyLess(nodes[p].key, key)
        invariant p <= |nodes| && forall i :: 0 <= i < p ==> KeyLess(nodes[i].key, key)
      {
        p := p + 1;
      }
    }

    /** In every level list the nodes below the scan position come first. */
    lemma LevelBound(p: nat, key: Key, l: nat)
      requires IsBound(p, key)
      ensures var list, a := LevelList(head, nodes, l), LevelList(head, nodes[..p], l);
              && a <= list
              && forall i :: 1 <= i < |list| ==> (KeyLess(list[i].key, key) <==> i < |a|)
    {
      hide AtLevel;
      var before, after := nodes[..p], nodes[p..];
      assert nodes == before + after;
      SplitLevel(head, before, after, l);
      var list, a, b := LevelList(head, nodes, l), LevelList(head, before, l), AtLevel(after, l);
      forall i | 1 <= i < |list| ensures KeyLess(list[i].key, key) <==> i < |a| {
        if i < |a| {
          assert list[i] == a[i] == AtLevel(before, l)[i - 1];
          AtLevelMember(before, l, list[i]);
        } else {
          assert list[i] == b[i - |a|];
          AtLevelMember(after, l, list[i]);
        }
      }
    }

    /** Moves right along one level while the next key is smaller than `key`. */
    method MoveRight(from: Node, level: nat, key: Key, ghost p: nat) returns (current: Node)
      requires Shape() && IsBound(p, key) && level < currentLevel
      requires from in LevelList(head, nodes[..p], level)
      ensures current == Last(LevelList(head, nodes[..p], level))
    {
      hide AtLevel, LevelList, KeyLess;
      LevelBound(p, key, level);
      ghost var list, a := LevelList(head, nodes, level), LevelList(head, nodes[..p], level);
      current := from;
      ghost var q :| 0 <= q < |a| && a[q] == current;
      assert Linked(list, level, repr) && list[q] == current;
      while current.forward[level] != null && KeyLess(current.forward[level].key, key)
        invariant 0 <= q < |a| && list[q] == current
        invariant level < |current.forward|
        decreases |a| - q
      {
        current := current.forward[level];
        q := q + 1;
      }
      assert list[q].forward[level] == if q + 1 < |list| then list[q + 1] else null;
      assert q + 1 == |a| && list[q] == a[q];
    }

    /** The descent: from the top level down, `update[l]` becomes the last node of level `l`
        that a scan of the bottom list passes. */
    method FindPredecessors(key: Key) returns (update: seq<Node>, ghost p: nat)
      requires Shape()
      ensures IsBound(p, key) && |update| == currentLevel
      ensures forall l :: 0 <= l < currentLevel ==> update[l] == Last(LevelList(head, nodes[..p], l))
    {
      hide Linked, AtLevel;
      p := BoundExists(key);
      var current := head;
      update := seq(currentLevel, _ => current);
      var level := currentLevel;
      while level > 0
        invariant 0 <= level <= currentLevel == |update|
        invariant current in LevelList(head, nodes[..p], level)
        invariant forall l :: level <= l < currentLevel ==>
                    update[l] == Last(LevelList(head, nodes[..p], l))
      {
        level := level - 1;
        AtLevelMember(nodes[..p], level + 1, current);
        AtLevelMember(nodes[..p], level, current);
        current := MoveRight(current, level, key, p);
        update := update[level := current];
      }
    }

    /** Where the descent ends: right before the position a plain scan finds. */
    method Locate(key: Key) returns (update: seq<Node>, next: Node?, ghost p: nat)
      requires Shape()
      ensures IsBound(p, key) && p == Spec.Bound(Contents(), key)
      ensures next == if p < |nodes| then nodes[p] else null
      ensures |update| == currentLevel
      ensures forall l :: 0 <= l < currentLevel ==> update[l] == Last(LevelList(head, nodes[..p], l))
    {
      hide Linked, AtLevel, LevelList, KeyLess;
      update, p := FindPredecessors(key);
      BoundMatches(p, key);
      NextIsAtBound(update[0], p);
      next := update[0].forward[0];
    }

    lemma BoundMatches(p: nat, key: Key)
      requires (forall i :: 0 <= i < |nodes| ==> nodes[i] in repr) && IsBound(p, key)
      ensures Spec.Bound(Contents(), key) == p
    {
      hide KeyLess;
      var s := Contents();
      assert forall i :: 0 <= i < p ==> KeyLess(s[i].key, key);
      assert p < |s| ==> !KeyLess(s[p].key, key);
    }

    lemma BottomLink(p: nat)
      requires Shape() && p <= |nodes|
      ensures var x := if p == 0 then head else nodes[p - 1];
              x.forward != [] && x.forward[0] == if p < |nodes| then nodes[p] else null
    {
      AllAtBottom(nodes);
      hide AtLevel, KeyLess, Distinct;
      var list := LevelList(head, nodes, 0);
      assert list == [head] + nodes && Linked(list, 0, repr);
      var x := if p == 0 then head else nodes[p - 1];
      assert list[p] == x && x.forward[0] == list[p].forward[0];
    }

    lemma NextIsAtBound(prev: Node, p: nat)
      requires Shape() && p <= |nodes| && prev == Last(LevelList(head, nodes[..p], 0))
      ensures prev.forward != [] && prev.forward[0] == if p < |nodes| then nodes[p] else null
    {
      AllAtBottom(nodes[..p]);
      BottomLink(p);
    }

    /** Splices a new node into every level below its height. */
    method InsertNode(n: Node, update: seq<Node>, ghost p: nat)
      requires Shape() && IsBound(p, n.key)
      requires n !in repr && 1 <= n.height == |n.forward| == |n.backward| <= currentLevel
      requires |update| == currentLevel
      requires forall l :: 0 <= l < currentLevel ==> update[l] == Last(LevelList(head, nodes[..p], l))
      modifies this`nodes, this`repr, repr, n
      ensures Shape() && repr == old(repr) + {n}
      ensures |nodes| == |old(nodes)| + 1 && nodes[p] == n
      ensures forall i :: 0 <= i < p ==> nodes[i] == old(nodes)[i]
      ensures forall i :: p < i < |nodes| ==> nodes[i] == old(nodes)[i - 1]
      ensures forall x :: x in repr ==> x.value == old(x.value)
    {
      hide AtLevel, LevelList, KeyLess, Linked, Distinct, NodesSorted, HalfList;
      ghost var before, after, world := nodes[..p], nodes[p..], repr + {n};
      assert before + after == nodes;
      StartSplice(n, before, after, world);
      SpliceAll(head, n, update, before, after, maxLevel, world);
      InsertDistinct(before, n, after);
      InsertSorted(before, n, after);
      nodes, repr := before + [n] + after, world;
      forall k | 0 <= k < maxLevel ensures Linked(LevelList(head, nodes, k), k, repr) {
        EndSplice(head, before, n, after, k);
      }
    }

    lemma StartSplice(n: Node, before: seq<Node>, after: seq<Node>, world: set<Node>)
      requires Shape() && before + after == nodes && n !in repr && world == repr + {n}
      requires n.height == |n.forward| == |n.backward|
      ensures Spliced(head, before, n, after, 0, 0, maxLevel, world)
    {
      hide AtLevel, LevelList, KeyLess, Linked;
      forall k | 0 <= k < maxLevel ensures Linked(HalfList(head, before, n, after, 0, 0, k), k, world) {
        SplitLevel(head, before, after, k);
        LinkedGrows(LevelList(head, nodes, k), k, repr, world);
      }
    }

    /** Takes the node at position `p` out of every level it takes part in. */
    method DeleteNode(t: Node, update: seq<Node>, ghost p: nat)
      requires Shape() && p < |nodes| && nodes[p] == t
      requires |update| == currentLevel
      requires forall l :: 0 <= l < currentLevel ==> update[l] == Last(LevelList(head, nodes[..p], l))
      modifies this`nodes, repr
      ensures Shape() && |nodes| == |old(nodes)| - 1
      ensures forall i :: 0 <= i < |nodes| ==> nodes[i] == old(nodes)[if i < p then i else i + 1]
      ensures forall x :: x in repr ==> x.value == old(x.value)
    {
      hide AtLevel, LevelList, KeyLess, Linked, Distinct, NodesSorted;
      ghost var before, after := nodes[..p], nodes[p + 1..];
      assert before + [t] + after == nodes;
      RemoveDistinct(before, t, after);
      forall k | 0 <= k < maxLevel ensures Linked(HalfList(head, before, t, after, 0, t.height, k), k, repr) {
        SplitLevelWith(head, before, t, after, k);
        assert Linked(LevelList(head, nodes, k), k, repr);
      }
      var level := 0;
      while level < |t.forward|
        invariant 0 <= level <= t.height
        invariant Spliced(head, before, t, after, level, t.height, maxLevel, repr)
        invariant forall x :: x in repr ==> x.value == old(x.value)
      {
        UnspliceLevel(head, t, update[level], level, before, after, maxLevel, repr);
        level := level + 1;
      }
      RemoveSorted(before, t, after);
      nodes := before + after;
      forall k | 0 <= k < maxLevel ensures Linked(LevelList(head, nodes, k), k, repr) {
        SplitLevel(head, before, after, k);
        assert LevelList(head, nodes, k) == HalfList(head, before, t, after, t.height, t.height, k);
      }
    }

    /** Replaces the value of one version; no link depends on it. */
    method SetValue(n: Node, value: Value, ghost p: nat)
      requires Shape() && p < |nodes| && nodes[p] == n
      modifies n`value
      ensures Shape() && Contents() == old(Contents())[p := Entry(n.key, value, n.tid)]
    {
      hide AtLevel, LevelList, KeyLess;
      n.value := value;
    }

    method RaiseLevel(newLevel: nat)
      requires Valid() && newLevel <= maxLevel
      modifies this`currentLevel
      ensures Valid() && newLevel <= currentLevel
    {
      hide Linked, AtLevel, LevelList, Counts, Footprint, KeyLess;
      if newLevel > currentLevel {
        currentLevel := newLevel;
      }
    }

    /** Inserts a version, or overwrites the top version when the ids agree. The height is
        random; nothing promised here depends on it. */
    method Put(key: Key, value: Value, tid: nat)
      requires Valid()
      modifies this, repr
      ensures Valid() && fresh(repr - old(repr))
      ensures Contents() == Spec.Put(old(Contents()), Entry(key, value, tid))
      ensures overwritten == old(overwritten) +
              if Spec.Overwrites(old(Contents()), key, tid) then |value| else 0
    {
      hide Linked, AtLevel, LevelList, Counts, Footprint, KeyLess, Distinct, NodesSorted, Spec.Bound;
      var newLevel := RandomLevel();
      RaiseLevel(newLevel);
      var update, next, p := Locate(key);
      if next != null && next.key == key && next.tid == tid {
        OverwriteVersion(next, value, p);
      } else {
        InsertVersion(key, value, tid, newLevel, update, p);
      }
    }

    method OverwriteVersion(next: Node, value: Value, ghost p: nat)
      requires Valid() && p < |nodes| && nodes[p] == next
      modifies this`sizeBytes, this`overwritten, next`value
      ensures Valid() && Contents() == old(Contents())[p := Entry(next.key, value, next.tid)]
      ensures overwritten == old(overwritten) + |value|
    {
      hide Linked, AtLevel, LevelList, Counts, Footprint, KeyLess, Distinct, NodesSorted;
      CountOverwrite(sizeBytes, Contents(), overwritten, p, Entry(next.key, value, next.tid));
      sizeBytes := (sizeBytes - |next.value|) % LittleEndian.TWO_64;
      SetValue(next, value, p);
      overwritten := overwritten + |value|;
    }

    method InsertVersion(key: Key, value: Value, tid: nat, newLevel: nat, update: seq<Node>, ghost p: nat)
      requires Valid() && IsBound(p, key) && 1 <= newLevel <= currentLevel
      requires |update| == currentLevel
      requires forall l :: 0 <= l < currentLevel ==> update[l] == Last(LevelList(head, nodes[..p], l))
      modifies this`nodes, this`repr, this`sizeBytes, repr
      ensures Valid() && fresh(repr - old(repr))
      ensures Contents() == old(Contents())[..p] + [Entry(key, value, tid)] + old(Contents())[p..]
    {
      hide Linked, AtLevel, LevelList, Counts, Footprint, KeyLess, Distinct, NodesSorted;
      ghost var s := Contents();
      AddNode(key, value, tid, newLevel, update, p);
      CountInsert(sizeBytes, s, overwritten, p, Entry(key, value, tid));
      sizeBytes := (sizeBytes + (|key| + |value| + 8)) % LittleEndian.TWO_64;
    }

    method AddNode(key: Key, value: Value, tid: nat, newLevel: nat, update: seq<Node>, ghost p: nat)
      requires Shape() && IsBound(p, key) && 1 <= newLevel <= currentLevel
      requires |update| == currentLevel
      requires forall l :: 0 <= l < currentLevel ==> update[l] == Last(LevelList(head, nodes[..p], l))
      modifies this`nodes, this`repr, repr
      ensures Shape() && fresh(repr - old(repr))
      ensures Contents() == old(Contents())[..p] + [Entry(key, value, tid)] + old(Contents())[p..]
    {
      hide Linked, AtLevel, LevelList, KeyLess, Distinct, NodesSorted;
      ghost var s := Contents();
      var n := new Node(key, value, newLevel, tid);
      InsertNode(n, update, p);
      StoredInsert(Contents(), s, p, Entry(key, value, tid));
    }

    /** The iterator `get` returns, as the node it stands on (null for the end). */
    method Get(key: Key, tid: nat) returns (it: Node?)
      requires Valid()
      ensures match Spec.Get(Contents(), key, tid)
              case None => it == null
              case Some(e) => it != null && it in nodes && Entry(it.key, it.value, it.tid) == e
    {
      hide Linked, AtLevel, LevelList, Counts, Footprint, KeyLess, Distinct, NodesSorted;
      var _, target, p := Locate(key);
      if target != null && target.key == key && (tid == 0 || target.tid <= tid) {
        return target;
      }
      return null;
    }

    method Remove(key: Key)
      requires Valid()
      modifies this, repr
      ensures Valid() && repr == old(repr) && overwritten == old(overwritten)
      ensures Contents() == Spec.Remove(old(Contents()), key)
    {
      hide Linked, AtLevel, LevelList, Counts, Footprint, KeyLess, Distinct, NodesSorted, Spec.Bound;
      var update, target, p := Locate(key);
      if target == null || target.key != key {
        return;
      }
      DropVersion(target, update, p);
    }

    method DropVersion(t: Node, update: seq<Node>, ghost p: nat)
      requires Valid() && p < |nodes| && nodes[p] == t
      requires |update| == currentLevel
      requires forall l :: 0 <= l < currentLevel ==> update[l] == Last(LevelList(head, nodes[..p], l))
      modifies this`nodes, this`sizeBytes, repr
      ensures Valid() && Contents() == old(Contents())[..p] + old(Contents())[p + 1..]
    {
      hide Linked, AtLevel, LevelList, Counts, Footprint, KeyLess, Distinct, NodesSorted;
      ghost var s := Contents();
      DropNode(t, update, p);
      CountRemove(sizeBytes, s, overwritten, p);
      sizeBytes := (sizeBytes - (|t.key| + |t.value| + 8)) % LittleEndian.TWO_64;
    }

    method DropNode(t: Node, update: seq<Node>, ghost p: nat)
      requires Shape() && p < |nodes| && nodes[p] == t
      requires |update| == currentLevel
      requires forall l :: 0 <= l < currentLevel ==> update[l] == Last(LevelList(head, nodes[..p], l))
      modifies this`nodes, repr
      ensures Shape() && t.value == old(t.value)
      ensures Contents() == old(Contents())[..p] + old(Contents())[p + 1..]
    {
      hide Linked, AtLevel, LevelList, KeyLess, Distinct, NodesSorted;
      ghost var s := Contents();
      DeleteNode(t, update, p);
      StoredRemove(Contents(), s, p);
    }

    /** A fresh head; `currentLevel` keeps its value. */
    method Clear()
      requires Valid()
      modifies this
      ensures Valid() && Contents() == [] && fresh(repr) && overwritten == 0 && sizeBytes == 0
    {
      head := new Node([], [], maxLevel, 0);
      nodes, repr, overwritten := [], {head}, 0;
      sizeBytes := 0;
    }

    /** Walks the bottom list, as an iterator does step by step, and collects every version. */
    method Flush() returns (data: seq<Entry>)
      requires Valid()
      ensures data == Contents()
    {
      hide Linked, AtLevel, LevelList, Counts, Footprint, KeyLess, Distinct, NodesSorted;
      data := [];
      BottomLink(0);
      var node := head.forward[0];
      ghost var i := 0;
      while node != null
        invariant 0 <= i <= |nodes| && node == (if i < |nodes| then nodes[i] else null)
        invariant data == Contents()[..i]
        decreases |nodes| - i
      {
        data := data + [Entry(node.key, node.value, node.tid)];
        i := i + 1;
        BottomLink(i);
        node := node.forward[0];
      }
    }
  }
}
