/** What the skip list stores, as a plain sequence of entries, and its reading as a map from
    keys to version stacks whose top is the version pushed last. */
module SkipListSpec {
  import opened Keys
  import opened Entries

  /** Where a left-to-right scan of the bottom list stops when it looks for `k`. */
  function Bound(s: seq<Entry>, k: Key): (p: nat)
    ensures p <= |s|
    ensures forall i :: 0 <= i < p ==> KeyLess(s[i].key, k)
    ensures p < |s| ==> !KeyLess(s[p].key, k)
  {
    if s == [] || !KeyLess(s[0].key, k) then 0 else 1 + Bound(s[1..], k)
  }

  /** Does the version a scan for `k` stops at belong to transaction `t`? */
  predicate Overwrites(s: seq<Entry>, k: Key, t: nat) {
    var p := Bound(s, k);
    p < |s| && s[p].key == k && s[p].tid == t
  }

  function Put(s: seq<Entry>, e: Entry): seq<Entry> {
    var p := Bound(s, e.key);
    if Overwrites(s, e.key, e.tid) then s[p := e] else s[..p] + [e] + s[p..]
  }

  function Remove(s: seq<Entry>, k: Key): seq<Entry> {
    var p := Bound(s, k);
    if p < |s| && s[p].key == k then s[..p] + s[p + 1..] else s
  }

  function Get(s: seq<Entry>, k: Key, t: nat): Option<Entry> {
    var p := Bound(s, k);
    if p < |s| && s[p].key == k && Visible(s[p], t) then Some(s[p]) else None
  }

  /** Before the scan position there is no version of `k`. */
  lemma {:induction false} NoVersionBeforeBound(s: seq<Entry>, k: Key)
    ensures Versions(s[..Bound(s, k)], k) == []
  {
    var _ := KeyOrder();
    NoVersions(s[..Bound(s, k)], k);
  }

  /** If the scan does not stop at `k`, there is no version of `k` after it either. */
  lemma {:induction false} NoVersionAfterMiss(s: seq<Entry>, k: Key)
    requires KeySorted(s)
    requires var p := Bound(s, k); p < |s| ==> s[p].key != k
    ensures Versions(s[Bound(s, k)..], k) == []
  {
    var _ := KeyOrder();
    var p := Bound(s, k);
    forall i | p <= i < |s| ensures s[i].key != k {
      assert p < i ==> !KeyLess(s[i].key, s[p].key);
      assert !KeyLess(s[p].key, k);
    }
    NoVersions(s[p..], k);
  }

  /** The scan position splits the stack of `k` off: its top, if any, stands right there. */
  lemma {:induction false} VersionsAtBound(s: seq<Entry>, k: Key)
    requires KeySorted(s)
    ensures var p := Bound(s, k);
            && Versions(s, k) == Versions(s[p..], k)
            && (p < |s| && s[p].key == k ==> Versions(s, k) == [s[p]] + Versions(s[p + 1..], k))
            && (!(p < |s| && s[p].key == k) ==> Versions(s, k) == [])
  {
    hide Versions, KeyLess, Bound;
    var p := Bound(s, k);
    NoVersionBeforeBound(s, k);
    VersionsConcat(s[..p], s[p..], k);
    assert s[..p] + s[p..] == s && [] + Versions(s[p..], k) == Versions(s[p..], k);
    if p < |s| && s[p].key == k {
      VersionsCons(s[p], s[p + 1..], k);
      assert s[p..] == [s[p]] + s[p + 1..];
    } else {
      NoVersionAfterMiss(s, k);
    }
  }

  lemma {:induction false} SplitVersions(a: seq<Entry>, e: Entry, b: seq<Entry>, k: Key)
    ensures Versions(a + [e] + b, k) ==
            Versions(a, k) + if e.key == k then [e] + Versions(b, k) else Versions(b, k)
  {
    VersionsConcat(a, [e] + b, k);
    VersionsCons(e, b, k);
    assert a + [e] + b == a + ([e] + b);
  }

  /** `put` overwrites the top of its key's stack when the ids agree and pushes otherwise;
      no other stack changes and the list stays in key order. */
  function PutStack(stack: seq<Entry>, e: Entry): seq<Entry> {
    if stack != [] && stack[0].tid == e.tid then [e] + stack[1..] else [e] + stack
  }

  lemma {:induction false} PutKeepsOrder(s: seq<Entry>, e: Entry)
    requires KeySorted(s)
    ensures KeySorted(Put(s, e))
  {
    var _ := KeyOrder();
    var p := Bound(s, e.key);
    forall i | p <= i < |s| ensures !KeyLess(s[i].key, e.key) {
      assert !KeyLess(s[p].key, e.key) && (p < i ==> !KeyLess(s[i].key, s[p].key));
    }
  }

  lemma {:induction false} PutRefines(s: seq<Entry>, e: Entry, k: Key)
    requires KeySorted(s)
    ensures KeySorted(Put(s, e))
    ensures Versions(Put(s, e), k) ==
            if k == e.key then PutStack(Versions(s, k), e) else Versions(s, k)
  {
    hide Versions, KeyLess, Bound;
    PutKeepsOrder(s, e);
    var p := Bound(s, e.key);
    NoVersionBeforeBound(s, e.key);
    if p < |s| && s[p].key == e.key && s[p].tid == e.tid {
      PutOverwrites(s, e, k, p);
    } else {
      SplitVersions(s[..p], e, s[p..], k);
      VersionsConcat(s[..p], s[p..], k);
      assert s == s[..p] + s[p..];
      VersionsAtBound(s, e.key);
    }
  }

  lemma {:induction false} PutOverwrites(s: seq<Entry>, e: Entry, k: Key, p: nat)
    requires p < |s| && s[p].key == e.key && s[p].tid == e.tid
    requires Versions(s[..p], e.key) == []
    ensures Versions(s[p := e], k) ==
            if k == e.key then PutStack(Versions(s, k), e) else Versions(s, k)
  {
    hide Versions;
    assert s[p := e] == s[..p] + [e] + s[p + 1..] && s == s[..p] + [s[p]] + s[p + 1..];
    SplitVersions(s[..p], e, s[p + 1..], k);
    SplitVersions(s[..p], s[p], s[p + 1..], k);
  }

  /** `remove` pops the top of its key's stack and nothing else. */
  lemma {:induction false} RemoveRefines(s: seq<Entry>, k: Key, j: Key)
    requires KeySorted(s)
    ensures KeySorted(Remove(s, k))
    ensures Versions(Remove(s, k), j) ==
            if j == k && Versions(s, k) != [] then Versions(s, k)[1..] else Versions(s, j)
  {
    hide Versions;
    var p := Bound(s, k);
    VersionsAtBound(s, k);
    NoVersionBeforeBound(s, k);
    if p < |s| && s[p].key == k {
      assert s == s[..p] + [s[p]] + s[p + 1..];
      SplitVersions(s[..p], s[p], s[p + 1..], j);
      VersionsConcat(s[..p], s[p + 1..], j);
    }
  }

  /** `get` looks at the top of the stack only. */
  lemma {:induction false} GetLooksAtTop(s: seq<Entry>, k: Key, t: nat)
    requires KeySorted(s)
    ensures var stack := Versions(s, k);
            Get(s, k, t) == if stack != [] && Visible(stack[0], t) then Some(stack[0]) else None
  {
    VersionsAtBound(s, k);
  }

  /** The promised reading, "the newest version the reader may see", is what `get` returns
      exactly when the top is visible or nothing is. */
  lemma {:induction false} GetIsSnapshotReadIff(s: seq<Entry>, k: Key, t: nat)
    requires KeySorted(s)
    ensures var stack := Versions(s, k);
            Get(s, k, t) == FirstVisible(stack, t) <==>
            (stack != [] ==> Visible(stack[0], t) || forall e :: e in stack ==> !Visible(e, t))
  {
    GetLooksAtTop(s, k, t);
    var stack := Versions(s, k);
    if stack != [] && !Visible(stack[0], t) && FirstVisible(stack, t).None? {
      assert forall e :: e in stack ==> !Visible(e, t);
    }
  }

  /** Two versions of one key, a reader with the older id: `get` finds nothing. */
  lemma {:induction false} GetMissesOlderVersion()
    ensures var s := Put(Put([], Entry([1], [10], 1)), Entry([1], [20], 2));
            Get(s, [1], 1).None? && FirstVisible(Versions(s, [1]), 1) == Some(Entry([1], [10], 1))
  {
    var one := Put([], Entry([1], [10], 1));
    assert one == [Entry([1], [10], 1)];
    var s := Put(one, Entry([1], [20], 2));
    assert Bound(one, [1]) == 0;
    assert s == [Entry([1], [20], 2), Entry([1], [10], 1)];
    assert s[1..] == one;
    assert Versions(one, [1]) == one;
    assert Versions(s, [1]) == s;
    assert FirstVisible(one, 1) == Some(one[0]);
  }

  lemma {:induction false} FirstKeyLeast(a: seq<Entry>, e: Entry)
    requires KeySorted(a) && e in a
    ensures !KeyLess(e.key, a[0].key)
  {
    var _ := KeyOrder();
    var i :| 0 <= i < |a| && a[i] == e;
  }

  /** A key-sorted list is determined by its stacks, so a flush lists every stack, whole and in
      order, in ascending key order. */
  lemma {:induction false} StacksDetermineList(a: seq<Entry>, b: seq<Entry>)
    requires KeySorted(a) && KeySorted(b)
    requires forall k :: Versions(a, k) == Versions(b, k)
    ensures a == b
  {
    hide Versions;
    if a == [] {
      if b != [] {
        VersionsMembers(b, b[0].key, b[0]);
        assert Versions(b, b[0].key) == Versions(a, b[0].key);
        VersionsMembers(a, b[0].key, b[0]);
      }
    } else {
      var k := a[0].key;
      assert a[0] in Versions(b, k) && a[0] in b by {
        assert Versions(a, k) == Versions(b, k);
        VersionsMembers(a, k, a[0]);
        VersionsMembers(b, k, a[0]);
      }
      FirstKeyLeast(b, a[0]);
      assert b[0] in a by {
        assert Versions(a, b[0].key) == Versions(b, b[0].key);
        VersionsMembers(a, b[0].key, b[0]);
        VersionsMembers(b, b[0].key, b[0]);
      }
      FirstKeyLeast(a, b[0]);
      assert b[0].key == k by { var _ := KeyOrder(); }
      assert [a[0]] + a[1..] == a && [b[0]] + b[1..] == b;
      forall j: Key ensures Versions(a[1..], j) == Versions(b[1..], j) {
        VersionsCons(a[0], a[1..], j);
        VersionsCons(b[0], b[1..], j);
        assert Versions(a, j) == Versions(b, j);
        if j == k {
          assert Versions(a, j)[1..] == Versions(a[1..], j) && Versions(b, j)[1..] == Versions(b[1..], j);
        }
      }
      assert Versions(a, k)[0] == a[0] by { VersionsCons(a[0], a[1..], k); }
      assert Versions(b, k)[0] == b[0] by { VersionsCons(b[0], b[1..], k); }
      StacksDetermineList(a[1..], b[1..]);
    }
  }

  // ---- whole runs ---------------------------------------------------------------------------

  datatype Op = DoPut(e: Entry) | DoRemove(k: Key) | DoClear

  /** The list after a run of calls. */
  function Run(ops: seq<Op>): seq<Entry> {
    if ops == [] then []
    else
      var s := Run(ops[..|ops| - 1]);
      match ops[|ops| - 1]
      case DoPut(e) => Put(s, e)
      case DoRemove(k) => Remove(s, k)
      case DoClear => []
  }

  /** The reference: the stack of `k` after the same run, with no list in sight. */
  function Stack(ops: seq<Op>, k: Key): seq<Entry> {
    if ops == [] then []
    else
      var st := Stack(ops[..|ops| - 1], k);
      match ops[|ops| - 1]
      case DoPut(e) => if e.key == k then PutStack(st, e) else st
      case DoRemove(j) => if j == k && st != [] then st[1..] else st
      case DoClear => []
  }

  /** Every run refines the map from keys to stacks. */
  lemma {:induction false} RunRefinesStacks(ops: seq<Op>)
    ensures KeySorted(Run(ops))
    ensures forall k :: Versions(Run(ops), k) == Stack(ops, k)
  {
    if ops != [] {
      var init := ops[..|ops| - 1];
      RunRefinesStacks(init);
      forall k: Key ensures Versions(Run(ops), k) == Stack(ops, k) && KeySorted(Run(ops)) {
        match ops[|ops| - 1]
        case DoPut(e) => PutRefines(Run(init), e, k);
        case DoRemove(j) => RemoveRefines(Run(init), j, k);
        case DoClear =>
      }
      assert Versions(Run(ops), []) == Stack(ops, []);
    }
  }
}
