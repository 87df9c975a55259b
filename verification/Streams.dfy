/** What the iterators are supposed to enumerate, as functions on sequences of entries. */
module Streams {
  import opened Keys
  import opened Entries

  // ---- one store: the versions a reader may see -------------------------------------------------

  function AllVisible(s: seq<Entry>, t: nat): seq<Entry> {
    if s == [] then []
    else if Visible(s[0], t) then [s[0]] + AllVisible(s[1..], t)
    else AllVisible(s[1..], t)
  }

  /** Without its leading entries of key `k`. */
  function DropKey(s: seq<Entry>, k: Key): (r: seq<Entry>)
    ensures |r| <= |s|
  {
    if s != [] && s[0].key == k then DropKey(s[1..], k) else s
  }

  /** The first entry of every run of equal keys. */
  function FirstPerKey(s: seq<Entry>): seq<Entry>
    decreases |s|
  {
    if s == [] then [] else [s[0]] + FirstPerKey(DropKey(s[1..], s[0].key))
  }

  /** The reader's view: all visible versions, or only the first of every key. */
  function View(s: seq<Entry>, t: nat, keepAll: bool): seq<Entry> {
    if keepAll then AllVisible(s, t) else FirstPerKey(AllVisible(s, t))
  }

  /** Without deletion marks. */
  function Live(s: seq<Entry>): seq<Entry> {
    if s == [] then []
    else if s[0].value != [] then [s[0]] + Live(s[1..])
    else Live(s[1..])
  }

  lemma {:induction false} AllVisibleMember(s: seq<Entry>, t: nat, e: Entry)
    ensures e in AllVisible(s, t) <==> e in s && Visible(e, t)
  {
    if s != [] {
      AllVisibleMember(s[1..], t, e);
      assert s == [s[0]] + s[1..];
    }
  }

  lemma {:induction false} LiveMember(s: seq<Entry>, e: Entry)
    ensures e in Live(s) <==> e in s && e.value != []
  {
    if s != [] {
      LiveMember(s[1..], e);
      assert s == [s[0]] + s[1..];
    }
  }

  lemma {:induction false} AllVisibleCons(e: Entry, s: seq<Entry>, t: nat)
    ensures AllVisible([e] + s, t) == if Visible(e, t) then [e] + AllVisible(s, t) else AllVisible(s, t)
  {
    assert ([e] + s)[1..] == s;
  }

  lemma {:induction false} AllVisibleConcat(a: seq<Entry>, b: seq<Entry>, t: nat)
    ensures AllVisible(a + b, t) == AllVisible(a, t) + AllVisible(b, t)
  {
    if a == [] {
      assert a + b == b;
    } else {
      hide AllVisible;
      var x, r := a[0], a[1..];
      AllVisibleConcat(r, b, t);
      AllVisibleCons(x, r, t);
      AllVisibleCons(x, r + b, t);
      assert a == [x] + r && a + b == [x] + (r + b);
    }
  }

  lemma {:induction false} AllVisibleKeepsOrder(s: seq<Entry>, t: nat)
    requires EntrySorted(s)
    ensures EntrySorted(AllVisible(s, t))
  {
    if s != [] {
      AllVisibleKeepsOrder(s[1..], t);
      var r := AllVisible(s[1..], t);
      forall i | 0 <= i < |r| ensures EntryLess(s[0], r[i]) {
        AllVisibleMember(s[1..], t, r[i]);
      }
    }
  }

  lemma {:induction false} EverythingVisible(s: seq<Entry>)
    ensures AllVisible(s, 0) == s
  {
    if s != [] {
      EverythingVisible(s[1..]);
      assert s == [s[0]] + s[1..];
    }
  }

  // ---- the first of every key -------------------------------------------------------------------

  lemma {:induction false} DropKeySuffix(s: seq<Entry>, k: Key)
    ensures var r := DropKey(s, k); var n := |s| - |r|;
            && r == s[n..]
            && (forall i :: 0 <= i < n ==> s[i].key == k)
            && (r != [] ==> r[0].key != k)
  {
    if s != [] && s[0].key == k {
      DropKeySuffix(s[1..], k);
      var r := DropKey(s[1..], k);
      var n := |s| - |r|;
      assert r == s[1..][n - 1..] == s[n..];
      forall i | 0 <= i < n ensures s[i].key == k {
        if i > 0 { assert s[i] == s[1..][i - 1]; }
      }
    }
  }

  lemma {:induction false} DropKeyPrefix(p: seq<Entry>, r: seq<Entry>, k: Key)
    requires forall i :: 0 <= i < |p| ==> p[i].key == k
    requires r != [] ==> r[0].key != k
    ensures DropKey(p + r, k) == r
  {
    if p == [] {
      assert p + r == r;
    } else {
      DropKeyPrefix(p[1..], r, k);
      assert (p + r)[1..] == p[1..] + r;
    }
  }

  /** In a key-sorted list dropping a leading key drops it altogether. */
  lemma {:induction false} DropKeyStrict(s: seq<Entry>)
    requires s != [] && KeySorted(s)
    ensures var r := DropKey(s[1..], s[0].key);
            && KeySorted(r) && (forall i :: 0 <= i < |r| ==> KeyLess(s[0].key, r[i].key))
            && (forall e :: e in s && e.key != s[0].key ==> e in r)
            && (forall e :: e in r ==> e in s)
  {
    hide DropKey, KeyLess;
    var rank := KeyOrder();
    var t, r := s[1..], DropKey(s[1..], s[0].key);
    DropKeySuffix(t, s[0].key);
    var n := |s| - |r|;
    assert r == s[n..];
    forall i | 0 <= i < |r| ensures KeyLess(s[0].key, r[i].key) {
      assert r[i] == s[n + i] && r[0] == s[n];
      assert !KeyLess(s[n + i].key, s[n].key) || i == 0;
      assert !KeyLess(s[n].key, s[0].key);
    }
    forall e | e in s && e.key != s[0].key ensures e in r {
      var i :| 0 <= i < |s| && s[i] == e;
      assert i > 0 && s[i] == t[i - 1];
      assert i >= n && r[i - n] == e;
    }
  }

  /** One entry per key, keys strictly ascending, and each the first of its key. */
  lemma {:induction false} FirstPerKeyMeaning(s: seq<Entry>)
    requires KeySorted(s)
    ensures var r := FirstPerKey(s);
            && StrictKeys(r)
            && (forall e :: e in r ==> Versions(s, e.key) != [] && e == Versions(s, e.key)[0])
            && (forall e :: e in s ==> exists x :: x in r && x.key == e.key)
    decreases |s|
  {
    hide KeyLess, DropKey;
    if s != [] {
      var x, t := s[0], DropKey(s[1..], s[0].key);
      DropKeyStrict(s);
      FirstPerKeyMeaning(t);
      var r, f := FirstPerKey(s), FirstPerKey(t);
      assert r == [x] + f;
      forall e | e in f ensures KeyLess(x.key, e.key) && Versions(s, e.key) != [] && e == Versions(s, e.key)[0] {
        VersionsMembers(t, e.key, e);
        DropKeyVersions(s, e.key, e);
      }
      forall e | e in s ensures exists y :: y in r && y.key == e.key {
        if e.key == x.key { assert x in r; } else { assert e in t; var y :| y in f && y.key == e.key; assert y in r; }
      }
      assert Versions(s, x.key)[0] == x;
    }
  }

  lemma {:induction false} DropKeyVersions(s: seq<Entry>, k: Key, e: Entry)
    requires s != [] && KeySorted(s) && e in DropKey(s[1..], s[0].key) && e.key == k
    ensures Versions(s, k) == Versions(DropKey(s[1..], s[0].key), k) && KeyLess(s[0].key, k)
  {
    hide DropKey, KeyLess, Versions;
    DropKeyStrict(s);
    var r := DropKey(s[1..], s[0].key);
    DropKeySuffix(s[1..], s[0].key);
    var n := |s| - |r|;
    KeyTrichotomy(s[0].key, k);
    forall i | 0 <= i < n ensures s[i].key != k {
      if i > 0 { assert s[i] == s[1..][i - 1]; }
    }
    VersionsOfSuffix(s[..n], r, k);
    assert s == s[..n] + r;
  }

  lemma {:induction false} VersionsOfSuffix(p: seq<Entry>, r: seq<Entry>, k: Key)
    requires forall i :: 0 <= i < |p| ==> p[i].key != k
    ensures Versions(p + r, k) == Versions(r, k)
  {
    hide Versions;
    VersionsConcat(p, r, k);
    NoVersions(p, k);
    assert [] + Versions(r, k) == Versions(r, k);
  }

  // ---- what a view means ------------------------------------------------------------------------

  /** The version of `k` a reader with id `t` gets from a store listed newest first per key. */
  function ReadAt(s: seq<Entry>, k: Key, t: nat): Option<Entry> {
    FirstVisible(Versions(s, k), t)
  }

  /** `r` is what a snapshot read of `k` at `t` must return. */
  ghost predicate SnapshotRead(store: multiset<Entry>, k: Key, t: nat, r: Option<Entry>) {
    match r
    case Some(e) => IsNewest(store, k, t, e)
    case None => forall e :: e in store && e.key == k ==> !Visible(e, t)
  }

  lemma {:induction false} VersionsDescend(s: seq<Entry>, k: Key)
    requires EntrySorted(s)
    ensures Descending(Versions(s, k))
  {
    if s != [] {
      VersionsDescend(s[1..], k);
      var v := Versions(s[1..], k);
      forall i | 0 <= i < |v| && s[0].key == k ensures s[0].tid > v[i].tid {
        VersionsMembers(s[1..], k, v[i]);
        assert EntryLess(s[0], v[i]);
      }
    }
  }

  lemma {:induction false} FirstVisibleIsNewest(s: seq<Entry>, t: nat, e: Entry)
    requires Descending(s) && FirstVisible(s, t) == Some(e)
    ensures forall x :: x in s && Visible(x, t) ==> x.tid <= e.tid
  {
    if !Visible(s[0], t) {
      FirstVisibleIsNewest(s[1..], t, e);
      assert s == [s[0]] + s[1..];
    }
  }

  /** Reading a sorted store returns the newest visible version, whatever `k` and `t` are. */
  lemma {:induction false} SortedStoreReads(s: seq<Entry>, k: Key, t: nat)
    requires EntrySorted(s)
    ensures SnapshotRead(multiset(s), k, t, ReadAt(s, k, t))
  {
    hide EntryLess, KeyLess;
    VersionsDescend(s, k);
    var v, r := Versions(s, k), ReadAt(s, k, t);
    forall e: Entry ensures e in v <==> e in multiset(s) && e.key == k {
      VersionsMembers(s, k, e);
    }
    if r.Some? {
      FirstVisibleIsNewest(v, t, r.value);
    }
  }

  /** The query view holds exactly the newest visible version of every key that has one, in
      strictly ascending key order. */
  lemma {:induction false} QueryViewMeaning(s: seq<Entry>, t: nat, e: Entry)
    requires EntrySorted(s)
    ensures StrictKeys(View(s, t, false))
    ensures e in View(s, t, false) <==> IsNewest(multiset(s), e.key, t, e)
  {
    hide AllVisible, FirstPerKey, Versions;
    var v := AllVisible(s, t);
    AllVisibleKeepsOrder(s, t);
    SortedIsKeySorted(v);
    FirstPerKeyMeaning(v);
    forall x: Entry ensures x in v <==> x in multiset(s) && Visible(x, t) {
      AllVisibleMember(s, t, x);
    }
    if e in FirstPerKey(v) {
      FirstIsNewest(v, e);
    }
    if IsNewest(multiset(s), e.key, t, e) {
      var x :| x in FirstPerKey(v) && x.key == e.key;
      FirstIsNewest(v, x);
      SameVersion(v, x, e);
    }
  }

  lemma {:induction false} FirstIsNewest(v: seq<Entry>, e: Entry)
    requires EntrySorted(v) && Versions(v, e.key) != [] && e == Versions(v, e.key)[0]
    ensures e in v && forall x :: x in v && x.key == e.key ==> x.tid <= e.tid
  {
    VersionsDescend(v, e.key);
    VersionsMembers(v, e.key, e);
    forall x | x in v && x.key == e.key ensures x.tid <= e.tid {
      VersionsMembers(v, e.key, x);
    }
  }

  lemma {:induction false} SameVersion(v: seq<Entry>, x: Entry, e: Entry)
    requires EntrySorted(v) && x in v && e in v && x.key == e.key && x.tid == e.tid
    ensures x == e
  {
    var i :| 0 <= i < |v| && v[i] == x;
    var j :| 0 <= j < |v| && v[j] == e;
  }

  lemma {:induction false} SortedIsKeySorted(s: seq<Entry>)
    requires EntrySorted(s)
    ensures KeySorted(s)
  {
    var _ := KeyOrder();
    forall i, j | 0 <= i < j < |s| ensures !KeyLess(s[j].key, s[i].key) {
      assert EntryLess(s[i], s[j]);
    }
  }

  /** The compaction view holds every visible version, in node order. */
  lemma {:induction false} FullViewMeaning(s: seq<Entry>, t: nat, e: Entry)
    requires EntrySorted(s)
    ensures EntrySorted(View(s, t, true))
    ensures e in View(s, t, true) <==> e in s && Visible(e, t)
  {
    AllVisibleKeepsOrder(s, t);
    AllVisibleMember(s, t, e);
  }

  // ---- merging two streams ----------------------------------------------------------------------

  /** Compaction: every version survives; at equal keys the newer one goes first. */
  function MergeAll(a: seq<Entry>, b: seq<Entry>): seq<Entry>
    decreases |a| + |b|
  {
    if a == [] then b
    else if b == [] then a
    else if EntryLess(a[0], b[0]) then [a[0]] + MergeAll(a[1..], b)
    else [b[0]] + MergeAll(a, b[1..])
  }

  lemma {:induction false} MergeAllKeeps(a: seq<Entry>, b: seq<Entry>)
    ensures multiset(MergeAll(a, b)) == multiset(a) + multiset(b)
    decreases |a| + |b|
  {
    if a != [] && b != [] {
      assert a == [a[0]] + a[1..] && b == [b[0]] + b[1..];
      if EntryLess(a[0], b[0]) { MergeAllKeeps(a[1..], b); } else { MergeAllKeeps(a, b[1..]); }
    }
  }

  /** No version occurs in both streams. */
  ghost predicate Apart(a: seq<Entry>, b: seq<Entry>) {
    forall i, j :: 0 <= i < |a| && 0 <= j < |b| ==> a[i].key != b[j].key || a[i].tid != b[j].tid
  }

  lemma {:induction false} EntryOrder(x: Entry, y: Entry, z: Entry)
    ensures EntryLess(x, y) && EntryLess(y, z) ==> EntryLess(x, z)
    ensures EntryLess(x, y) || EntryLess(y, x) || (x.key == y.key && x.tid == y.tid)
  {
    var _ := KeyOrder();
    KeyTrichotomy(x.key, y.key);
    KeyTrichotomy(x.key, z.key);
  }

  lemma {:induction false} MergeAllSorted(a: seq<Entry>, b: seq<Entry>)
    requires EntrySorted(a) && EntrySorted(b) && Apart(a, b)
    ensures EntrySorted(MergeAll(a, b))
    decreases |a| + |b|
  {
    hide EntryLess;
    if a != [] && b != [] {
      EntryOrder(a[0], b[0], b[0]);
      if EntryLess(a[0], b[0]) {
        MergeAllSorted(a[1..], b);
        MergeAllLower(a[0], a[1..], b);
      } else {
        MergeAllSorted(a, b[1..]);
        MergeAllLower(b[0], a, b[1..]);
      }
    }
  }

  /** An entry below both heads is below everything the merge yields. */
  lemma {:induction false} MergeAllLower(x: Entry, a: seq<Entry>, b: seq<Entry>)
    requires EntrySorted(a) && EntrySorted(b)
    requires (a != [] ==> EntryLess(x, a[0])) && (b != [] ==> EntryLess(x, b[0]))
    ensures forall i :: 0 <= i < |MergeAll(a, b)| ==> EntryLess(x, MergeAll(a, b)[i])
  {
    hide EntryLess, MergeAll;
    MergeAllKeeps(a, b);
    var m := MergeAll(a, b);
    forall i | 0 <= i < |m| ensures EntryLess(x, m[i]) {
      assert m[i] in multiset(m);
      if m[i] in a {
        var j :| 0 <= j < |a| && a[j] == m[i];
        EntryOrder(x, a[0], a[j]);
      } else {
        var j :| 0 <= j < |b| && b[j] == m[i];
        EntryOrder(x, b[0], b[j]);
      }
    }
  }

  /** Query: stream `a` is newer and hides equal keys of `b`. */
  function Override(a: seq<Entry>, b: seq<Entry>): seq<Entry>
    decreases |a| + |b|
  {
    if a == [] then b
    else if b == [] then a
    else if a[0].key == b[0].key then Override(a, b[1..])
    else if KeyLess(a[0].key, b[0].key) then [a[0]] + Override(a[1..], b)
    else [b[0]] + Override(a, b[1..])
  }

  /** A stream read as a map from keys to entries. */
  function Lookup(s: seq<Entry>, k: Key): (r: Option<Entry>) {
    if s == [] then None else if s[0].key == k then Some(s[0]) else Lookup(s[1..], k)
  }

  lemma {:induction false} LookupMember(s: seq<Entry>, k: Key)
    ensures Lookup(s, k).Some? ==> Lookup(s, k).value in s && Lookup(s, k).value.key == k
    ensures Lookup(s, k).None? ==> forall e :: e in s ==> e.key != k
  {
    if s != [] {
      LookupMember(s[1..], k);
      assert s == [s[0]] + s[1..];
    }
  }

  /** A key below the first one is not in the stream. */
  lemma {:induction false} LookupBelow(s: seq<Entry>, k: Key)
    requires StrictKeys(s) && (s != [] ==> KeyLess(k, s[0].key))
    ensures Lookup(s, k).None?
  {
    hide KeyLess, Lookup, StrictKeys;
    BelowFirst(k, s);
    LookupBeyond(s, k);
  }

  lemma {:induction false} OverrideMembers(a: seq<Entry>, b: seq<Entry>)
    ensures forall e :: e in Override(a, b) ==> e in a || e in b
    decreases |a| + |b|
  {
    if a != [] && b != [] {
      assert a == [a[0]] + a[1..] && b == [b[0]] + b[1..];
      if a[0].key == b[0].key { OverrideMembers(a, b[1..]); }
      else if KeyLess(a[0].key, b[0].key) { OverrideMembers(a[1..], b); }
      else { OverrideMembers(a, b[1..]); }
    }
  }

  ghost predicate Below(k: Key, s: seq<Entry>) {
    forall i :: 0 <= i < |s| ==> KeyLess(k, s[i].key)
  }

  lemma {:induction false} BelowFirst(k: Key, s: seq<Entry>)
    requires StrictKeys(s) && (s != [] ==> KeyLess(k, s[0].key))
    ensures Below(k, s)
  {
    hide KeyLess;
    var _ := KeyOrder();
    forall i | 0 <= i < |s| ensures KeyLess(k, s[i].key) {
      assert i == 0 || KeyLess(s[0].key, s[i].key);
    }
  }

  lemma {:induction false} BelowOverride(k: Key, a: seq<Entry>, b: seq<Entry>)
    requires Below(k, a) && Below(k, b)
    ensures Below(k, Override(a, b))
  {
    hide KeyLess, Override;
    OverrideMembers(a, b);
    var r := Override(a, b);
    forall i | 0 <= i < |r| ensures KeyLess(k, r[i].key) {
      assert r[i] in r;
    }
  }

  lemma {:induction false} StrictCons(e: Entry, s: seq<Entry>)
    requires StrictKeys(s) && Below(e.key, s)
    ensures StrictKeys([e] + s)
  {
  }

  lemma {:induction false} StrictTail(s: seq<Entry>)
    requires StrictKeys(s) && s != []
    ensures StrictKeys(s[1..]) && Below(s[0].key, s[1..])
  {
    var t := s[1..];
    forall i | 0 <= i < |t| ensures t[i] == s[i + 1] {}
  }

  lemma {:induction false} OverrideStrict(a: seq<Entry>, b: seq<Entry>)
    requires StrictKeys(a) && StrictKeys(b)
    ensures StrictKeys(Override(a, b))
    decreases |a| + |b|
  {
    hide KeyLess, StrictKeys, Below;
    if a != [] && b != [] {
      StrictTail(a);
      StrictTail(b);
      if a[0].key == b[0].key {
        OverrideStrict(a, b[1..]);
      } else if KeyLess(a[0].key, b[0].key) {
        OverrideStrict(a[1..], b);
        BelowFirst(a[0].key, b);
        BelowOverride(a[0].key, a[1..], b);
        StrictCons(a[0], Override(a[1..], b));
      } else {
        OverrideStrict(a, b[1..]);
        KeyTrichotomy(a[0].key, b[0].key);
        BelowFirst(b[0].key, a);
        BelowOverride(b[0].key, a, b[1..]);
        StrictCons(b[0], Override(a, b[1..]));
      }
    }
  }

  /** The merged stream is `b` overridden by `a`, as maps. */
  lemma {:induction false} OverrideMeaning(a: seq<Entry>, b: seq<Entry>, k: Key)
    requires StrictKeys(a) && StrictKeys(b)
    ensures Lookup(Override(a, b), k) == if Lookup(a, k).Some? then Lookup(a, k) else Lookup(b, k)
    decreases |a| + |b|
  {
    hide KeyLess, StrictKeys;
    if a != [] && b != [] {
      StrictTail(a);
      StrictTail(b);
      if a[0].key == b[0].key {
        OverrideMeaning(a, b[1..], k);
      } else if KeyLess(a[0].key, b[0].key) {
        OverrideMeaning(a[1..], b, k);
        LookupHead(a[0], Override(a[1..], b), k);
      } else {
        OverrideMeaning(a, b[1..], k);
        LookupHead(b[0], Override(a, b[1..]), k);
        if k == b[0].key {
          KeyTrichotomy(a[0].key, k);
          LookupBelow(a, k);
        }
      }
    }
  }

  lemma {:induction false} LookupHead(e: Entry, s: seq<Entry>, k: Key)
    ensures Lookup([e] + s, k) == if e.key == k then Some(e) else Lookup(s, k)
  {
    assert ([e] + s)[1..] == s;
  }

  // ---- merging many streams ---------------------------------------------------------------------

  ghost predicate AllStrict(ss: seq<seq<Entry>>) {
    forall i :: 0 <= i < |ss| ==> StrictKeys(ss[i])
  }

  ghost predicate Exhausted(ss: seq<seq<Entry>>) {
    forall i :: 0 <= i < |ss| ==> ss[i] == []
  }

  /** `i` is the stream whose first key is smallest, the lowest such index on a tie. */
  ghost predicate IsFront(ss: seq<seq<Entry>>, i: nat) {
    && i < |ss| && ss[i] != []
    && (forall j :: 0 <= j < |ss| && ss[j] != [] ==> !KeyLess(ss[j][0].key, ss[i][0].key))
    && (forall j :: 0 <= j < i && ss[j] != [] ==> ss[j][0].key != ss[i][0].key)
  }

  /** Every stream moved past key `k`. */
  ghost function SkipKey(ss: seq<seq<Entry>>, k: Key): (r: seq<seq<Entry>>)
    ensures |r| == |ss| && forall i :: 0 <= i < |ss| ==> r[i] == DropKey(ss[i], k)
  {
    seq(|ss|, i requires 0 <= i < |ss| => DropKey(ss[i], k))
  }

  /** The layered map: the stream with the lowest index decides. */
  ghost function Layered(ss: seq<seq<Entry>>, k: Key): Option<Entry> {
    if ss == [] then None
    else if Lookup(ss[0], k).Some? then Lookup(ss[0], k)
    else Layered(ss[1..], k)
  }

  /** All streams merged: each overrides those with a higher index. */
  ghost function Flatten(ss: seq<seq<Entry>>): seq<Entry> {
    if ss == [] then [] else Override(ss[0], Flatten(ss[1..]))
  }

  lemma {:induction false} FlattenMeaning(ss: seq<seq<Entry>>)
    requires AllStrict(ss)
    ensures StrictKeys(Flatten(ss))
    ensures forall k :: Lookup(Flatten(ss), k) == Layered(ss, k)
  {
    if ss != [] {
      hide Lookup, Override, StrictKeys;
      FlattenMeaning(ss[1..]);
      OverrideStrict(ss[0], Flatten(ss[1..]));
      forall k: Key ensures Lookup(Flatten(ss), k) == Layered(ss, k) {
        OverrideMeaning(ss[0], Flatten(ss[1..]), k);
      }
    }
  }

  lemma {:induction false} FlattenExhausted(ss: seq<seq<Entry>>)
    requires Exhausted(ss)
    ensures Flatten(ss) == []
  {
    if ss != [] {
      FlattenExhausted(ss[1..]);
    }
  }

  /** The front entry comes first, and what follows is the merge of the streams moved past it. */
  lemma {:induction false} FlattenStep(ss: seq<seq<Entry>>, i: nat)
    requires AllStrict(ss) && IsFront(ss, i)
    ensures Flatten(ss) == [ss[i][0]] + Flatten(SkipKey(ss, ss[i][0].key))
  {
    hide KeyLess, StrictKeys, Override, DropKey;
    var k, a, rest := ss[i][0].key, ss[0], ss[1..];
    assert SkipKey(ss, k)[0] == DropKey(a, k);
    assert SkipKey(ss, k)[1..] == SkipKey(rest, k);
    if i == 0 {
      SkipFront(a);
      FlattenAtLeast(rest, k);
      FlattenSkip(rest, k);
      OverrideFront(a, Flatten(rest));
    } else {
      assert IsFront(rest, i - 1);
      FlattenStep(rest, i - 1);
      assert a != [] ==> KeyLess(k, a[0].key) by { if a != [] { KeyTrichotomy(k, a[0].key); } }
      SkipNothing(a, k);
      OverrideBehind(a, Flatten(rest));
    }
  }

  /** Dropping the first key of a strict stream drops its first entry. */
  lemma {:induction false} SkipFront(a: seq<Entry>)
    requires a != [] && StrictKeys(a)
    ensures DropKey(a, a[0].key) == a[1..]
  {
    if |a| > 1 {
      KeyTrichotomy(a[0].key, a[1].key);
      assert a[1..][0] == a[1];
    }
  }

  lemma SkipNothing(a: seq<Entry>, k: Key)
    requires a != [] ==> KeyLess(k, a[0].key)
    ensures DropKey(a, k) == a
  {
    KeyTrichotomy(k, k);
  }

  /** Moving past `k` leaves a strict stream of larger keys. */
  lemma {:induction false} SkipStrict(b: seq<Entry>, k: Key)
    requires StrictKeys(b) && (b != [] ==> !KeyLess(b[0].key, k))
    ensures StrictKeys(DropKey(b, k)) && Below(k, DropKey(b, k))
  {
    hide KeyLess, StrictKeys, Below;
    if b == [] {
      BelowFirst(k, b);
    } else if b[0].key == k {
      SkipFront(b);
      StrictTail(b);
    } else {
      KeyTrichotomy(k, b[0].key);
      SkipNothing(b, k);
      BelowFirst(k, b);
    }
  }

  lemma {:induction false} OverrideFront(a: seq<Entry>, b: seq<Entry>)
    requires a != [] && StrictKeys(a) && StrictKeys(b) && (b != [] ==> !KeyLess(b[0].key, a[0].key))
    ensures Override(a, b) == [a[0]] + Override(a[1..], DropKey(b, a[0].key))
  {
    hide KeyLess, StrictKeys;
    var k := a[0].key;
    assert a == [a[0]] + a[1..];
    if b != [] && b[0].key == k {
      SkipFront(b);
      SkipStrict(b, k);
      assert b[1..] != [] ==> KeyLess(k, b[1..][0].key);
      KeyTrichotomy(k, k);
    } else if b != [] {
      KeyTrichotomy(k, b[0].key);
      SkipNothing(b, k);
    }
  }

  lemma {:induction false} OverrideBehind(a: seq<Entry>, b: seq<Entry>)
    requires b != [] && (a != [] ==> KeyLess(b[0].key, a[0].key))
    ensures Override(a, b) == [b[0]] + Override(a, b[1..])
  {
    if a != [] {
      KeyTrichotomy(a[0].key, b[0].key);
    } else {
      assert b == [b[0]] + b[1..];
    }
  }

  lemma {:induction false} SkippedAlready(x: Entry, a: seq<Entry>, b: seq<Entry>)
    requires Below(x.key, a) && Below(x.key, b)
    ensures DropKey([x] + Override(a, b), x.key) == Override(a, b)
  {
    hide KeyLess, Override;
    BelowOverride(x.key, a, b);
    SkipNothing(Override(a, b), x.key);
    assert ([x] + Override(a, b))[1..] == Override(a, b);
  }

  lemma {:induction false} FlattenAtLeast(ss: seq<seq<Entry>>, k: Key)
    requires AllStrict(ss) && forall j :: 0 <= j < |ss| && ss[j] != [] ==> !KeyLess(ss[j][0].key, k)
    ensures StrictKeys(Flatten(ss))
    ensures forall i :: 0 <= i < |Flatten(ss)| ==> !KeyLess(Flatten(ss)[i].key, k)
  {
    if ss != [] {
      hide KeyLess, Override;
      var a, f := ss[0], Flatten(ss[1..]);
      FlattenAtLeast(ss[1..], k);
      OverrideStrict(a, f);
      OverrideMembers(a, f);
      var r := Flatten(ss);
      forall i | 0 <= i < |r| ensures !KeyLess(r[i].key, k) {
        assert r[i] in r;
        if r[i] in a {
          var j :| 0 <= j < |a| && a[j] == r[i];
          AtLeast(a, j, k);
        }
      }
    }
  }

  lemma {:induction false} AtLeast(a: seq<Entry>, j: nat, k: Key)
    requires StrictKeys(a) && j < |a| && !KeyLess(a[0].key, k)
    ensures !KeyLess(a[j].key, k)
  {
    var _ := KeyOrder();
    assert j == 0 || KeyLess(a[0].key, a[j].key);
  }

  lemma {:induction false} FlattenSkip(ss: seq<seq<Entry>>, k: Key)
    requires AllStrict(ss) && forall j :: 0 <= j < |ss| && ss[j] != [] ==> !KeyLess(ss[j][0].key, k)
    ensures Flatten(SkipKey(ss, k)) == DropKey(Flatten(ss), k)
  {
    hide KeyLess, StrictKeys, Override, DropKey;
    if ss == [] {
      assert DropKey([], k) == [];
    } else {
      var a, rest := ss[0], ss[1..];
      assert SkipKey(ss, k)[0] == DropKey(a, k);
      assert SkipKey(ss, k)[1..] == SkipKey(rest, k);
      FlattenSkip(rest, k);
      FlattenAtLeast(rest, k);
      OverrideSkip(a, Flatten(rest), k);
    }
  }

  lemma {:induction false} OverrideSkip(a: seq<Entry>, b: seq<Entry>, k: Key)
    requires StrictKeys(a) && StrictKeys(b)
    requires (a != [] ==> !KeyLess(a[0].key, k)) && (b != [] ==> !KeyLess(b[0].key, k))
    ensures DropKey(Override(a, b), k) == Override(DropKey(a, k), DropKey(b, k))
  {
    hide KeyLess, StrictKeys, Override, DropKey, Below;
    SkipStrict(a, k);
    SkipStrict(b, k);
    if a != [] && a[0].key == k {
      SkipFront(a);
      OverrideFront(a, b);
      SkippedAlready(a[0], a[1..], DropKey(b, k));
    } else {
      if a != [] { KeyTrichotomy(k, a[0].key); }
      SkipNothing(a, k);
      if b != [] && b[0].key == k {
        SkipFront(b);
        OverrideBehind(a, b);
        SkippedAlready(b[0], a, b[1..]);
      } else {
        if b != [] { KeyTrichotomy(k, b[0].key); }
        SkipNothing(b, k);
        BelowOverride(k, a, b);
        SkipBelow(Override(a, b), k);
      }
    }
  }

  lemma SkipBelow(s: seq<Entry>, k: Key)
    requires Below(k, s)
    ensures DropKey(s, k) == s
  {
    SkipNothing(s, k);
  }

  // ---- deletion marks in a layered store ----------------------------------------------------------

  /** What a scan that leaves deleted keys out finds for `k`. */
  function LiveValue(r: Option<Entry>): Option<Entry> {
    if r.Some? && r.value.value != [] then r else None
  }

  lemma {:induction false} LiveStrict(s: seq<Entry>)
    requires StrictKeys(s)
    ensures StrictKeys(Live(s))
  {
    if s != [] {
      hide KeyLess, StrictKeys;
      StrictTail(s);
      LiveStrict(s[1..]);
      if s[0].value != [] {
        BelowLive(s[0].key, s[1..]);
        StrictCons(s[0], Live(s[1..]));
      }
    }
  }

  lemma {:induction false} BelowLive(k: Key, s: seq<Entry>)
    requires Below(k, s)
    ensures Below(k, Live(s))
  {
    hide KeyLess, Live;
    var r := Live(s);
    forall i | 0 <= i < |r| ensures KeyLess(k, r[i].key) {
      LiveMember(s, r[i]);
    }
  }

  lemma {:induction false} LiveLookup(s: seq<Entry>, k: Key)
    requires StrictKeys(s)
    ensures Lookup(Live(s), k) == LiveValue(Lookup(s, k))
  {
    if s != [] {
      hide KeyLess, StrictKeys;
      StrictTail(s);
      LiveLookup(s[1..], k);
      LookupHead(s[0], Live(s[1..]), k);
      if s[0].key == k {
        LookupBeyond(s[1..], k);
      }
    }
  }

  lemma {:induction false} LookupBeyond(s: seq<Entry>, k: Key)
    requires Below(k, s)
    ensures Lookup(s, k).None?
  {
    LookupMember(s, k);
    if Lookup(s, k).Some? {
      KeyTrichotomy(k, k);
    }
  }

  /** A strict stream is determined by the map it stands for. */
  lemma {:induction false} MapDeterminesStream(a: seq<Entry>, b: seq<Entry>)
    requires StrictKeys(a) && StrictKeys(b) && forall k :: Lookup(a, k) == Lookup(b, k)
    ensures a == b
  {
    if a == [] {
      var k := if b == [] then [] else b[0].key;
      assert Lookup(a, k) == Lookup(b, k);
    } else {
      assert Lookup(a, a[0].key) == Lookup(b, a[0].key);
      assert b != [];
      assert Lookup(a, b[0].key) == Lookup(b, b[0].key);
      hide KeyLess, StrictKeys;
      SameFirst(a, b);
      StrictTail(a);
      StrictTail(b);
      assert a == [a[0]] + a[1..] && b == [b[0]] + b[1..];
      forall k: Key ensures Lookup(a[1..], k) == Lookup(b[1..], k) {
        assert Lookup(a, k) == Lookup(b, k);
        if k == a[0].key {
          LookupBeyond(a[1..], k);
          LookupBeyond(b[1..], k);
        }
      }
      MapDeterminesStream(a[1..], b[1..]);
    }
  }

  lemma {:induction false} SameFirst(a: seq<Entry>, b: seq<Entry>)
    requires StrictKeys(a) && StrictKeys(b) && a != [] && b != []
    requires Lookup(b, a[0].key) == Some(a[0]) && Lookup(a, b[0].key) == Some(b[0])
    ensures a[0] == b[0]
  {
    hide KeyLess, StrictKeys;
    KeyTrichotomy(a[0].key, b[0].key);
    if KeyLess(a[0].key, b[0].key) { LookupBelow(b, a[0].key); }
    if KeyLess(b[0].key, a[0].key) { LookupBelow(a, b[0].key); }
  }

  lemma {:induction false} StrictLookup(s: seq<Entry>, e: Entry)
    requires StrictKeys(s)
    ensures e in s <==> Lookup(s, e.key) == Some(e)
  {
    if s != [] {
      hide KeyLess, StrictKeys;
      StrictTail(s);
      StrictLookup(s[1..], e);
      assert s == [s[0]] + s[1..];
      if s[0].key == e.key {
        LookupBeyond(s[1..], e.key);
      }
    }
  }

  /** The scan of a layered store: each key once, ascending, with the value of the first layer
      that has it, and no deleted key. */
  lemma {:induction false} ScanIsLayeredMap(ss: seq<seq<Entry>>, e: Entry)
    requires AllStrict(ss)
    ensures StrictKeys(Live(Flatten(ss)))
    ensures e in Live(Flatten(ss)) <==> Layered(ss, e.key) == Some(e) && e.value != []
  {
    hide Flatten, Live, Lookup, Layered, StrictKeys;
    FlattenMeaning(ss);
    LiveStrict(Flatten(ss));
    LiveLookup(Flatten(ss), e.key);
    StrictLookup(Live(Flatten(ss)), e);
  }

  lemma {:induction false} LayeredSplit(a: seq<seq<Entry>>, b: seq<seq<Entry>>, k: Key)
    ensures Layered(a + b, k) == if Layered(a, k).Some? then Layered(a, k) else Layered(b, k)
  {
    hide Lookup;
    if a == [] {
      assert a + b == b;
    } else {
      LayeredSplit(a[1..], b, k);
      assert (a + b)[1..] == a[1..] + b;
    }
  }

  /** Streams `upper` above `mid` above `lower`: `mid` holds the deciding deletion of `k` while
      a live version waits below it. */
  ghost predicate Resurrects(upper: seq<seq<Entry>>, mid: seq<Entry>, lower: seq<seq<Entry>>, k: Key) {
    && Layered(upper, k).None?
    && Lookup(mid, k).Some? && Lookup(mid, k).value.value == []
    && LiveValue(Layered(lower, k)).Some?
  }

  lemma {:induction false} LayeredThree(upper: seq<seq<Entry>>, mid: seq<Entry>, lower: seq<seq<Entry>>, k: Key)
    ensures Layered(upper + [mid] + lower, k) ==
            if Layered(upper, k).Some? then Layered(upper, k)
            else if Lookup(mid, k).Some? then Lookup(mid, k)
            else Layered(lower, k)
  {
    hide Lookup;
    LayeredSplit(upper + [mid], lower, k);
    LayeredSplit(upper, [mid], k);
  }

  /** Dropping the deletion marks of one layer before the merge changes the scan exactly when
      such a mark hides a live version of a lower layer. */
  lemma {:induction false} DroppingMarksIff(upper: seq<seq<Entry>>, mid: seq<Entry>, lower: seq<seq<Entry>>)
    requires AllStrict(upper + [mid] + lower)
    ensures Live(Flatten(upper + [Live(mid)] + lower)) == Live(Flatten(upper + [mid] + lower)) <==>
            forall k :: !Resurrects(upper, mid, lower, k)
  {
    hide Live, Flatten, Lookup, Layered, StrictKeys;
    var full, dropped := upper + [mid] + lower, upper + [Live(mid)] + lower;
    assert full[|upper|] == mid;
    LiveStrict(mid);
    assert AllStrict(dropped) by {
      forall i | 0 <= i < |dropped| ensures StrictKeys(dropped[i]) {
        assert i != |upper| ==> dropped[i] == full[i];
      }
    }
    FlattenMeaning(full);
    FlattenMeaning(dropped);
    LiveStrict(Flatten(full));
    LiveStrict(Flatten(dropped));
    forall k: Key
      ensures Lookup(Live(Flatten(dropped)), k) == Lookup(Live(Flatten(full)), k) <==>
              !Resurrects(upper, mid, lower, k)
    {
      LiveLookup(Flatten(full), k);
      LiveLookup(Flatten(dropped), k);
      LiveLookup(mid, k);
      LayeredThree(upper, mid, lower, k);
      LayeredThree(upper, Live(mid), lower, k);
    }
    if forall k :: !Resurrects(upper, mid, lower, k) {
      MapDeterminesStream(Live(Flatten(dropped)), Live(Flatten(full)));
    }
  }

  lemma {:induction false} LayeredCons(a: seq<Entry>, rest: seq<seq<Entry>>, k: Key)
    ensures Layered([a] + rest, k) == if Lookup(a, k).Some? then Lookup(a, k) else Layered(rest, k)
  {
    hide Lookup;
    assert ([a] + rest)[1..] == rest;
  }

  /** The same for the two uppermost layers: the scan changes exactly when a mark of the first hides a live
      version of what is left below, or a mark of the second decides and hides one of the lower layers. */
  lemma {:induction false} DroppingTwoIff(mem: seq<Entry>, mid: seq<Entry>, lower: seq<seq<Entry>>)
    requires StrictKeys(mem) && StrictKeys(mid) && AllStrict(lower)
    ensures Live(Flatten([Live(mem)] + ([Live(mid)] + lower))) == Live(Flatten([mem] + ([mid] + lower))) <==>
            forall k :: !Resurrects([], mem, [Live(mid)] + lower, k) && !Resurrects([mem], mid, lower, k)
  {
    hide Live, Flatten, Lookup, Layered, StrictKeys;
    var full, dropped := [mem] + ([mid] + lower), [Live(mem)] + ([Live(mid)] + lower);
    LiveStrict(mem);
    LiveStrict(mid);
    forall i | 0 <= i < |full| ensures StrictKeys(full[i]) && StrictKeys(dropped[i]) {
      assert i >= 2 ==> full[i] == lower[i - 2] && dropped[i] == lower[i - 2];
    }
    FlattenMeaning(full);
    FlattenMeaning(dropped);
    LiveStrict(Flatten(full));
    LiveStrict(Flatten(dropped));
    forall k: Key
      ensures Lookup(Live(Flatten(dropped)), k) == Lookup(Live(Flatten(full)), k) <==>
              !Resurrects([], mem, [Live(mid)] + lower, k) && !Resurrects([mem], mid, lower, k)
    {
      LiveLookup(Flatten(full), k);
      LiveLookup(Flatten(dropped), k);
      LiveLookup(mem, k);
      LiveLookup(mid, k);
      LayeredCons(mem, [mid] + lower, k);
      LayeredCons(Live(mem), [Live(mid)] + lower, k);
      LayeredCons(mid, lower, k);
      LayeredCons(Live(mid), lower, k);
      LayeredLone(mem, k);
    }
    if forall k :: !Resurrects([], mem, [Live(mid)] + lower, k) && !Resurrects([mem], mid, lower, k) {
      MapDeterminesStream(Live(Flatten(dropped)), Live(Flatten(full)));
    }
  }

  lemma LayeredLone(a: seq<Entry>, k: Key)
    ensures Layered([a], k) == Lookup(a, k) && Layered([], k).None?
  {
    assert [a][1..] == [];
  }

  /** Two layers: without the upper one's deletion mark the deleted value of the lower one comes back. */
  lemma {:induction false} DroppedMarkResurrects()
    ensures var mark, old' := Entry([1], [], 2), Entry([1], [10], 1);
            && Live(Flatten([] + [[mark]] + [[old']])) == [] && Live(Flatten([] + [Live([mark])] + [[old']])) == [old']
            && Resurrects([], [mark], [[old']], [1])
  {
    var mark, old' := Entry([1], [], 2), Entry([1], [10], 1);
    var low, full, dropped := [[old']], [] + [[mark]] + [[old']], [] + [Live([mark])] + [[old']];
    assert low[1..] == [] && full[1..] == low && dropped[1..] == low;
    assert [mark][1..] == [] && [old'][1..] == [];
    assert Flatten(low) == [old'] && Live([mark]) == [] && Live([old']) == [old'];
    assert Override([mark], [old']) == Override([mark], []) == [mark];
    assert Flatten(full) == [mark] && Flatten(dropped) == Override([], [old']) == [old'];
    assert Layered(low, [1]) == Some(old');
  }
}
