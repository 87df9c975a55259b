/** What a heap iterator yields from any queue: when its loops show exactly the versions they
    should, and when they swallow a live key. */
module HeapScans {
  import opened Keys
  import opened Entries
  import opened Streams
  import opened HeapIterators

  /** The iterator built on the queue `q`, run to its end. */
  function Scan(q: seq<Entry>, t: nat, skipDelete: bool, keepAll: bool): seq<Entry> {
    HeapScan(Settled(q, t, skipDelete, keepAll), t, skipDelete, keepAll)
  }

  /** What it should yield: the reader's view, without deletions if asked. */
  function Wanted(q: seq<Entry>, t: nat, skipDelete: bool, keepAll: bool): seq<Entry> {
    HeapOut(AllVisible(q, t), skipDelete, keepAll)
  }

  // ---- one step ----------------------------------------------------------------------------------

  /** An invisible top is dropped alone, in every mode. */
  lemma {:induction false} SettledPastInvisible(q: seq<Entry>, t: nat, skipDelete: bool, keepAll: bool)
    requires q != [] && !Visible(q[0], t)
    ensures Settled(q, t, skipDelete, keepAll) == Settled(q[1..], t, skipDelete, keepAll)
  {
    hide DropMarks;
    var n := q[1..];
    assert DropInvisible(q, t) == DropInvisible(n, t);
    if n != [] && Visible(n[0], t) && skipDelete {
      MarksAtTop(n, keepAll);
    }
    if n == [] {
      MarksOfNothing(keepAll);
    }
  }

  lemma MarksAtTop(q: seq<Entry>, keepAll: bool)
    requires q != []
    ensures DropMarks(q, keepAll) == if q[0].value == [] then DropMarks(AfterTop(q, keepAll), keepAll) else q
  {
  }

  lemma MarksOfNothing(keepAll: bool)
    ensures DropMarks([], keepAll) == []
  {
  }

  lemma {:induction false} ScanPastInvisible(q: seq<Entry>, t: nat, skipDelete: bool, keepAll: bool)
    requires q != [] && !Visible(q[0], t)
    ensures Scan(q, t, skipDelete, keepAll) == Scan(q[1..], t, skipDelete, keepAll)
  {
    hide Settled;
    SettledPastInvisible(q, t, skipDelete, keepAll);
  }

  /** A legal top is yielded and its key (or, if all versions are kept, it alone) is left behind. */
  lemma {:induction false} ScanYields(q: seq<Entry>, t: nat, skipDelete: bool, keepAll: bool)
    requires q != [] && TopLegal(q, t, skipDelete)
    ensures Scan(q, t, skipDelete, keepAll) == [q[0]] + Scan(AfterTop(q, keepAll), t, skipDelete, keepAll)
  {
    hide AfterTop, Round;
  }

  lemma ScanOfNothing(t: nat, skipDelete: bool, keepAll: bool)
    ensures Scan([], t, skipDelete, keepAll) == [] && Wanted([], t, skipDelete, keepAll) == []
  {
  }

  // ---- keeping all versions, or keeping deletions: always right ------------------------------------

  lemma {:induction false} WantedPastInvisible(q: seq<Entry>, t: nat, skipDelete: bool, keepAll: bool)
    requires q != [] && !Visible(q[0], t)
    ensures Wanted(q, t, skipDelete, keepAll) == Wanted(q[1..], t, skipDelete, keepAll)
  {
  }

  /** With all versions kept, dropping marks early does no harm. */
  lemma {:induction false} SettledPastMarks(q: seq<Entry>, t: nat)
    ensures Settled(DropMarks(q, true), t, true, true) == Settled(q, t, true, true)
    decreases |q|
  {
    hide Settled, Round;
    if q == [] {
      MarksOfNothing(true);
    } else {
      MarksAtTop(q, true);
      if q[0].value == [] {
        SettledPastMarks(q[1..], t);
        if Visible(q[0], t) {
          SettledAtMark(q, t, true);
        } else {
          SettledPastInvisible(q, t, true, true);
        }
      }
    }
  }

  /** A visible deletion at the top starts a round that drops marks. */
  lemma {:induction false} SettledAtMark(q: seq<Entry>, t: nat, keepAll: bool)
    requires q != [] && Visible(q[0], t) && q[0].value == []
    ensures Settled(q, t, true, keepAll) == Settled(DropMarks(AfterTop(q, keepAll), keepAll), t, true, keepAll)
  {
    hide DropMarks, AfterTop;
    MarksAtTop(q, keepAll);
  }

  lemma {:induction false} KeepAllExact(q: seq<Entry>, t: nat, skipDelete: bool)
    ensures Scan(q, t, skipDelete, true) == Wanted(q, t, skipDelete, true)
    decreases |q|
  {
    hide Settled, HeapScan, AllVisible, Live;
    if q == [] {
      ScanOfNothing(t, skipDelete, true);
    } else {
      var n := q[1..];
      KeepAllExact(n, t, skipDelete);
      if !Visible(q[0], t) {
        ScanPastInvisible(q, t, skipDelete, true);
        WantedPastInvisible(q, t, skipDelete, true);
      } else {
        KeepAllWanted(q, t, skipDelete);
        if skipDelete && q[0].value == [] {
          SettledAtMark(q, t, true);
          SettledPastMarks(n, t);
        } else {
          ScanYields(q, t, skipDelete, true);
        }
      }
    }
  }

  lemma {:induction false} KeepAllWanted(q: seq<Entry>, t: nat, skipDelete: bool)
    requires q != [] && Visible(q[0], t)
    ensures Wanted(q, t, skipDelete, true) ==
            (if skipDelete && q[0].value == [] then [] else [q[0]]) + Wanted(q[1..], t, skipDelete, true)
  {
    var v := AllVisible(q[1..], t);
    assert AllVisible(q, t) == [q[0]] + v;
    assert ([q[0]] + v)[1..] == v;
  }

  /** In a key-sorted list the versions of the first key all stand in front. */
  lemma {:induction false} VisiblePastKey(q: seq<Entry>, t: nat)
    requires q != [] && KeySorted(q)
    ensures var k := q[0].key;
            DropKey(AllVisible(q[1..], t), k) == AllVisible(DropKey(q[1..], k), t)
  {
    hide KeyLess;
    var k, n := q[0].key, q[1..];
    DropKeyStrict(q);
    DropKeySuffix(n, k);
    var r := DropKey(n, k);
    var g := n[..|n| - |r|];
    assert n == g + r;
    AllVisibleConcat(g, r, t);
    forall i | 0 <= i < |AllVisible(g, t)| ensures AllVisible(g, t)[i].key == k {
      AllVisibleMember(g, t, AllVisible(g, t)[i]);
    }
    forall i | 0 <= i < |AllVisible(r, t)| ensures AllVisible(r, t)[i].key != k {
      AllVisibleMember(r, t, AllVisible(r, t)[i]);
      KeyTrichotomy(k, k);
    }
    DropKeyPrefix(AllVisible(g, t), AllVisible(r, t), k);
  }

  /** In query mode a visible top decides its key. */
  lemma {:induction false} QueryWanted(q: seq<Entry>, t: nat, skipDelete: bool)
    requires q != [] && KeySorted(q) && Visible(q[0], t)
    ensures Wanted(q, t, skipDelete, false) ==
            (if skipDelete && q[0].value == [] then [] else [q[0]]) + Wanted(AfterTop(q, false), t, skipDelete, false)
  {
    hide DropKey, KeySorted;
    VisiblePastKey(q, t);
    var v := AllVisible(q[1..], t);
    assert AllVisible(q, t) == [q[0]] + v && ([q[0]] + v)[1..] == v;
    var f := FirstPerKey(AllVisible(AfterTop(q, false), t));
    assert FirstPerKey([q[0]] + v) == [q[0]] + f && ([q[0]] + f)[1..] == f;
  }

  lemma {:induction false} RestIsSorted(q: seq<Entry>)
    requires q != [] && KeySorted(q)
    ensures KeySorted(q[1..]) && KeySorted(AfterTop(q, false))
  {
    DropKeyStrict(q);
  }

  lemma {:induction false} KeepDeletionsExact(q: seq<Entry>, t: nat)
    requires KeySorted(q)
    ensures Scan(q, t, false, false) == Wanted(q, t, false, false)
    decreases |q|
  {
    hide Settled, HeapScan, AllVisible, FirstPerKey, DropKey, KeySorted, Wanted;
    if q == [] {
      ScanOfNothing(t, false, false);
    } else {
      RestIsSorted(q);
      if !Visible(q[0], t) {
        ScanPastInvisible(q, t, false, false);
        WantedPastInvisible(q, t, false, false);
        KeepDeletionsExact(q[1..], t);
      } else {
        ScanYields(q, t, false, false);
        QueryWanted(q, t, false);
        KeepDeletionsExact(AfterTop(q, false), t);
      }
    }
  }

  /** Whenever all versions or the deletions are kept, any queue is read right. */
  lemma {:induction false} OtherModesExact(q: seq<Entry>, t: nat, skipDelete: bool, keepAll: bool)
    requires keepAll || (!skipDelete && KeySorted(q))
    ensures Scan(q, t, skipDelete, keepAll) == Wanted(q, t, skipDelete, keepAll)
  {
    if keepAll {
      KeepAllExact(q, t, skipDelete);
    } else {
      KeepDeletionsExact(q, t);
    }
  }

  // ---- query mode without deletions ------------------------------------------------------------------

  /** The runs of equal keys. */
  function Groups(q: seq<Entry>): seq<seq<Entry>>
    decreases |q|
  {
    if q == [] then []
    else
      var r := DropKey(q[1..], q[0].key);
      [q[..|q| - |r|]] + Groups(r)
  }

  predicate Deleted(o: Option<Entry>) { o.Some? && o.value.value == [] }

  predicate IsLive(o: Option<Entry>) { o.Some? && o.value.value != [] }

  predicate MarkOnTop(g: seq<Entry>) { g != [] && g[0].value == [] }

  /** The newest version is a deletion the reader must not see, and below it a live one waits. */
  predicate Fragile(g: seq<Entry>, t: nat) {
    MarkOnTop(g) && !Visible(g[0], t) && IsLive(FirstVisible(g, t))
  }

  /** A fragile key is reached by a chain of keys topped by deletions. */
  ghost predicate Chained(gs: seq<seq<Entry>>, t: nat) {
    exists j :: 0 <= j < |gs| && Fragile(gs[j], t) && forall c :: 0 <= c < j ==> MarkOnTop(gs[c])
  }

  /** Such a chain starts behind a key that the reader sees deleted. */
  ghost predicate Swallowed(gs: seq<seq<Entry>>, t: nat) {
    exists i, j :: SwallowedAt(gs, t, i, j)
  }

  lemma {:induction false} ChainedStep(gs: seq<seq<Entry>>, t: nat)
    requires gs != []
    ensures Chained(gs, t) <==> Fragile(gs[0], t) || (MarkOnTop(gs[0]) && Chained(gs[1..], t))
  {
    hide Fragile, MarkOnTop;
    var rest := gs[1..];
    forall i | 0 <= i < |rest| ensures rest[i] == gs[i + 1] {}
    if Chained(gs, t) {
      var j :| 0 <= j < |gs| && Fragile(gs[j], t) && forall c :: 0 <= c < j ==> MarkOnTop(gs[c]);
      if j > 0 {
        assert rest[j - 1] == gs[j] && forall c :: 0 <= c < j - 1 ==> MarkOnTop(rest[c]);
      }
    }
    if MarkOnTop(gs[0]) && Chained(rest, t) {
      var j :| 0 <= j < |rest| && Fragile(rest[j], t) && forall c :: 0 <= c < j ==> MarkOnTop(rest[c]);
      forall c | 0 <= c < j + 1 ensures MarkOnTop(gs[c]) {
        assert c > 0 ==> gs[c] == rest[c - 1];
      }
      assert Fragile(gs[j + 1], t);
    }
  }

  ghost predicate SwallowedAt(gs: seq<seq<Entry>>, t: nat, i: int, j: int) {
    && 0 <= i < j < |gs| && Deleted(FirstVisible(gs[i], t)) && Fragile(gs[j], t)
    && forall c :: i < c < j ==> MarkOnTop(gs[c])
  }

  lemma {:induction false} SwallowedAtStep(gs: seq<seq<Entry>>, t: nat, i: int, j: int)
    requires gs != []
    ensures SwallowedAt(gs[1..], t, i, j) <==> i >= 0 && SwallowedAt(gs, t, i + 1, j + 1)
  {
    hide Fragile, MarkOnTop, Deleted, FirstVisible;
    var rest := gs[1..];
    if 0 <= i < j < |rest| {
      assert rest[i] == gs[i + 1] && rest[j] == gs[j + 1];
      forall c | i < c < j ensures rest[c] == gs[c + 1] {}
      forall c | i + 1 < c < j + 1 ensures gs[c] == rest[c - 1] {}
    }
  }

  lemma {:induction false} SwallowedFromFirst(gs: seq<seq<Entry>>, t: nat, j: int)
    requires gs != []
    ensures SwallowedAt(gs, t, 0, j) ==> Deleted(FirstVisible(gs[0], t)) && Chained(gs[1..], t)
  {
    hide Fragile, MarkOnTop, Deleted, FirstVisible;
    var rest := gs[1..];
    if SwallowedAt(gs, t, 0, j) {
      assert rest[j - 1] == gs[j];
      forall c | 0 <= c < j - 1 ensures MarkOnTop(rest[c]) {
        assert rest[c] == gs[c + 1];
      }
    }
  }

  lemma {:induction false} ChainedFromFirst(gs: seq<seq<Entry>>, t: nat)
    requires gs != [] && Deleted(FirstVisible(gs[0], t)) && Chained(gs[1..], t)
    ensures Swallowed(gs, t)
  {
    hide Fragile, MarkOnTop, Deleted, FirstVisible;
    var rest := gs[1..];
    var j :| 0 <= j < |rest| && Fragile(rest[j], t) && forall c :: 0 <= c < j ==> MarkOnTop(rest[c]);
    forall c | 0 < c < j + 1 ensures MarkOnTop(gs[c]) {
      assert gs[c] == rest[c - 1];
    }
    assert SwallowedAt(gs, t, 0, j + 1);
  }

  lemma {:induction false} SwallowedStep(gs: seq<seq<Entry>>, t: nat)
    requires gs != []
    ensures Swallowed(gs, t) <==>
            Swallowed(gs[1..], t) || (Deleted(FirstVisible(gs[0], t)) && Chained(gs[1..], t))
  {
    hide SwallowedAt, Chained, Deleted, FirstVisible;
    if Swallowed(gs, t) {
      var i, j :| SwallowedAt(gs, t, i, j);
      SwallowedRange(gs, t, i, j);
      SwallowedFromFirst(gs, t, j);
      SwallowedAtStep(gs, t, i - 1, j - 1);
    }
    if Swallowed(gs[1..], t) {
      var i, j :| SwallowedAt(gs[1..], t, i, j);
      SwallowedAtStep(gs, t, i, j);
    }
    if Deleted(FirstVisible(gs[0], t)) && Chained(gs[1..], t) {
      ChainedFromFirst(gs, t);
    }
  }

  lemma SwallowedRange(gs: seq<seq<Entry>>, t: nat, i: int, j: int)
    requires SwallowedAt(gs, t, i, j)
    ensures 0 <= i < j
  {
  }

  /** The scan right after a key was dropped as deleted. */
  function MarkScan(q: seq<Entry>, t: nat): seq<Entry> {
    Scan(DropMarks(q, false), t, true, false)
  }

  /** One key: what the scan does with it depends on the first version the reader may see. */
  lemma {:induction false} ScanKey(g: seq<Entry>, r: seq<Entry>, k: Key, t: nat)
    requires KeySorted(g + r) && (forall i :: 0 <= i < |g| ==> g[i].key == k) && (r != [] ==> r[0].key != k)
    ensures var v := FirstVisible(g, t);
            && Scan(g + r, t, true, false) ==
               (match v
                case None => Scan(r, t, true, false)
                case Some(e) => if e.value == [] then MarkScan(r, t) else [e] + Scan(r, t, true, false))
            && Wanted(g + r, t, true, false) == (if IsLive(v) then [v.value] else []) + Wanted(r, t, true, false)
  {
    hide Settled, HeapScan, Wanted, KeySorted;
    var q := g + r;
    if g == [] {
      assert q == r;
    } else {
      assert q[0] == g[0] && q[1..] == g[1..] + r;
      if !Visible(q[0], t) {
        RestIsSorted(q);
        ScanPastInvisible(q, t, true, false);
        WantedPastInvisible(q, t, true, false);
        ScanKey(g[1..], r, k, t);
      } else {
        DropKeyPrefix(g[1..], r, k);
        assert AfterTop(q, false) == r;
        QueryWanted(q, t, true);
        if q[0].value == [] {
          SettledAtMark(q, t, false);
        } else {
          ScanYields(q, t, true, false);
        }
      }
    }
  }

  /** Behind a dropped key, a key topped by any deletion is dropped too. */
  lemma {:induction false} MarkScanKey(g: seq<Entry>, r: seq<Entry>, k: Key, t: nat)
    requires g != [] && (forall i :: 0 <= i < |g| ==> g[i].key == k) && (r != [] ==> r[0].key != k)
    ensures MarkScan(g + r, t) == if MarkOnTop(g) then MarkScan(r, t) else Scan(g + r, t, true, false)
  {
    hide Settled, HeapScan, DropMarks;
    var q := g + r;
    assert q[0] == g[0] && q[1..] == g[1..] + r;
    DropKeyPrefix(g[1..], r, k);
    MarksAtTop(q, false);
  }

  lemma {:induction false} FirstGroup(q: seq<Entry>)
    requires q != [] && KeySorted(q)
    ensures var k, r := q[0].key, DropKey(q[1..], q[0].key);
            var g := q[..|q| - |r|];
            && g != [] && q == g + r && Groups(q) == [g] + Groups(r) && Groups(q)[1..] == Groups(r)
            && (forall i :: 0 <= i < |g| ==> g[i].key == k) && (r != [] ==> r[0].key != k)
            && KeySorted(r) && |r| < |q|
  {
    hide KeyLess;
    var k, n := q[0].key, q[1..];
    DropKeySuffix(n, k);
    DropKeyStrict(q);
    var r := DropKey(n, k);
    var g := q[..|q| - |r|];
    assert n[|n| - |r|..] == q[|q| - |r|..];
    forall i | 0 <= i < |g| ensures g[i].key == k {
      assert i > 0 ==> g[i] == n[i - 1];
    }
  }

  /** The scan never shows too much; it shows everything exactly when no key is swallowed, started
      fresh or behind a dropped key. */
  lemma {:induction false} ScanLength(q: seq<Entry>, t: nat)
    requires KeySorted(q)
    ensures var want, gs := Wanted(q, t, true, false), Groups(q);
            && |Scan(q, t, true, false)| <= |want| && |MarkScan(q, t)| <= |want|
            && (if Swallowed(gs, t) then |Scan(q, t, true, false)| < |want| else Scan(q, t, true, false) == want)
            && (if Swallowed(gs, t) || Chained(gs, t) then |MarkScan(q, t)| < |want| else MarkScan(q, t) == want)
    decreases |q|
  {
    hide Scan, MarkScan, Wanted, KeySorted, Groups, DropKey, Swallowed, Chained;
    if q == [] {
      NothingSwallowed(t);
    } else {
      FirstGroup(q);
      var r := DropKey(q[1..], q[0].key);
      var g := q[..|q| - |r|];
      ScanLength(r, t);
      ScanKey(g, r, q[0].key, t);
      MarkScanKey(g, r, q[0].key, t);
      SwallowedStep(Groups(q), t);
      ChainedStep(Groups(q), t);
      TopOrFirst(g, t);
    }
  }

  lemma TopOrFirst(g: seq<Entry>, t: nat)
    requires g != []
    ensures MarkOnTop(g) && IsLive(FirstVisible(g, t)) ==> Fragile(g, t)
  {
  }

  lemma NothingSwallowed(t: nat)
    ensures Groups([]) == [] && !Swallowed([], t) && !Chained([], t)
    ensures Scan([], t, true, false) == [] && MarkScan([], t) == [] && Wanted([], t, true, false) == []
  {
  }

  /** Query mode over any queue: the newest visible version of every key without the deleted ones, if and
      only if no key is swallowed. */
  lemma {:induction false} ScanExactIff(q: seq<Entry>, t: nat)
    requires KeySorted(q)
    ensures Scan(q, t, true, false) == Wanted(q, t, true, false) <==> !Swallowed(Groups(q), t)
  {
    hide Scan, Wanted, Groups, Swallowed;
    ScanLength(q, t);
  }

  // ---- what a query over several sources means ---------------------------------------------------------

  /** The iterator built from `v`, run to its end in query mode. */
  function QueryRun(v: seq<SearchItem>, t: nat): seq<Entry> {
    Scan(EntriesOf(PushAll(v)), t, true, false)
  }

  /** The keys in the order in which the queue pops them. */
  function Popped(v: seq<SearchItem>): seq<seq<Entry>> { Groups(EntriesOf(PushAll(v))) }

  function VisibleItems(p: seq<SearchItem>, t: nat): seq<SearchItem> {
    if p == [] then []
    else if Visible(p[0].entry, t) then [p[0]] + VisibleItems(p[1..], t)
    else VisibleItems(p[1..], t)
  }

  lemma {:induction false} VisibleItemsKeep(p: seq<SearchItem>, t: nat)
    requires PopOrder(p)
    ensures var v := VisibleItems(p, t);
            && EntriesOf(v) == AllVisible(EntriesOf(p), t) && PopOrder(v)
            && (forall x :: x in v ==> x in p)
  {
    hide After;
    if p != [] {
      VisibleItemsKeep(p[1..], t);
      var rest := VisibleItems(p[1..], t);
      forall i | 0 <= i < |rest| ensures !After(p[0], rest[i]) {
        assert rest[i] in p[1..];
        var j :| 0 <= j < |p[1..]| && p[1..][j] == rest[i];
        assert p[j + 1] == rest[i];
      }
      EntriesOfCons(p[0], rest);
      EntriesOfCons(p[0], p[1..]);
      assert p == [p[0]] + p[1..];
    }
  }

  /** The first version popped for a key is a newest one. */
  lemma {:induction false} FirstPopped(p: seq<SearchItem>, e: Entry)
    requires PopOrder(p) && Versions(EntriesOf(p), e.key) != [] && e == Versions(EntriesOf(p), e.key)[0]
    ensures IsNewest(multiset(EntriesOf(p)), e.key, 0, e)
  {
    hide After, EntriesOf;
    var q := EntriesOf(p);
    EntriesOfAt(p);
    VersionsMembers(q, e.key, e);
    var i := FirstVersionAt(q, e.key);
    PopOrderSorts(p);
    forall x | x in q && x.key == e.key ensures x.tid <= e.tid {
      var j :| 0 <= j < |q| && q[j] == x;
      assert p[i].entry == e && p[j].entry == x;
    }
  }

  lemma {:induction false} FirstVersionAt(s: seq<Entry>, k: Key) returns (i: nat)
    requires Versions(s, k) != []
    ensures i < |s| && s[i] == Versions(s, k)[0] && forall j :: 0 <= j < i ==> s[j].key != k
  {
    if s[0].key == k {
      i := 0;
    } else {
      var m := FirstVersionAt(s[1..], k);
      i := m + 1;
      forall j | 0 <= j < i ensures s[j].key != k {
        if j > 0 { assert s[j] == s[1..][j - 1]; }
      }
    }
  }

  /** Over items whose age and source agree, the view of the queue is the snapshot: one newest visible
      version per key that has one, keys strictly ascending. */
  lemma {:induction false} PoppedView(v: seq<SearchItem>, t: nat)
    requires Coherent(v)
    ensures var q, store := EntriesOf(PushAll(v)), multiset(EntriesOf(v));
            var f := FirstPerKey(AllVisible(q, t));
            && KeySorted(q) && multiset(q) == store && StrictKeys(f)
            && (forall e :: e in f ==> IsNewest(store, e.key, t, e))
            && (forall x :: x in store && Visible(x, t) ==> exists e :: e in f && e.key == x.key)
  {
    hide PushAll, EntriesOf, FirstPerKey, Versions, PopOrder, AllVisible;
    var p := PushAll(v);
    var q := EntriesOf(p);
    PushAllMeaning(v);
    PopOrderSorts(p);
    PushAllEntries(v);
    VisibleItemsKeep(p, t);
    var seen := AllVisible(q, t);
    PopOrderSorts(VisibleItems(p, t));
    FirstPerKeyMeaning(seen);
    forall x: Entry ensures x in seen <==> x in multiset(q) && Visible(x, t) {
      AllVisibleMember(q, t, x);
    }
    forall e | e in FirstPerKey(seen) ensures IsNewest(multiset(q), e.key, t, e) {
      FirstPopped(VisibleItems(p, t), e);
    }
  }

  /** Query mode over items whose age and source agree: unless a key is swallowed, keys come strictly
      ascending, each version is a newest visible one and no deletion, and a visible key is left out
      only for a newest visible version that is a deletion. */
  lemma {:induction false} HeapQuery(v: seq<SearchItem>, t: nat)
    requires Coherent(v) && !Swallowed(Popped(v), t)
    ensures var out, store := QueryRun(v, t), multiset(EntriesOf(v));
            && StrictKeys(out)
            && (forall e :: e in out ==> e.value != [] && IsNewest(store, e.key, t, e))
            && (forall x :: x in store && Visible(x, t) ==>
                  (exists e :: e in out && e.key == x.key) || exists d :: IsNewest(store, x.key, t, d) && d.value == [])
  {
    hide PushAll, EntriesOf, FirstPerKey, AllVisible, Live, Scan, Wanted, Groups, Swallowed, IsNewest, Coherent,
         StrictKeys, KeySorted;
    var q, store := EntriesOf(PushAll(v)), multiset(EntriesOf(v));
    PoppedView(v, t);
    ScanExactIff(q, t);
    var f := FirstPerKey(AllVisible(q, t));
    WantedIsLive(q, t);
    LiveMembers(f);
    forall x: Entry | x in store && Visible(x, t)
      ensures (exists e :: e in Live(f) && e.key == x.key) || exists d :: IsNewest(store, x.key, t, d) && d.value == []
    {
      var y :| y in f && y.key == x.key;
      if y.value != [] { assert y in Live(f); } else { assert IsNewest(store, x.key, t, y); }
    }
  }

  lemma WantedIsLive(q: seq<Entry>, t: nat)
    ensures Wanted(q, t, true, false) == Live(FirstPerKey(AllVisible(q, t)))
  {
  }

  lemma {:induction false} LiveMembers(f: seq<Entry>)
    requires StrictKeys(f)
    ensures StrictKeys(Live(f)) && forall e :: e in Live(f) <==> e in f && e.value != []
  {
    hide Live, StrictKeys;
    LiveStrict(f);
    forall e: Entry ensures e in Live(f) <==> e in f && e.value != [] {
      LiveMember(f, e);
    }
  }

  /** No version is stored under two values. */
  ghost predicate OneValueEach(s: seq<Entry>) {
    forall x, y :: x in s && y in s && x.key == y.key && x.tid == y.tid ==> x == y
  }

  /** The wanted entries are then exactly the newest visible ones that are not deletions. */
  lemma {:induction false} WantedMembers(v: seq<SearchItem>, t: nat, e: Entry)
    requires Coherent(v) && OneValueEach(EntriesOf(v))
    ensures e in Wanted(EntriesOf(PushAll(v)), t, true, false) <==>
            IsNewest(multiset(EntriesOf(v)), e.key, t, e) && e.value != []
    ensures StrictKeys(Wanted(EntriesOf(PushAll(v)), t, true, false))
  {
    hide PushAll, EntriesOf, FirstPerKey, AllVisible, Live, Wanted, Coherent, StrictKeys, KeySorted, IsNewest,
         OneValueEach;
    var s := EntriesOf(v);
    PoppedView(v, t);
    var f := FirstPerKey(AllVisible(EntriesOf(PushAll(v)), t));
    WantedIsLive(EntriesOf(PushAll(v)), t);
    LiveMembers(f);
    if IsNewest(multiset(s), e.key, t, e) {
      NewestIsSeen(s, e.key, t, e);
      var y :| y in f && y.key == e.key;
      NewestUnique(s, e.key, t, e, y);
    }
  }

  lemma NewestIsSeen(s: seq<Entry>, k: Key, t: nat, e: Entry)
    requires IsNewest(multiset(s), k, t, e)
    ensures e in multiset(s) && Visible(e, t)
  {
  }

  lemma NewestUnique(s: seq<Entry>, k: Key, t: nat, e: Entry, y: Entry)
    requires OneValueEach(s) && IsNewest(multiset(s), k, t, e) && IsNewest(multiset(s), k, t, y)
    ensures e == y
  {
    assert e in s && y in s && e.tid == y.tid;
  }

  lemma {:induction false} ElementCount(s: seq<Entry>)
    ensures |set e | e in s| <= |s| && (StrictKeys(s) ==> |set e | e in s| == |s|)
  {
    hide KeyLess;
    if s != [] {
      var n, last := s[..|s| - 1], s[|s| - 1];
      ElementCount(n);
      assert s == n + [last];
      assert (set e | e in s) == (set e | e in n) + {last};
      if StrictKeys(s) {
        assert forall i :: 0 <= i < |n| ==> KeyLess(n[i].key, last.key);
        KeyTrichotomy(last.key, last.key);
        assert last !in n;
      }
    }
  }

  /** With no version under two values: a query yields exactly the newest visible version of every key,
      minus deletions, if and only if no key is swallowed. */
  lemma {:induction false} HeapQueryExactIff(v: seq<SearchItem>, t: nat)
    requires Coherent(v) && OneValueEach(EntriesOf(v))
    ensures (forall e :: e in QueryRun(v, t) <==> IsNewest(multiset(EntriesOf(v)), e.key, t, e) && e.value != []) <==>
            !Swallowed(Popped(v), t)
  {
    hide PushAll, EntriesOf, Scan, Wanted, Groups, Swallowed, OneValueEach, StrictKeys, IsNewest, Coherent;
    var q := EntriesOf(PushAll(v));
    var out, want := QueryRun(v, t), Wanted(q, t, true, false);
    forall e: Entry ensures e in want <==> IsNewest(multiset(EntriesOf(v)), e.key, t, e) && e.value != [] {
      WantedMembers(v, t, e);
    }
    WantedMembers(v, t, Entry([], [], 0));
    PoppedView(v, t);
    ScanExactIff(q, t);
    if forall e :: e in out <==> e in want {
      ScanLength(q, t);
      ElementCount(out);
      ElementCount(want);
      assert (set e | e in out) == (set e | e in want);
    }
  }

  /** Items filtered to visible ones, as the callers are told to supply them, swallow nothing. */
  lemma {:induction false} FilteredIsSafe(v: seq<SearchItem>, t: nat)
    requires Coherent(v) && Prefiltered(EntriesOf(v), t)
    ensures !Swallowed(Popped(v), t)
  {
    hide PushAll, EntriesOf, Groups;
    PushAllEntries(v);
    var q := EntriesOf(PushAll(v));
    PushAllMeaning(v);
    forall i | 0 <= i < |q| ensures Visible(q[i], t) {
      assert q[i] in multiset(EntriesOf(v));
    }
    GroupsVisible(q, t);
  }

  lemma {:induction false} GroupsVisible(q: seq<Entry>, t: nat)
    requires Prefiltered(q, t)
    ensures forall i :: 0 <= i < |Groups(q)| ==> Groups(q)[i] != [] && Visible(Groups(q)[i][0], t)
    decreases |q|
  {
    if q != [] {
      var r := DropKey(q[1..], q[0].key);
      DropKeySuffix(q[1..], q[0].key);
      GroupsVisible(r, t);
    }
  }

  /** A queue that swallows: behind a deleted key, a key whose newest version is a deletion the reader
      must not see is dropped with its older, live version. */
  lemma {:induction false} UnfilteredLoses(a: Entry, b: Entry, c: Entry, t: nat)
    requires 0 < t && KeyLess(a.key, b.key) && b.key == c.key
    requires a.tid <= t && a.value == [] && b.tid > t && b.value == [] && c.tid <= t && c.value != []
    ensures KeySorted([a, b, c]) && Swallowed(Groups([a, b, c]), t)
    ensures Scan([a, b, c], t, true, false) == [] && Wanted([a, b, c], t, true, false) == [c]
  {
    KeyTrichotomy(a.key, b.key);
    KeyTrichotomy(b.key, b.key);
    var q := [a, b, c];
    assert q[1..] == [b, c] && [b, c][1..] == [c] && [c][1..] == [];
    assert DropKey([c], b.key) == [] && DropKey([b, c], a.key) == [b, c];
    assert [b, c][..2] == [b, c] && q[..1] == [a];
    assert Groups([b, c]) == [[b, c][..2]] + Groups([]);
    assert Groups(q) == [[a], [b, c]];
    assert FirstVisible([b, c], t) == Some(c);
    assert SwallowedAt(Groups(q), t, 0, 1);
    WantsLive(a, b, c, t);
    ScanLength(q, t);
  }

  lemma {:induction false} WantsLive(a: Entry, b: Entry, c: Entry, t: nat)
    requires 0 < t && a.key != b.key && b.key == c.key
    requires a.tid <= t && a.value == [] && b.tid > t && c.tid <= t && c.value != []
    ensures Wanted([a, b, c], t, true, false) == [c]
  {
    var q := [a, b, c];
    assert q[1..] == [b, c] && [b, c][1..] == [c] && [c][1..] == [];
    assert AllVisible([], t) == [];
    assert AllVisible([c], t) == [c];
    assert AllVisible([b, c], t) == [c];
    assert AllVisible(q, t) == [a, c];
    assert [a, c][1..] == [c] && DropKey([c], a.key) == [c] && FirstPerKey([c]) == [c];
    assert FirstPerKey([a, c]) == [a] + [c] && Live([c]) == [c];
  }
}
