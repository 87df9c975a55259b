/** Versioned entries, version stacks and snapshot reads: the vocabulary shared by the
    skip list, the iterators and the transaction layer. */
module Entries {
  import opened Keys

  datatype Option<T> = None | Some(value: T)

  /** One version of a key: `tid` is the id of the transaction that wrote it. */
  datatype Entry = Entry(key: Key, value: Value, tid: nat)

  /** Id 0 means "no transaction": everything is visible. */
  predicate Visible(e: Entry, t: nat) {
    t == 0 || e.tid <= t
  }

  /** The node order: key ascending, then newer versions first. */
  predicate EntryLess(a: Entry, b: Entry) {
    if a.key == b.key then a.tid > b.tid else KeyLess(a.key, b.key)
  }

  ghost predicate KeySorted(s: seq<Entry>) {
    forall i, j :: 0 <= i < j < |s| ==> !KeyLess(s[j].key, s[i].key)
  }

  ghost predicate StrictKeys(s: seq<Entry>) {
    forall i, j :: 0 <= i < j < |s| ==> KeyLess(s[i].key, s[j].key)
  }

  ghost predicate EntrySorted(s: seq<Entry>) {
    forall i, j :: 0 <= i < j < |s| ==> EntryLess(s[i], s[j])
  }

  /** All versions of `k` in `s`, in the order in which `s` lists them. */
  function Versions(s: seq<Entry>, k: Key): seq<Entry> {
    if s == [] then []
    else (if s[0].key == k then [s[0]] else []) + Versions(s[1..], k)
  }

  lemma {:induction false} VersionsMembers(s: seq<Entry>, k: Key, e: Entry)
    ensures e in Versions(s, k) <==> e in s && e.key == k
  {
    if s != [] {
      VersionsMembers(s[1..], k, e);
      assert s == [s[0]] + s[1..];
    }
  }

  lemma {:induction false} VersionsCons(e: Entry, s: seq<Entry>, k: Key)
    ensures Versions([e] + s, k) == if e.key == k then [e] + Versions(s, k) else Versions(s, k)
  {
    assert ([e] + s)[1..] == s;
    assert [] + Versions(s, k) == Versions(s, k);
  }

  lemma {:induction false} VersionsConcat(a: seq<Entry>, b: seq<Entry>, k: Key)
    ensures Versions(a + b, k) == Versions(a, k) + Versions(b, k)
  {
    if a == [] {
      assert a + b == b;
    } else {
      hide Versions;
      var x, t := a[0], a[1..];
      assert a == [x] + t && a + b == [x] + (t + b);
      VersionsConcat(t, b, k);
      VersionsCons(x, t, k);
      VersionsCons(x, t + b, k);
    }
  }

  lemma {:induction false} NoVersions(s: seq<Entry>, k: Key)
    requires forall i :: 0 <= i < |s| ==> s[i].key != k
    ensures Versions(s, k) == []
  {
    if s != [] {
      NoVersions(s[1..], k);
    }
  }

  /** A stack of versions whose top is the newest. */
  ghost predicate Descending(s: seq<Entry>) {
    forall i, j :: 0 <= i < j < |s| ==> s[i].tid > s[j].tid
  }

  /** The first entry of `s` that a reader with id `t` may see. */
  function FirstVisible(s: seq<Entry>, t: nat): (r: Option<Entry>)
    ensures r.Some? ==> r.value in s && Visible(r.value, t)
    ensures r.None? ==> forall e :: e in s ==> !Visible(e, t)
  {
    if s == [] then None
    else if Visible(s[0], t) then Some(s[0])
    else FirstVisible(s[1..], t)
  }

  /** `e` is the newest version of `k` with an id visible at `t`, whatever order the store keeps. */
  ghost predicate IsNewest(store: multiset<Entry>, k: Key, t: nat, e: Entry) {
    && e in store && e.key == k && Visible(e, t)
    && forall x :: x in store && x.key == k && Visible(x, t) ==> x.tid <= e.tid
  }
}
