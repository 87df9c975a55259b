/** What the whole-engine scan yields from its children, in plain sequences. The search for the smallest
    key uses the empty key as "nothing found yet", so a child that stands on a marker (the entry under
    the empty key) steps back behind the children that follow it. */
module LevelOutputs {
  import opened Keys
  import opened Entries
  import opened Streams

  /** The stream stands on a marker. */
  predicate OnMarker(s: seq<Entry>) { s != [] && s[0].key == [] }

  /** Strictly ascending keys, and under the empty key only markers. */
  ghost predicate MarkersOnly(ss: seq<seq<Entry>>) {
    AllStrict(ss) && forall i, e :: 0 <= i < |ss| && e in ss[i] && e.key == [] ==> e.value == []
  }

  /** The last stream that stands on a marker, or -1. */
  function LastMarker(ss: seq<seq<Entry>>): (e: int)
    ensures -1 <= e < |ss|
    ensures e >= 0 ==> OnMarker(ss[e])
    ensures forall i :: e < i < |ss| ==> !OnMarker(ss[i])
  {
    if ss == [] then -1
    else if OnMarker(ss[|ss| - 1]) then |ss| - 1
    else LastMarker(ss[..|ss| - 1])
  }

  lemma LastMarkerIs(ss: seq<seq<Entry>>, e: int)
    requires -1 <= e < |ss| && (e >= 0 ==> OnMarker(ss[e])) && forall i :: e < i < |ss| ==> !OnMarker(ss[i])
    ensures LastMarker(ss) == e
  {
  }

  // ---- the two halves --------------------------------------------------------------------------------------

  /** The streams behind the last marker, merged: they come first. */
  ghost function Early(ss: seq<seq<Entry>>): seq<Entry> {
    Flatten(ss[LastMarker(ss) + 1..])
  }

  function Strip(s: seq<Entry>): seq<Entry> { if OnMarker(s) then s[1..] else s }

  /** The streams up to the last marker, without markers: they should have come first. */
  ghost function Held(ss: seq<seq<Entry>>): (r: seq<seq<Entry>>)
    ensures |r| == LastMarker(ss) + 1 && forall i :: 0 <= i < |r| ==> r[i] == Strip(ss[i])
  {
    seq(LastMarker(ss) + 1, i requires 0 <= i < LastMarker(ss) + 1 => Strip(ss[i]))
  }

  /** Without the leading entries whose keys occur in `t`. */
  function DropShared(s: seq<Entry>, t: seq<Entry>): seq<Entry> {
    if s != [] && Lookup(t, s[0].key).Some? then DropShared(s[1..], t) else s
  }

  /** What is left of a stream when all of `t` has been passed. */
  function LeftOf(s: seq<Entry>, t: seq<Entry>): seq<Entry> {
    if OnMarker(s) then s[1..] else DropShared(s, t)
  }

  ghost function Late(ss: seq<seq<Entry>>): (r: seq<seq<Entry>>)
    ensures |r| == LastMarker(ss) + 1 && forall i :: 0 <= i < |r| ==> r[i] == LeftOf(ss[i], Early(ss))
  {
    seq(LastMarker(ss) + 1, i requires 0 <= i < LastMarker(ss) + 1 => LeftOf(ss[i], Early(ss)))
  }

  /** What the scan yields. */
  ghost function LevelOut(ss: seq<seq<Entry>>): seq<Entry> {
    Live(Early(ss)) + Live(Flatten(Late(ss)))
  }

  /** The child that the search returns: the front of the streams behind the last marker, or, when those
      are exhausted, the marker. */
  ghost predicate IsChosen(ss: seq<seq<Entry>>, c: nat) {
    var e := LastMarker(ss);
    if Exhausted(ss[e + 1..]) then c == e else c > e && IsFront(ss[e + 1..], c - e - 1)
  }

  lemma ChosenIsThere(ss: seq<seq<Entry>>, c: nat)
    requires IsChosen(ss, c)
    ensures c < |ss| && ss[c] != []
  {
  }

  // ---- skipping a key ----------------------------------------------------------------------------------

  lemma {:induction false} DropOne(s: seq<Entry>, k: Key)
    requires StrictKeys(s)
    ensures DropKey(s, k) == if s != [] && s[0].key == k then s[1..] else s
  {
    if s != [] && s[0].key == k {
      SkipFront(s);
    }
  }

  lemma {:induction false} TailKeys(s: seq<Entry>)
    requires s != [] && StrictKeys(s)
    ensures StrictKeys(s[1..]) && forall e :: e in s[1..] ==> e in s && KeyLess(s[0].key, e.key) && e.key != []
  {
    hide KeyLess;
    var t := s[1..];
    forall i | 0 <= i < |t| ensures t[i] == s[i + 1] && KeyLess(s[0].key, t[i].key) && t[i].key != [] {
      NothingBelowEmpty(s[0].key);
    }
    StrictTail(s);
  }

  lemma NothingBelowEmpty(k: Key)
    ensures !KeyLess(k, []) && (k != [] ==> KeyLess([], k))
  {
  }

  lemma {:induction false} SkipKeepsMarkers(ss: seq<seq<Entry>>, k: Key)
    requires MarkersOnly(ss)
    ensures MarkersOnly(SkipKey(ss, k))
  {
    hide StrictKeys, DropKey;
    var r := SkipKey(ss, k);
    forall i | 0 <= i < |r| ensures StrictKeys(r[i]) && forall e :: e in r[i] ==> e in ss[i] {
      DropOne(ss[i], k);
      if ss[i] != [] {
        TailKeys(ss[i]);
      }
    }
  }

  /** Skipping a proper key moves no marker. */
  lemma {:induction false} SkipKeepsLast(ss: seq<seq<Entry>>, k: Key)
    requires MarkersOnly(ss) && k != []
    ensures LastMarker(SkipKey(ss, k)) == LastMarker(ss)
    ensures forall i :: 0 <= i < |ss| ==> (OnMarker(SkipKey(ss, k)[i]) <==> OnMarker(ss[i]))
  {
    hide StrictKeys, DropKey, LastMarker;
    var r := SkipKey(ss, k);
    forall i | 0 <= i < |ss| ensures OnMarker(r[i]) <==> OnMarker(ss[i]) {
      DropOne(ss[i], k);
      if ss[i] != [] {
        TailKeys(ss[i]);
      }
    }
    var e := LastMarker(ss);
    LastMarkerRange(ss);
    LastMarkerIs(r, e);
  }

  lemma LastMarkerRange(ss: seq<seq<Entry>>)
    ensures var e := LastMarker(ss);
            -1 <= e < |ss| && (e >= 0 ==> OnMarker(ss[e])) && forall i :: e < i < |ss| ==> !OnMarker(ss[i])
  {
  }

  lemma {:induction false} DropAgree(s: seq<Entry>, t: seq<Entry>, u: seq<Entry>)
    requires forall e :: e in s ==> (Lookup(t, e.key).Some? <==> Lookup(u, e.key).Some?)
    ensures DropShared(s, t) == DropShared(s, u)
  {
    hide Lookup;
    if s != [] {
      assert s[0] in s;
      forall e | e in s[1..] ensures e in s {}
      DropAgree(s[1..], t, u);
    }
  }

  /** One key of `t` passed: the stream has lost it if it stood on it, and the rest follows. */
  lemma {:induction false} DropSharedStep(s: seq<Entry>, x: Entry, t: seq<Entry>)
    requires StrictKeys(s) && StrictKeys([x] + t)
    ensures DropShared(DropKey(s, x.key), t) == DropShared(s, [x] + t)
  {
    hide StrictKeys, KeyLess, DropKey, Lookup;
    var all := [x] + t;
    DropOne(s, x.key);
    LookupInFront(x, t);
    if s != [] {
      TailKeys(s);
      HeadFirst(x, t);
      var s0 := s[0].key;
      if s0 == x.key {
        forall e | e in s[1..] ensures Lookup(all, e.key).Some? <==> Lookup(t, e.key).Some? {
          KeyTrichotomy(s0, s0);
        }
        DropAgree(s[1..], all, t);
      } else if Lookup(t, s0).Some? {
        LookupMember(t, s0);
        var _ := KeyOrder();
        forall e | e in s ensures Lookup(all, e.key).Some? <==> Lookup(t, e.key).Some? {
          assert e == s[0] || e in s[1..];
        }
        DropAgree(s, all, t);
      }
    }
  }

  lemma LookupInFront(x: Entry, t: seq<Entry>)
    ensures forall k :: Lookup([x] + t, k) == if k == x.key then Some(x) else Lookup(t, k)
  {
    assert ([x] + t)[1..] == t;
  }

  lemma {:induction false} HeadFirst(x: Entry, t: seq<Entry>)
    requires StrictKeys([x] + t)
    ensures StrictKeys(t) && forall e :: e in t ==> KeyLess(x.key, e.key)
  {
    var all := [x] + t;
    assert all[1..] == t;
    TailKeys(all);
  }

  // ---- one step of the scan ---------------------------------------------------------------------------

  /** A key behind the last marker leads what comes early. */
  lemma {:induction false} EarlyFront(ss: seq<seq<Entry>>, c: nat)
    requires MarkersOnly(ss) && IsChosen(ss, c) && c > LastMarker(ss)
    ensures c < |ss| && ss[c] != []
    ensures var x, rest := ss[c][0], SkipKey(ss, ss[c][0].key);
            && x.key != [] && StrictKeys(Early(ss))
            && LastMarker(rest) == LastMarker(ss) && Early(ss) == [x] + Early(rest)
  {
    hide MarkersOnly, IsFront, LastMarker, Flatten, SkipKey, StrictKeys;
    ChosenBehind(ss, c);
    var n := LastMarker(ss) + 1;
    var k := ss[c][0].key;
    SkipKeepsLast(ss, k);
    TailOf(ss, n);
    FlattenStep(ss[n..], c - n);
    FlattenMeaning(ss[n..]);
    SkipTail(ss, k, n);
  }

  lemma {:induction false} ChosenBehind(ss: seq<seq<Entry>>, c: nat)
    requires IsChosen(ss, c) && c > LastMarker(ss)
    ensures var n := LastMarker(ss) + 1;
            && 0 <= n <= c < |ss| && ss[c] != [] && ss[c][0].key != []
            && IsFront(ss[n..], c - n) && ss[n..][c - n] == ss[c]
  {
    hide LastMarker, IsFront, Exhausted;
    LastMarkerRange(ss);
    var n := LastMarker(ss) + 1;
    FrontRange(ss[n..], c - n);
    assert ss[n..][c - n] == ss[c] && !OnMarker(ss[c]);
  }

  lemma FrontRange(ss: seq<seq<Entry>>, i: nat)
    requires IsFront(ss, i)
    ensures i < |ss| && ss[i] != []
  {
  }

  lemma TailOf(ss: seq<seq<Entry>>, n: nat)
    requires MarkersOnly(ss) && n <= |ss|
    ensures AllStrict(ss[n..])
  {
  }

  lemma SkipTail(ss: seq<seq<Entry>>, k: Key, n: nat)
    requires n <= |ss|
    ensures SkipKey(ss, k)[n..] == SkipKey(ss[n..], k)
  {
  }

  /** What is left of one stream does not depend on when the key is passed. */
  lemma {:induction false} LeftStep(s: seq<Entry>, x: Entry, t: seq<Entry>)
    requires StrictKeys(s) && StrictKeys([x] + t) && x.key != []
    ensures LeftOf(DropKey(s, x.key), t) == LeftOf(s, [x] + t)
  {
    hide StrictKeys, DropKey, DropShared;
    DropOne(s, x.key);
    if !OnMarker(s) {
      DropSharedStep(s, x, t);
      if s != [] {
        TailKeys(s);
        assert s[1..] != [] ==> s[1..][0] in s[1..];
      }
    }
  }

  lemma {:induction false} EarlyStep(ss: seq<seq<Entry>>, c: nat)
    requires MarkersOnly(ss) && IsChosen(ss, c) && c > LastMarker(ss)
    ensures c < |ss| && ss[c] != []
    ensures var x, rest := ss[c][0], SkipKey(ss, ss[c][0].key);
            x.key != [] && Early(ss) == [x] + Early(rest) && Late(ss) == Late(rest)
  {
    hide StrictKeys, DropKey, LastMarker, Early, LeftOf, IsChosen;
    EarlyFront(ss, c);
    var x := ss[c][0];
    var rest := SkipKey(ss, x.key);
    LastMarkerRange(ss);
    forall j | 0 <= j < LastMarker(ss) + 1 ensures LeftOf(ss[j], Early(ss)) == LeftOf(rest[j], Early(rest)) {
      LeftStep(ss[j], x, Early(rest));
    }
  }

  lemma {:induction false} FlattenPad(a: seq<seq<Entry>>, b: seq<seq<Entry>>)
    requires Exhausted(b)
    ensures Flatten(a + b) == Flatten(a)
  {
    if a == [] {
      assert a + b == b;
      FlattenExhausted(b);
    } else {
      FlattenPad(a[1..], b);
      assert (a + b)[0] == a[0] && (a + b)[1..] == a[1..] + b;
    }
  }

  lemma {:induction false} NothingShared(s: seq<Entry>)
    ensures DropShared(s, []) == s
  {
  }

  /** The markers are dropped when everything behind the last one is exhausted. */
  lemma {:induction false} MarkerStep(ss: seq<seq<Entry>>, c: nat)
    requires MarkersOnly(ss) && IsChosen(ss, c) && c == LastMarker(ss)
    ensures var x, rest := ss[c][0], SkipKey(ss, ss[c][0].key);
            && x.key == [] && x.value == [] && Early(ss) == [] && Late(rest) == []
            && Early(rest) == Flatten(Late(ss))
  {
    hide StrictKeys, DropKey, LastMarker, Flatten, DropShared, KeyLess;
    LastMarkerRange(ss);
    var rest := SkipKey(ss, []);
    assert OnMarker(ss[c]) && ss[c][0] in ss[c];
    FlattenExhausted(ss[c + 1..]);
    forall i | 0 <= i < |ss| ensures rest[i] == Strip(ss[i]) && !OnMarker(rest[i]) {
      DropOne(ss[i], []);
      if ss[i] != [] {
        TailKeys(ss[i]);
        assert ss[i][1..] != [] ==> ss[i][1..][0] in ss[i][1..];
      }
    }
    LastMarkerIs(rest, -1);
    var a, b := rest[..c + 1], rest[c + 1..];
    assert rest == a + b && rest[0..] == rest;
    forall i | 0 <= i < |b| ensures b[i] == [] {
      assert b[i] == rest[c + 1 + i] && ss[c + 1..][i] == ss[c + 1 + i];
    }
    forall i | 0 <= i < c + 1 ensures a[i] == LeftOf(ss[i], []) {
      NothingShared(ss[i]);
    }
    assert a == Late(ss);
    FlattenPad(a, b);
  }

  /** Leaving the chosen key: it is yielded unless deleted, and the scan goes on without it. */
  lemma {:induction false} ChosenStep(ss: seq<seq<Entry>>, c: nat)
    requires MarkersOnly(ss) && IsChosen(ss, c)
    ensures c < |ss| && ss[c] != []
    ensures var x, rest := ss[c][0], SkipKey(ss, ss[c][0].key);
            MarkersOnly(rest) && LevelOut(ss) == (if x.value == [] then [] else [x]) + LevelOut(rest)
  {
    hide MarkersOnly, LastMarker, Early, Late, Flatten;
    ChosenIsThere(ss, c);
    var x, rest := ss[c][0], SkipKey(ss, ss[c][0].key);
    SkipKeepsMarkers(ss, x.key);
    NothingLive();
    if c > LastMarker(ss) {
      EarlyStep(ss, c);
      var t, l := Early(rest), Live(Flatten(Late(ss)));
      assert ([x] + t)[1..] == t;
      assert Live([x] + t) == (if x.value == [] then [] else [x]) + Live(t);
      assert Live([x] + t) + l == (if x.value == [] then [] else [x]) + (Live(t) + l);
    } else {
      MarkerStep(ss, c);
    }
  }

  lemma NothingLive()
    ensures Live([]) == [] && Flatten([]) == []
  {
  }

  lemma {:induction false} ExhaustedYieldsNothing(ss: seq<seq<Entry>>)
    requires Exhausted(ss)
    ensures LevelOut(ss) == []
  {
    hide LastMarker, Flatten;
    LastMarkerRange(ss);
    assert ss[0..] == ss;
    FlattenExhausted(ss);
    NothingLive();
  }

  // ---- when the scan is the layered map ----------------------------------------------------------------

  /** What a deleted key or one behind the last marker must not disturb: every live key that comes early is
      decided by its own entry and lies below all live keys that come late, and no key that is deleted
      early takes a version along that should decide later. */
  ghost predicate Undisturbed(ss: seq<seq<Entry>>) {
    && (forall x :: x in Early(ss) && x.value != [] ==> Unopposed(ss, x) && AllAbove(x, Live(Flatten(Late(ss)))))
    && (forall x :: x in Early(ss) && x.value == [] ==>
          LiveValue(Layered(Late(ss), x.key)) == LiveValue(Layered(Held(ss), x.key)))
  }

  /** No stream that should come first holds the key, unless with the very same entry. */
  ghost predicate Unopposed(ss: seq<seq<Entry>>, x: Entry) {
    Layered(Held(ss), x.key).None? || Layered(Held(ss), x.key) == Some(x)
  }

  ghost predicate AllAbove(x: Entry, s: seq<Entry>) {
    forall y :: y in s ==> KeyLess(x.key, y.key)
  }

  lemma {:induction false} LookupConcat(a: seq<Entry>, b: seq<Entry>, k: Key)
    ensures Lookup(a + b, k) == if Lookup(a, k).Some? then Lookup(a, k) else Lookup(b, k)
  {
    if a == [] {
      assert a + b == b;
    } else {
      LookupConcat(a[1..], b, k);
      assert (a + b)[0] == a[0] && (a + b)[1..] == a[1..] + b;
    }
  }

  lemma {:induction false} StrictConcat(a: seq<Entry>, b: seq<Entry>)
    requires StrictKeys(a) && StrictKeys(b)
    ensures StrictKeys(a + b) <==> forall x :: x in a ==> AllAbove(x, b)
  {
    hide KeyLess;
    var s := a + b;
    if StrictKeys(s) {
      forall x, y | x in a && y in b ensures KeyLess(x.key, y.key) {
        var i :| 0 <= i < |a| && a[i] == x;
        var j :| 0 <= j < |b| && b[j] == y;
        assert s[i] == x && s[|a| + j] == y;
      }
    }
    if forall x :: x in a ==> AllAbove(x, b) {
      forall i, j | 0 <= i < j < |s| ensures KeyLess(s[i].key, s[j].key) {
        if i < |a| <= j {
          assert s[i] in a && s[j] in b;
        }
      }
    }
  }

  lemma {:induction false} SharedOnlyDropped(s: seq<Entry>, t: seq<Entry>, k: Key)
    requires Lookup(t, k).None?
    ensures Lookup(DropShared(s, t), k) == Lookup(s, k)
  {
    if s != [] && Lookup(t, s[0].key).Some? {
      SharedOnlyDropped(s[1..], t, k);
    }
  }

  lemma {:induction false} DropSharedSuffix(s: seq<Entry>, t: seq<Entry>)
    requires StrictKeys(s)
    ensures StrictKeys(DropShared(s, t)) && forall e :: e in DropShared(s, t) ==> e in s
  {
    hide StrictKeys;
    if s != [] && Lookup(t, s[0].key).Some? {
      TailKeys(s);
      DropSharedSuffix(s[1..], t);
    }
  }

  lemma {:induction false} LayeredAgree(a: seq<seq<Entry>>, b: seq<seq<Entry>>, k: Key)
    requires |a| == |b| && forall i :: 0 <= i < |a| ==> Lookup(a[i], k) == Lookup(b[i], k)
    ensures Layered(a, k) == Layered(b, k)
  {
    hide Lookup;
    if a != [] {
      forall i | 0 <= i < |a| - 1 ensures a[1..][i] == a[i + 1] && b[1..][i] == b[i + 1] {}
      LayeredAgree(a[1..], b[1..], k);
    }
  }

  lemma {:induction false} EarlyHalf(ss: seq<seq<Entry>>)
    requires MarkersOnly(ss)
    ensures StrictKeys(Early(ss)) && Lookup(Early(ss), []).None?
  {
    hide StrictKeys, LastMarker, Flatten, Lookup;
    LastMarkerRange(ss);
    var n := LastMarker(ss) + 1;
    var tail := ss[n..];
    TailOf(ss, n);
    FlattenMeaning(tail);
    forall i | 0 <= i < |tail| ensures Lookup(tail[i], []).None? {
      assert tail[i] == ss[n + i];
      NoMarkerInside(tail[i]);
    }
    LayeredNone(tail, []);
  }

  lemma {:induction false} LateHalf(ss: seq<seq<Entry>>)
    requires MarkersOnly(ss)
    ensures AllStrict(Held(ss)) && AllStrict(Late(ss)) && Layered(Late(ss), []).None?
  {
    hide StrictKeys, LastMarker, Early, LeftOf, Strip, Lookup;
    LastMarkerRange(ss);
    forall i | 0 <= i <= LastMarker(ss)
      ensures StrictKeys(Held(ss)[i]) && StrictKeys(Late(ss)[i]) && Lookup(Late(ss)[i], []).None?
    {
      StripStrict(ss[i], Early(ss));
      NoMarkerLeft(ss[i], Early(ss));
    }
    LayeredNone(Late(ss), []);
  }

  /** Both halves are strict and free of markers. */
  lemma {:induction false} HalvesAreStrict(ss: seq<seq<Entry>>)
    requires MarkersOnly(ss)
    ensures StrictKeys(Early(ss)) && AllStrict(Held(ss)) && AllStrict(Late(ss))
    ensures StrictKeys(Flatten(Held(ss))) && StrictKeys(Flatten(Late(ss)))
    ensures Lookup(Early(ss), []).None? && Layered(Late(ss), []).None?
  {
    hide MarkersOnly, AllStrict, StrictKeys, Flatten, Lookup, Early, Late, Held, Layered;
    EarlyHalf(ss);
    LateHalf(ss);
    FlattenMeaning(Held(ss));
    FlattenMeaning(Late(ss));
  }

  lemma {:induction false} StripStrict(s: seq<Entry>, t: seq<Entry>)
    requires StrictKeys(s)
    ensures StrictKeys(Strip(s)) && StrictKeys(LeftOf(s, t))
  {
    hide StrictKeys, DropShared;
    if s != [] {
      TailKeys(s);
    }
    DropSharedSuffix(s, t);
  }

  lemma {:induction false} NoMarkerInside(s: seq<Entry>)
    requires StrictKeys(s) && !OnMarker(s)
    ensures Lookup(s, []).None? && forall e :: e in s ==> e.key != []
  {
    hide StrictKeys, Lookup;
    LookupMember(s, []);
    if s != [] {
      TailKeys(s);
      forall e | e in s ensures e.key != [] {
        assert e == s[0] || e in s[1..];
      }
    }
  }

  lemma {:induction false} NoMarkerLeft(s: seq<Entry>, t: seq<Entry>)
    requires StrictKeys(s)
    ensures Lookup(LeftOf(s, t), []).None?
  {
    hide StrictKeys, Lookup, DropShared;
    LookupMember(LeftOf(s, t), []);
    if OnMarker(s) {
      TailKeys(s);
    } else {
      NoMarkerInside(s);
      DropSharedSuffix(s, t);
    }
  }

  lemma {:induction false} LayeredNone(ss: seq<seq<Entry>>, k: Key)
    requires forall i :: 0 <= i < |ss| ==> Lookup(ss[i], k).None?
    ensures Layered(ss, k).None?
  {
    hide Lookup;
    if ss != [] {
      forall i | 0 <= i < |ss| - 1 ensures ss[1..][i] == ss[i + 1] {}
      LayeredNone(ss[1..], k);
    }
  }

  /** A key that does not come early is decided alike before and after. */
  lemma {:induction false} LateDecidesAlike(ss: seq<seq<Entry>>, k: Key)
    requires MarkersOnly(ss) && Lookup(Early(ss), k).None?
    ensures Layered(Late(ss), k) == Layered(Held(ss), k)
  {
    hide StrictKeys, LastMarker, Lookup, Early, DropShared;
    LastMarkerRange(ss);
    var t := Early(ss);
    forall i | 0 <= i < |Held(ss)| ensures Lookup(Late(ss)[i], k) == Lookup(Held(ss)[i], k) {
      SharedOnlyDropped(ss[i], t, k);
    }
    LayeredAgree(Late(ss), Held(ss), k);
  }

  /** The layered map, by the two halves. */
  lemma {:induction false} LayeredHalves(ss: seq<seq<Entry>>, k: Key)
    requires MarkersOnly(ss)
    ensures LiveValue(Layered(ss, k)) ==
            if k == [] then None
            else LiveValue(if Layered(Held(ss), k).Some? then Layered(Held(ss), k) else Lookup(Early(ss), k))
  {
    hide StrictKeys, LastMarker, Flatten, Lookup;
    LastMarkerRange(ss);
    var n := LastMarker(ss) + 1;
    var a, b := ss[..n], ss[n..];
    assert ss == a + b;
    LayeredSplit(a, b, k);
    TailOf(ss, n);
    FlattenMeaning(b);
    if k == [] {
      MarkersAreDeletions(ss);
    } else {
      forall i | 0 <= i < n ensures Lookup(a[i], k) == Lookup(Held(ss)[i], k) {
        LookupStripped(ss[i], k);
      }
      LayeredAgree(a, Held(ss), k);
    }
  }

  lemma LookupStripped(s: seq<Entry>, k: Key)
    requires k != []
    ensures Lookup(Strip(s), k) == Lookup(s, k)
  {
  }

  lemma {:induction false} MarkersAreDeletions(ss: seq<seq<Entry>>)
    requires MarkersOnly(ss)
    ensures LiveValue(Layered(ss, [])).None?
  {
    hide Lookup, StrictKeys;
    if ss != [] {
      LookupMember(ss[0], []);
      forall i | 0 <= i < |ss| - 1 ensures ss[1..][i] == ss[i + 1] {}
      MarkersAreDeletions(ss[1..]);
    }
  }

  /** What the scan finds for a key. */
  lemma {:induction false} OutLookup(ss: seq<seq<Entry>>, k: Key)
    requires MarkersOnly(ss)
    ensures Lookup(LevelOut(ss), k) ==
            if LiveValue(Lookup(Early(ss), k)).Some? then Lookup(Early(ss), k) else LiveValue(Layered(Late(ss), k))
  {
    hide MarkersOnly, StrictKeys, Flatten, Lookup, Early, Late, Live, AllStrict;
    HalvesAreStrict(ss);
    FlattenMeaning(Late(ss));
    LookupConcat(Live(Early(ss)), Live(Flatten(Late(ss))), k);
    LiveLookup(Early(ss), k);
    LiveLookup(Flatten(Late(ss)), k);
  }

  lemma {:induction false} WantedLookup(ss: seq<seq<Entry>>, k: Key)
    requires MarkersOnly(ss)
    ensures StrictKeys(Live(Flatten(ss))) && Lookup(Live(Flatten(ss)), k) == LiveValue(Layered(ss, k))
  {
    hide StrictKeys, Flatten, Lookup, Live;
    FlattenMeaning(ss);
    LiveStrict(Flatten(ss));
    LiveLookup(Flatten(ss), k);
  }

  /** For one key: scan and layered map agree. */
  ghost predicate AgreeAt(ss: seq<seq<Entry>>, k: Key) {
    match Lookup(Early(ss), k)
    case None => true
    case Some(x) =>
      if x.value != [] then Unopposed(ss, x)
      else LiveValue(Layered(Late(ss), k)) == LiveValue(Layered(Held(ss), k))
  }

  lemma {:induction false} AgreeAtIff(ss: seq<seq<Entry>>, k: Key)
    requires MarkersOnly(ss)
    ensures Lookup(LevelOut(ss), k) == Lookup(Live(Flatten(ss)), k) <==> AgreeAt(ss, k)
  {
    hide MarkersOnly, StrictKeys, Flatten, Lookup, Early, Late, Held, Live, Layered, LevelOut;
    OutLookup(ss, k);
    WantedLookup(ss, k);
    LayeredHalves(ss, k);
    HalvesAreStrict(ss);
    LookupKey(Early(ss), k);
    if Lookup(Early(ss), k).None? {
      LateDecidesAlike(ss, k);
    }
  }

  lemma LookupKey(s: seq<Entry>, k: Key)
    ensures Lookup(s, k).Some? ==> Lookup(s, k).value.key == k
  {
    LookupMember(s, k);
  }

  /** Every live key that comes early lies below all that come late. */
  ghost predicate EarlyAbove(ss: seq<seq<Entry>>) {
    forall x :: x in Live(Early(ss)) ==> AllAbove(x, Live(Flatten(Late(ss))))
  }

  lemma {:induction false} UndisturbedAtKey(ss: seq<seq<Entry>>, k: Key)
    requires MarkersOnly(ss) && Undisturbed(ss)
    ensures AgreeAt(ss, k) && EarlyAbove(ss)
  {
    hide MarkersOnly, StrictKeys, Flatten, Lookup, Early, Late, Held, Live, Layered, AllAbove, Unopposed;
    var t := Early(ss);
    LookupMember(t, k);
    forall x | x in Live(t) ensures AllAbove(x, Live(Flatten(Late(ss)))) {
      LiveMember(t, x);
    }
  }

  lemma {:induction false} UndisturbedByKey(ss: seq<seq<Entry>>)
    requires MarkersOnly(ss)
    ensures Undisturbed(ss) <==> (forall k :: AgreeAt(ss, k)) && EarlyAbove(ss)
  {
    hide MarkersOnly, StrictKeys, Flatten, Lookup, Early, Late, Held, Live, Layered, Unopposed, AgreeAt, Undisturbed,
         AllAbove, EarlyAbove;
    if Undisturbed(ss) {
      forall k ensures AgreeAt(ss, k) {
        UndisturbedAtKey(ss, k);
      }
      UndisturbedAtKey(ss, []);
    }
    if (forall k :: AgreeAt(ss, k)) && EarlyAbove(ss) {
      AgreeingIsUndisturbed(ss);
    }
  }

  lemma {:induction false} AgreeingIsUndisturbed(ss: seq<seq<Entry>>)
    requires MarkersOnly(ss) && (forall k :: AgreeAt(ss, k)) && EarlyAbove(ss)
    ensures Undisturbed(ss)
  {
    hide MarkersOnly, StrictKeys, Flatten, Lookup, Early, Late, Held, Live, Layered, AllAbove, Unopposed;
    HalvesAreStrict(ss);
    forall x | x in Early(ss)
      ensures AgreeAt(ss, x.key) && Lookup(Early(ss), x.key) == Some(x) && (x.value != [] ==> x in Live(Early(ss)))
    {
      StrictLookup(Early(ss), x);
      LiveMember(Early(ss), x);
    }
  }

  lemma {:induction false} OutStrictIff(ss: seq<seq<Entry>>)
    requires MarkersOnly(ss)
    ensures StrictKeys(LevelOut(ss)) <==> EarlyAbove(ss)
  {
    hide MarkersOnly, StrictKeys, Flatten, Early, Late, Live, AllAbove;
    HalvesAreStrict(ss);
    LiveStrict(Early(ss));
    LiveStrict(Flatten(Late(ss)));
    StrictConcat(Live(Early(ss)), Live(Flatten(Late(ss))));
  }

  /** The scan yields the layered map without deleted keys if and only if nothing is disturbed. */
  lemma {:induction false} LevelOutIff(ss: seq<seq<Entry>>)
    requires MarkersOnly(ss)
    ensures LevelOut(ss) == Live(Flatten(ss)) <==> Undisturbed(ss)
  {
    hide MarkersOnly, StrictKeys, Flatten, Lookup, Live, LevelOut, AgreeAt, Undisturbed, EarlyAbove;
    WantedLookup(ss, []);
    UndisturbedByKey(ss);
    OutStrictIff(ss);
    forall k ensures Lookup(LevelOut(ss), k) == Lookup(Live(Flatten(ss)), k) <==> AgreeAt(ss, k) {
      AgreeAtIff(ss, k);
    }
    if Undisturbed(ss) {
      MapDeterminesStream(LevelOut(ss), Live(Flatten(ss)));
    }
  }

  /** The scan over `ss` decides every key as the layers `ws` do, in order: a live key that comes early is theirs
      and lies below all that come late, and for every other key what comes late agrees with them. */
  ghost predicate DecidesAs(ss: seq<seq<Entry>>, ws: seq<seq<Entry>>) {
    && (forall x :: x in Early(ss) && x.value != [] ==>
          Layered(ws, x.key) == Some(x) && AllAbove(x, Live(Flatten(Late(ss)))))
    && (forall k :: LiveValue(Lookup(Early(ss), k)).None? ==>
          LiveValue(Layered(Late(ss), k)) == LiveValue(Layered(ws, k)))
  }

  ghost predicate DecidesAt(ss: seq<seq<Entry>>, ws: seq<seq<Entry>>, k: Key) {
    var early := LiveValue(Lookup(Early(ss), k));
    if early.Some? then Layered(ws, k) == early else LiveValue(Layered(Late(ss), k)) == LiveValue(Layered(ws, k))
  }

  lemma {:induction false} DecidesAtKey(ss: seq<seq<Entry>>, ws: seq<seq<Entry>>, k: Key)
    requires MarkersOnly(ss) && DecidesAs(ss, ws)
    ensures DecidesAt(ss, ws, k) && EarlyAbove(ss)
  {
    hide MarkersOnly, StrictKeys, Flatten, Lookup, Early, Late, Held, Live, Layered, AllAbove, Unopposed;
    var t := Early(ss);
    LookupMember(t, k);
    forall x | x in Live(t) ensures AllAbove(x, Live(Flatten(Late(ss)))) {
      LiveMember(t, x);
    }
  }

  lemma {:induction false} DecidesByKey(ss: seq<seq<Entry>>, ws: seq<seq<Entry>>)
    requires MarkersOnly(ss)
    ensures DecidesAs(ss, ws) <==> (forall k :: DecidesAt(ss, ws, k)) && EarlyAbove(ss)
  {
    hide MarkersOnly, StrictKeys, Flatten, Lookup, Early, Late, Held, Live, Layered, DecidesAt, DecidesAs, EarlyAbove;
    if DecidesAs(ss, ws) {
      forall k ensures DecidesAt(ss, ws, k) {
        DecidesAtKey(ss, ws, k);
      }
      DecidesAtKey(ss, ws, []);
    }
    if (forall k :: DecidesAt(ss, ws, k)) && EarlyAbove(ss) {
      DecidingEach(ss, ws);
    }
  }

  lemma {:induction false} DecidingEach(ss: seq<seq<Entry>>, ws: seq<seq<Entry>>)
    requires MarkersOnly(ss) && (forall k :: DecidesAt(ss, ws, k)) && EarlyAbove(ss)
    ensures DecidesAs(ss, ws)
  {
    hide MarkersOnly, StrictKeys, Flatten, Lookup, Early, Late, Held, Live, Layered, AllAbove;
    HalvesAreStrict(ss);
    forall x | x in Early(ss)
      ensures DecidesAt(ss, ws, x.key) && Lookup(Early(ss), x.key) == Some(x)
      ensures x.value != [] ==> x in Live(Early(ss))
    {
      StrictLookup(Early(ss), x);
      LiveMember(Early(ss), x);
    }
    forall k | LiveValue(Lookup(Early(ss), k)).None?
      ensures LiveValue(Layered(Late(ss), k)) == LiveValue(Layered(ws, k))
    {
      assert DecidesAt(ss, ws, k);
    }
  }

  lemma {:induction false} DecidesAtIff(ss: seq<seq<Entry>>, ws: seq<seq<Entry>>, k: Key)
    requires MarkersOnly(ss) && AllStrict(ws)
    ensures StrictKeys(Live(Flatten(ws)))
    ensures Lookup(LevelOut(ss), k) == Lookup(Live(Flatten(ws)), k) <==> DecidesAt(ss, ws, k)
  {
    hide MarkersOnly, AllStrict, StrictKeys, Flatten, Lookup, Early, Late, Live, Layered, LevelOut;
    OutLookup(ss, k);
    FlattenMeaning(ws);
    LiveStrict(Flatten(ws));
    LiveLookup(Flatten(ws), k);
  }

  /** The scan yields the live keys of any given layers if and only if it decides as they do. */
  lemma {:induction false} LevelOutIsIff(ss: seq<seq<Entry>>, ws: seq<seq<Entry>>)
    requires MarkersOnly(ss) && AllStrict(ws)
    ensures LevelOut(ss) == Live(Flatten(ws)) <==> DecidesAs(ss, ws)
  {
    hide MarkersOnly, AllStrict, StrictKeys, Flatten, Lookup, Live, LevelOut, DecidesAt, DecidesAs, EarlyAbove;
    DecidesByKey(ss, ws);
    OutStrictIff(ss);
    DecidesAtIff(ss, ws, []);
    forall k ensures Lookup(LevelOut(ss), k) == Lookup(Live(Flatten(ws)), k) <==> DecidesAt(ss, ws, k) {
      DecidesAtIff(ss, ws, k);
    }
    if DecidesAs(ss, ws) {
      MapDeterminesStream(LevelOut(ss), Live(Flatten(ws)));
    }
  }

  /** Without a marker at the front of any stream nothing is disturbed. */
  lemma {:induction false} NoMarkerIsRight(ss: seq<seq<Entry>>)
    requires MarkersOnly(ss) && LastMarker(ss) == -1
    ensures LevelOut(ss) == Live(Flatten(ss))
  {
    assert ss[0..] == ss;
  }

  // ---- layers that share no entry ----------------------------------------------------------------------

  /** No live entry that comes early also decides among the held streams. */
  ghost predicate SharesNoEntry(ss: seq<seq<Entry>>) {
    forall x :: x in Early(ss) && x.value != [] ==> Layered(Held(ss), x.key) != Some(x)
  }

  /** Early live keys are new to the held streams and lie below all their live keys. */
  ghost predicate EarlyIsBelow(ss: seq<seq<Entry>>) {
    forall x :: x in Early(ss) && x.value != [] ==>
      Layered(Held(ss), x.key).None? && AllAbove(x, Live(Flatten(Held(ss))))
  }

  /** Passing the early keys changes no live value of the held streams. */
  ghost predicate HeldStaysLive(ss: seq<seq<Entry>>) {
    forall k :: LiveValue(Layered(Held(ss), k)) == LiveValue(Layered(Late(ss), k))
  }

  lemma {:induction false} LateIsFewer(ss: seq<seq<Entry>>, k: Key)
    requires MarkersOnly(ss) && Layered(Held(ss), k).None?
    ensures Layered(Late(ss), k).None?
  {
    hide StrictKeys, LastMarker, Lookup, Early, DropShared;
    LastMarkerRange(ss);
    forall i | 0 <= i < |Late(ss)| ensures Lookup(Late(ss)[i], k).None? {
      LayeredNoneAt(Held(ss), k, i);
      FewerLeft(ss[i], Early(ss), k);
    }
    LayeredNone(Late(ss), k);
  }

  lemma {:induction false} LayeredNoneAt(ss: seq<seq<Entry>>, k: Key, i: nat)
    requires Layered(ss, k).None? && i < |ss|
    ensures Lookup(ss[i], k).None?
  {
    if i > 0 {
      LayeredNoneAt(ss[1..], k, i - 1);
    }
  }

  lemma {:induction false} FewerLeft(s: seq<Entry>, t: seq<Entry>, k: Key)
    requires StrictKeys(s) && Lookup(Strip(s), k).None?
    ensures Lookup(LeftOf(s, t), k).None?
  {
    hide StrictKeys, Lookup, DropShared;
    if !OnMarker(s) {
      DropSharedSuffix(s, t);
      LookupMember(s, k);
      LookupMember(LeftOf(s, t), k);
    }
  }

  lemma {:induction false} SameLive(ss: seq<seq<Entry>>)
    requires MarkersOnly(ss) && HeldStaysLive(ss)
    ensures Live(Flatten(Held(ss))) == Live(Flatten(Late(ss)))
  {
    hide MarkersOnly, AllStrict, StrictKeys, Flatten, Lookup, Late, Held, Layered, Live;
    HalvesAreStrict(ss);
    var a, b := Flatten(Held(ss)), Flatten(Late(ss));
    FlattenMeaning(Held(ss));
    FlattenMeaning(Late(ss));
    LiveStrict(a);
    LiveStrict(b);
    forall k ensures Lookup(Live(a), k) == Lookup(Live(b), k) {
      LiveLookup(a, k);
      LiveLookup(b, k);
    }
    MapDeterminesStream(Live(a), Live(b));
  }

  lemma {:induction false} StaysLiveAt(ss: seq<seq<Entry>>, k: Key)
    requires MarkersOnly(ss) && SharesNoEntry(ss) && Undisturbed(ss)
    ensures LiveValue(Layered(Held(ss), k)) == LiveValue(Layered(Late(ss), k))
  {
    hide MarkersOnly, StrictKeys, Lookup, Early, Late, Held, Layered, Live, AllAbove;
    LookupMember(Early(ss), k);
    if Lookup(Early(ss), k).None? {
      LateDecidesAlike(ss, k);
    } else if Lookup(Early(ss), k).value.value != [] {
      LateIsFewer(ss, k);
    }
  }

  /** When the layers share no entry: the scan is the layered map if and only if the early live keys are new to
      the held streams and below their live keys, and passing the early keys costs them no live value. */
  lemma {:induction false} LevelOutApartIff(ss: seq<seq<Entry>>)
    requires MarkersOnly(ss) && SharesNoEntry(ss)
    ensures LevelOut(ss) == Live(Flatten(ss)) <==> EarlyIsBelow(ss) && HeldStaysLive(ss)
  {
    hide MarkersOnly, StrictKeys, Flatten, Lookup, Early, Late, Held, Layered, Live, LevelOut, AllAbove;
    LevelOutIff(ss);
    if Undisturbed(ss) {
      forall k ensures LiveValue(Layered(Held(ss), k)) == LiveValue(Layered(Late(ss), k)) {
        StaysLiveAt(ss, k);
      }
      SameLive(ss);
    }
    if HeldStaysLive(ss) {
      SameLive(ss);
    }
  }

  // ---- failing cases -------------------------------------------------------------------------------------

  lemma FlattenLone(s: seq<Entry>)
    ensures Flatten([s]) == s
  {
    assert [s][1..] == [];
  }

  /** Level 1 with a marker in front, over level 2 with one old version. */
  function TwoLevels(one: seq<Entry>, old': Entry): seq<seq<Entry>> {
    [[], [], [Entry([], [], 2)] + one, [old']]
  }

  lemma {:induction false} TwoLevelsOut(one: seq<Entry>, old': Entry)
    requires old'.key != []
    ensures LastMarker(TwoLevels(one, old')) == 2
    ensures LevelOut(TwoLevels(one, old')) == Live([old']) + Live(one)
  {
    var ss := TwoLevels(one, old');
    LastMarkerIs(ss, 2);
    assert ss[3..] == [[old']];
    FlattenLone([old']);
    var m := [Entry([], [], 2)] + one;
    assert m[1..] == one;
    var late := Late(ss);
    assert late[0] == [] && late[1] == [] && late[2] == one;
    assert late == [[], [], one];
    assert late[1..] == [[], one] && [[], one][1..] == [one] && [one][1..] == [];
    FlattenLone(one);
    assert Flatten([[], one]) == one;
  }

  lemma {:induction false} TwoLevelsWanted(new': Entry, old': Entry)
    requires new'.key == old'.key != []
    ensures Live(Flatten(TwoLevels([new'], old'))) == Live([new'])
  {
    var mark := Entry([], [], 2);
    var ss := TwoLevels([new'], old');
    var m := [mark] + [new'];
    assert ss[1..] == [[], m, [old']] && ss[1..][1..] == [m, [old']] && [m, [old']][1..] == [[old']];
    assert [[old']][1..] == [] && m[1..] == [new'] && [new'][1..] == [] && [old'][1..] == [];
    NothingBelowEmpty(old'.key);
    assert Flatten([[old']]) == [old'];
    assert Override([new'], [old']) == Override([new'], []) == [new'];
    assert Override(m, [old']) == [mark] + [new'];
    assert Flatten([m, [old']]) == m;
    assert Flatten(ss) == m;
    assert Live(m) == Live([new']);
  }

  /** A marker in level 1, which every commit leaves: the old version of level 2 comes first and the new one
      after it, and a deletion in level 1 does not hide it. */
  lemma {:induction false} MarkerDisplacesLevel()
    ensures var new', gone, old' := Entry([97], [50], 2), Entry([97], [], 2), Entry([97], [49], 1);
            && LevelOut(TwoLevels([new'], old')) == [old', new'] && Live(Flatten(TwoLevels([new'], old'))) == [new']
            && LevelOut(TwoLevels([gone], old')) == [old'] && Live(Flatten(TwoLevels([gone], old'))) == []
  {
    var new', gone, old' := Entry([97], [50], 2), Entry([97], [], 2), Entry([97], [49], 1);
    assert Live([new']) == [new'] && Live([old']) == [old'] && Live([gone]) == [];
    TwoLevelsOut([new'], old');
    TwoLevelsWanted(new', old');
    TwoLevelsOut([gone], old');
    TwoLevelsWanted(gone, old');
  }

  /** The very same entry in front of and behind a marker: nothing is disturbed, although the key is held. */
  lemma {:induction false} SharedEntryIsHarmless(x: Entry, mark: Entry)
    requires x.key != [] && x.value != [] && mark.key == [] && mark.value == []
    ensures var ss := [[x], [mark], [x]];
            LevelOut(ss) == [x] && Live(Flatten(ss)) == [x] && Layered(Held(ss), x.key) == Some(x)
  {
    var ss := [[x], [mark], [x]];
    LastMarkerIs(ss, 1);
    assert ss[2..] == [[x]];
    FlattenLone([x]);
    assert [x][1..] == [] && [mark][1..] == [] && DropShared([x], [x]) == DropShared([], [x]) == [];
    assert Late(ss)[0] == [] && Late(ss)[1] == [] && Held(ss)[0] == [x];
    FlattenExhausted(Late(ss));
    assert ss[1..] == [[mark], [x]] && [[mark], [x]][1..] == [[x]];
    NothingBelowEmpty(x.key);
    assert Override([mark], [x]) == [mark] + Override([], [x]) == [mark, x];
    KeyTrichotomy(x.key, []);
    assert [mark, x][1..] == [x] && Override([x], [x]) == Override([x], []) == [x];
    assert Override([x], [mark, x]) == [mark] + Override([x], [x]);
    assert Live([mark, x]) == Live([x]) == [x];
  }
}
