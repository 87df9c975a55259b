/** Redis lists kept as one string per key, elements joined by a separator, against a double-ended
    queue. */
module RedisLists {
  import opened Entries

  const SEP: char := '#'

  // ---- split and join --------------------------------------------------------------------------------

  /** Where the first separator stands. */
  function Cut(s: string): (i: nat)
    ensures i <= |s| && SEP !in s[..i] && (i < |s| ==> s[i] == SEP)
  {
    if s == [] || s[0] == SEP then 0
    else
      var i := 1 + Cut(s[1..]);
      assert s[..i] == [s[0]] + s[1..][..i - 1];
      i
  }

  /** Reading tokens up to a separator or the end; nothing after a final separator counts. */
  function Split(s: string): seq<string>
    decreases |s|
  {
    if s == [] then []
    else
      var i := Cut(s);
      if i == |s| then [s] else [s[..i]] + Split(s[i + 1..])
  }

  function Join(es: seq<string>): string {
    if es == [] then []
    else if |es| == 1 then es[0]
    else es[0] + [SEP] + Join(es[1..])
  }

  method SplitTokens(s: string) returns (tokens: seq<string>)
    ensures tokens == Split(s)
  {
    tokens := [];
    var rest := s;
    while rest != []
      invariant tokens + Split(rest) == Split(s)
      decreases |rest|
    {
      var i := Cut(rest);
      if i == |rest| {
        assert Split(rest) == [rest];
        tokens := tokens + [rest];
        rest := [];
      } else {
        assert tokens + ([rest[..i]] + Split(rest[i + 1..])) == tokens + [rest[..i]] + Split(rest[i + 1..]);
        tokens := tokens + [rest[..i]];
        rest := rest[i + 1..];
      }
    }
  }

  method JoinElements(es: seq<string>) returns (s: string)
    ensures s == Join(es)
  {
    s := [];
    var i := 0;
    while i < |es|
      invariant 0 <= i <= |es| && s == Join(es[..i])
    {
      JoinStep(es[..i], es[i]);
      assert es[..i] + [es[i]] == es[..i + 1];
      if i > 0 {
        s := s + [SEP];
      }
      s := s + es[i];
      i := i + 1;
    }
    assert es[..i] == es;
  }

  lemma {:induction false} JoinStep(es: seq<string>, e: string)
    ensures Join(es + [e]) == if es == [] then e else Join(es) + [SEP] + e
  {
    if es == [] {
      assert es + [e] == [e];
    } else {
      var rest := es[1..];
      JoinStep(rest, e);
      assert (es + [e])[1..] == rest + [e];
      if |es| > 1 {
        assert es[0] + [SEP] + (Join(rest) + [SEP] + e) == (es[0] + [SEP] + Join(rest)) + [SEP] + e;
      }
    }
  }

  /** An element the encoding can carry. */
  predicate Plain(e: string) { e != [] && SEP !in e }

  predicate AllPlain(es: seq<string>) { forall i :: 0 <= i < |es| ==> Plain(es[i]) }

  lemma {:induction false} CutAt(v: string, rest: string)
    requires SEP !in v
    ensures Cut(v + [SEP] + rest) == |v| && Cut(v) == |v|
  {
    var s := v + [SEP] + rest;
    if v == [] {
      assert s[0] == SEP;
    } else {
      CutAt(v[1..], rest);
      assert s[1..] == v[1..] + [SEP] + rest && s[0] == v[0];
    }
  }

  lemma {:induction false} CutBefore(s: string, j: nat)
    requires j < |s| && s[j] == SEP
    ensures Cut(s) <= j
  {
    if s[0] != SEP {
      CutBefore(s[1..], j - 1);
    }
  }

  lemma {:induction false} SplitFirst(v: string, rest: string)
    requires SEP !in v
    ensures Split(v + [SEP] + rest) == [v] + Split(rest)
  {
    var s := v + [SEP] + rest;
    CutAt(v, rest);
    assert s[..|v|] == v && s[|v| + 1..] == rest;
  }

  lemma {:induction false} SplitLone(v: string)
    requires Plain(v)
    ensures Split(v) == [v]
  {
    CutAt(v, []);
  }

  /** Splitting undoes joining. */
  lemma {:induction false} SplitJoin(es: seq<string>)
    requires AllPlain(es)
    ensures Split(Join(es)) == es && (es != [] ==> Join(es) != [])
  {
    hide Split, Join;
    if es == [] {
      NothingJoined();
    } else {
      var first, rest := es[0], es[1..];
      assert es == [first] + rest && Plain(first);
      JoinCons(first, rest);
      if rest == [] {
        SplitLone(first);
      } else {
        SplitJoin(rest);
        SplitFirst(first, Join(rest));
      }
    }
  }

  lemma NothingJoined()
    ensures Join([]) == [] && Split([]) == []
  {
  }

  lemma JoinCons(e: string, rest: seq<string>)
    ensures Join([e] + rest) == if rest == [] then e else e + [SEP] + Join(rest)
  {
    assert ([e] + rest)[1..] == rest;
  }

  // ---- the commands ------------------------------------------------------------------------------------

  datatype Command = LPush(v: string) | RPush(v: string) | LPop | RPop | LLen | LRange(start: int, stop: int)
  datatype Reply = Count(n: nat) | Element(e: Option<string>) | Elements(es: seq<string>)

  /** `int` against `size_t`: a negative number compares as a huge one. */
  predicate AtLeastUnsigned(i: int, n: nat) { i < 0 || i >= n }

  /** The index arithmetic of LRANGE on a list of `n` elements. */
  function FirstIndex(n: nat, start: int): (lo: int)
    ensures lo >= 0
  {
    var lo := if start < 0 then start + n else start;
    if lo < 0 then 0 else lo
  }

  function LastIndex(n: nat, stop: int): (hi: int)
    ensures hi < n
  {
    var hi := if stop < 0 then stop + n else stop;
    if AtLeastUnsigned(hi, n) then n - 1 else hi
  }

  function CodeRange(es: seq<string>, start: int, stop: int): seq<string> {
    var lo, hi := FirstIndex(|es|, start), LastIndex(|es|, stop);
    if es == [] || lo > hi then [] else es[lo..hi + 1]
  }

  /** What LRANGE promises: the slice between the two ends, clamped to the list. */
  function ClampedRange(es: seq<string>, start: int, stop: int): seq<string> {
    var lo := if start < 0 then start + |es| else start;
    var hi := if stop < 0 then stop + |es| else stop;
    var lo' := if lo < 0 then 0 else lo;
    var hi' := if hi >= |es| then |es| - 1 else hi;
    if lo' > hi' then [] else es[lo'..hi' + 1]
  }

  /** A stop far enough below zero stays negative and is then taken for the last element: the answer
      is the promised one exactly when the stop reaches the list or the answer is empty anyway. */
  lemma RangeExactIff(es: seq<string>, start: int, stop: int)
    ensures CodeRange(es, start, stop) == ClampedRange(es, start, stop) <==>
            stop >= -|es| || start >= |es| || es == []
  {
    if es != [] && stop < -|es| && start < |es| {
      assert CodeRange(es, start, stop) == es[FirstIndex(|es|, start)..|es|];
    }
  }

  lemma RangeBelowListReturnsAll()
    ensures CodeRange(["a", "b"], 0, -3) == ["a", "b"] && ClampedRange(["a", "b"], 0, -3) == []
  {
  }

  /** What a command does to the string stored for its key ("" when there is none). */
  function Stored(s: string, c: Command): string {
    match c
    case LPush(v) => if s != [] then v + [SEP] + s else v
    case RPush(v) => if s != [] then s + [SEP] + v else v
    case LPop => var es := Split(s); if es == [] then s else Join(es[1..])
    case RPop => var es := Split(s); if es == [] then s else Join(es[..|es| - 1])
    case LLen => s
    case LRange(_, _) => s
  }

  function Replied(s: string, c: Command): Reply {
    var es := Split(s);
    match c
    case LPush(_) => Count(|Split(Stored(s, c))|)
    case RPush(_) => Count(|Split(Stored(s, c))|)
    case LPop => Element(if es == [] then None else Some(es[0]))
    case RPop => Element(if es == [] then None else Some(es[|es| - 1]))
    case LLen => Count(|es|)
    case LRange(start, stop) => Elements(CodeRange(es, start, stop))
  }

  /** The same commands on a double-ended queue. */
  function Queue(d: seq<string>, c: Command): seq<string> {
    match c
    case LPush(v) => [v] + d
    case RPush(v) => d + [v]
    case LPop => if d == [] then d else d[1..]
    case RPop => if d == [] then d else d[..|d| - 1]
    case LLen => d
    case LRange(_, _) => d
  }

  function QueueReply(d: seq<string>, c: Command): Reply {
    match c
    case LPush(_) => Count(|d| + 1)
    case RPush(_) => Count(|d| + 1)
    case LPop => Element(if d == [] then None else Some(d[0]))
    case RPop => Element(if d == [] then None else Some(d[|d| - 1]))
    case LLen => Count(|d|)
    case LRange(start, stop) => Elements(ClampedRange(d, start, stop))
  }

  /** Commands for which the encoding keeps its promise on the list `d`. */
  predicate Proper(d: seq<string>, c: Command) {
    match c
    case LPush(v) => Plain(v)
    case RPush(v) => Plain(v)
    case LRange(start, stop) => stop >= -|d| || start >= |d| || d == []
    case _ => true
  }

  /** One command on the joined string is one command on the queue. */
  lemma {:induction false} CommandRefines(d: seq<string>, c: Command)
    requires AllPlain(d) && Proper(d, c)
    ensures AllPlain(Queue(d, c)) && Stored(Join(d), c) == Join(Queue(d, c)) && Replied(Join(d), c) == QueueReply(d, c)
  {
    hide Split;
    SplitJoin(d);
    assert AllPlain(Queue(d, c));
    SplitJoin(Queue(d, c));
    match c
    case LPush(v) => assert ([v] + d)[1..] == d;
    case RPush(v) => JoinStep(d, v);
    case LRange(start, stop) => RangeExactIff(d, start, stop);
    case _ =>
  }

  /** An element is read back as it was pushed if and only if it is plain: pushed at the right, or onto
      an empty list, neither empty elements nor separators survive; at the left of a non-empty list only
      separators do harm. */
  lemma {:induction false} PushExactIff(d: seq<string>, v: string)
    requires AllPlain(d)
    ensures Split(Stored(Join(d), RPush(v))) == d + [v] <==> Plain(v)
    ensures Split(Stored(Join(d), LPush(v))) == [v] + d <==> (SEP !in v && (d == [] ==> v != []))
  {
    hide Split, Join;
    SplitJoin(d);
    if d == [] {
      NothingJoined();
      LoneExactIff(v);
    } else {
      SplitAfter(d, v);
      LoneExactIff(v);
      if Split(v) == [v] {
      } else {
        assert (d + Split(v))[|d|..] == Split(v) && (d + [v])[|d|..] == [v];
      }
      LeftExactIff(v, Join(d));
    }
  }

  /** An empty element is lost at the right end, and a separator cuts an element in two. */
  lemma {:induction false} PushLoses()
    ensures Split(Stored(Join(["a"]), RPush(""))) == ["a"]
    ensures Split(Stored(Join(["a"]), LPush("b#c"))) == ["b", "c", "a"]
  {
    hide Split;
    NothingJoined();
    SplitLone("a");
    SplitFirst("a", "");
    assert Stored("a", RPush("")) == "a" + [SEP] + "";
    SplitFirst("c", "a");
    SplitFirst("b", "c" + [SEP] + "a");
    assert Stored("a", LPush("b#c")) == "b" + [SEP] + ("c" + [SEP] + "a");
    assert ["b"] + (["c"] + ["a"]) == ["b", "c", "a"];
    assert ["a"] + [] == ["a"];
  }

  lemma {:induction false} LoneExactIff(v: string)
    ensures Split(v) == [v] <==> Plain(v)
  {
    if Plain(v) {
      SplitLone(v);
    } else if v != [] {
      var j :| 0 <= j < |v| && v[j] == SEP;
      CutBefore(v, j);
      assert Split(v)[0] == v[..Cut(v)];
    }
  }

  lemma {:induction false} SplitAfter(d: seq<string>, v: string)
    requires AllPlain(d) && d != []
    ensures Split(Join(d) + [SEP] + v) == d + Split(v)
    decreases |d|
  {
    hide Split;
    if |d| == 1 {
      SplitFirst(d[0], v);
    } else {
      SplitAfter(d[1..], v);
      assert Join(d) + [SEP] + v == d[0] + [SEP] + (Join(d[1..]) + [SEP] + v);
      SplitFirst(d[0], Join(d[1..]) + [SEP] + v);
      assert [d[0]] + (d[1..] + Split(v)) == d + Split(v);
    }
  }

  lemma {:induction false} LeftExactIff(v: string, s: string)
    ensures Split(v + [SEP] + s) == [v] + Split(s) <==> SEP !in v
  {
    if SEP !in v {
      SplitFirst(v, s);
    } else {
      var all := v + [SEP] + s;
      var i := Cut(all);
      var j :| 0 <= j < |v| && v[j] == SEP;
      assert all[j] == SEP;
      CutBefore(all, j);
      assert Split(all)[0] == all[..i];
    }
  }

  // ---- whole runs --------------------------------------------------------------------------------------

  function Get(store: map<string, string>, key: string): string { if key in store then store[key] else [] }

  function List(lists: map<string, seq<string>>, key: string): seq<string> { if key in lists then lists[key] else [] }

  function RunStore(run: seq<(string, Command)>): map<string, string> {
    if run == [] then map[]
    else
      var s, (key, c) := RunStore(run[..|run| - 1]), run[|run| - 1];
      s[key := Stored(Get(s, key), c)]
  }

  function RunQueues(run: seq<(string, Command)>): map<string, seq<string>> {
    if run == [] then map[]
    else
      var q, (key, c) := RunQueues(run[..|run| - 1]), run[|run| - 1];
      q[key := Queue(List(q, key), c)]
  }

  /** Every command of the run is proper at its time. */
  ghost predicate ProperRun(run: seq<(string, Command)>) {
    run != [] ==>
      var most, (key, c) := run[..|run| - 1], run[|run| - 1];
      ProperRun(most) && Proper(List(RunQueues(most), key), c)
  }

  /** Any run of commands on any keys stores the joined queues, and the reply to a further command is
      the queue's. */
  lemma {:induction false} RunRefinesQueues(run: seq<(string, Command)>, key: string)
    requires ProperRun(run)
    ensures var d := List(RunQueues(run), key);
            && AllPlain(d) && Get(RunStore(run), key) == Join(d)
            && forall c :: Proper(d, c) ==> Replied(Get(RunStore(run), key), c) == QueueReply(d, c)
  {
    hide Split, Join, Replied, QueueReply, Proper, Stored, Queue;
    if run == [] {
      NothingJoined();
    } else {
      var most, k, c := run[..|run| - 1], run[|run| - 1].0, run[|run| - 1].1;
      RunRefinesQueues(most, key);
      RunRefinesQueues(most, k);
      CommandRefines(List(RunQueues(most), k), c);
    }
    var d := List(RunQueues(run), key);
    forall c | Proper(d, c) ensures Replied(Get(RunStore(run), key), c) == QueueReply(d, c) {
      CommandRefines(d, c);
    }
  }

  /** The loop that writes out a range. */
  method Collect(all: seq<string>, lo: nat, hi: nat) returns (es: seq<string>)
    requires lo <= hi < |all|
    ensures es == all[lo..hi + 1]
  {
    es := [];
    var i := lo;
    while i <= hi
      invariant lo <= i <= hi + 1 && es == all[lo..i]
    {
      es := es + [all[i]];
      i := i + 1;
    }
  }

  // ---- the wrapper ----------------------------------------------------------------------------------------

  /** The list commands of the wrapper; a stored empty string is no value. */
  class RedisWrapper {
    var store: map<string, string>

    constructor ()
      ensures store == map[]
    {
      store := map[];
    }

    method RedisLPush(key: string, v: string) returns (n: nat)
      modifies this
      ensures store == old(store)[key := Stored(Get(old(store), key), LPush(v))]
      ensures Count(n) == Replied(Get(old(store), key), LPush(v))
    {
      var list := Get(store, key);
      list := if list != [] then v + [SEP] + list else v;
      store := store[key := list];
      var tokens := SplitTokens(list);
      n := |tokens|;
    }

    method RedisRPush(key: string, v: string) returns (n: nat)
      modifies this
      ensures store == old(store)[key := Stored(Get(old(store), key), RPush(v))]
      ensures Count(n) == Replied(Get(old(store), key), RPush(v))
    {
      var list := Get(store, key);
      list := if list != [] then list + [SEP] + v else v;
      store := store[key := list];
      var tokens := SplitTokens(list);
      n := |tokens|;
    }

    method RedisLPop(key: string) returns (e: Option<string>)
      modifies this
      ensures forall k :: Get(store, k) == if k == key then Stored(Get(old(store), k), LPop) else Get(old(store), k)
      ensures Element(e) == Replied(Get(old(store), key), LPop)
    {
      var es := SplitTokens(Get(store, key));
      if es == [] {
        return None;
      }
      var rest := es[1..];
      if rest == [] {
        store := store - {key};
      } else {
        var joined := JoinElements(rest);
        store := store[key := joined];
      }
      e := Some(es[0]);
    }

    method RedisRPop(key: string) returns (e: Option<string>)
      modifies this
      ensures forall k :: Get(store, k) == if k == key then Stored(Get(old(store), k), RPop) else Get(old(store), k)
      ensures Element(e) == Replied(Get(old(store), key), RPop)
    {
      var es := SplitTokens(Get(store, key));
      if es == [] {
        return None;
      }
      var rest := es[..|es| - 1];
      if rest == [] {
        store := store - {key};
      } else {
        var joined := JoinElements(rest);
        store := store[key := joined];
      }
      e := Some(es[|es| - 1]);
    }

    method RedisLLen(key: string) returns (n: nat)
      ensures Count(n) == Replied(Get(store, key), LLen)
    {
      var es := SplitTokens(Get(store, key));
      n := |es|;
    }

    method RedisLRange(key: string, start: int, stop: int) returns (es: seq<string>)
      ensures Elements(es) == Replied(Get(store, key), LRange(start, stop))
    {
      hide Split;
      var all := SplitTokens(Get(store, key));
      if all == [] {
        return [];
      }
      var lo, hi := start, stop;
      if lo < 0 { lo := lo + |all|; }
      if hi < 0 { hi := hi + |all|; }
      if lo < 0 { lo := 0; }
      if AtLeastUnsigned(hi, |all|) { hi := |all| - 1; }
      assert lo == FirstIndex(|all|, start) && hi == LastIndex(|all|, stop);
      if lo > hi {
        return [];
      }
      es := Collect(all, lo, hi);
    }
  }
}
