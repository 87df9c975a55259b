/** Finite sets of ids: the ordered containers (`std::set`, sorted listings) read them in
    ascending order, from the least to the greatest. */
module IdSets {

  predicate IsLeast(s: set<nat>, m: nat) {
    m in s && forall n: nat :: n in s ==> m <= n
  }

  predicate IsGreatest(s: set<nat>, m: nat) {
    m in s && forall n: nat :: n in s ==> n <= m
  }

  lemma {:induction false} LeastExists(s: set<nat>) returns (m: nat)
    requires s != {}
    ensures IsLeast(s, m)
    decreases |s|
  {
    m :| m in s;
    var below := set n | n in s && n < m;
    if below != {} {
      assert m !in below && below < s;
      Smaller(below, s);
      var low := LeastExists(below);
      assert low in s && low < m;
      forall n: nat | n in s ensures low <= n {
        assert n < m ==> n in below;
      }
      m := low;
    } else {
      forall n: nat | n in s ensures m <= n {
        assert n < m ==> n in below;
      }
    }
  }

  lemma {:induction false} GreatestExists(s: set<nat>) returns (m: nat)
    requires s != {}
    ensures IsGreatest(s, m)
    decreases |s|
  {
    m :| m in s;
    var above := set n | n in s && n > m;
    if above != {} {
      assert m !in above && above < s;
      Smaller(above, s);
      var high := GreatestExists(above);
      assert high in s && high > m;
      forall n: nat | n in s ensures n <= high {
        assert n > m ==> n in above;
      }
      m := high;
    } else {
      forall n: nat | n in s ensures n <= m {
        assert n > m ==> n in above;
      }
    }
  }

  lemma {:induction false} Smaller(a: set<nat>, b: set<nat>)
    requires a < b
    ensures |a| < |b|
  {
    assert b == a + (b - a);
  }

  /** The first and the last element of the container. */
  ghost function Min(s: set<nat>): (m: nat)
    requires s != {}
    ensures IsLeast(s, m)
  {
    MinExists(s);
    var m :| IsLeast(s, m);
    m
  }

  ghost function Max(s: set<nat>): (m: nat)
    requires s != {}
    ensures IsGreatest(s, m)
  {
    MaxExists(s);
    var m :| IsGreatest(s, m);
    m
  }

  lemma MinExists(s: set<nat>)
    requires s != {}
    ensures exists m :: IsLeast(s, m)
  {
    var m := LeastExists(s);
  }

  lemma MaxExists(s: set<nat>)
    requires s != {}
    ensures exists m :: IsGreatest(s, m)
  {
    var m := GreatestExists(s);
  }

  /** A listing of a set in ascending order, as iterating over the container gives it. */
  ghost predicate Lists(order: seq<nat>, numbers: set<nat>) {
    && (forall i, j :: 0 <= i < j < |order| ==> order[i] < order[j])
    && (forall i :: 0 <= i < |order| ==> order[i] in numbers)
    && (forall n: nat :: n in numbers ==> exists i :: 0 <= i < |order| && order[i] == n)
  }

  method Ascending(numbers: set<nat>) returns (order: seq<nat>)
    ensures Lists(order, numbers)
  {
    order := [];
    var left := numbers;
    while left != {}
      invariant left <= numbers
      invariant Lists(order, numbers - left)
      invariant forall i: nat, n: nat :: i < |order| && n in left ==> order[i] < n
      decreases |left|
    {
      ghost var m := LeastExists(left);
      assert m in left && forall n: nat :: n in left ==> m <= n;
      var least :| least in left && forall n: nat :: n in left ==> least <= n;
      ListsOneMore(order, numbers - left, least);
      assert numbers - (left - {least}) == numbers - left + {least};
      var rest := left - {least};
      forall n: nat | n in rest ensures least < n {
        assert n in left && n != least;
      }
      order := order + [least];
      left := rest;
    }
    assert numbers - left == numbers;
  }

  lemma {:induction false} ListsOneMore(order: seq<nat>, numbers: set<nat>, n: nat)
    requires Lists(order, numbers) && forall i :: 0 <= i < |order| ==> order[i] < n
    ensures Lists(order + [n], numbers + {n})
  {
    var more := order + [n];
    forall m | m in numbers + {n} ensures exists i :: 0 <= i < |more| && more[i] == m {
      if m == n {
        assert more[|order|] == m;
      } else {
        var i :| 0 <= i < |order| && order[i] == m;
        assert more[i] == m;
      }
    }
  }
}
