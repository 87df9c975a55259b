/** Byte strings and the key order used by every component: `std::string` compares
    byte by byte, unsigned, with a proper prefix before its extensions. */
module Keys {

  type Byte = b: int | 0 <= b < 256

  /** Keys and values are byte strings. An empty value marks a deletion. */
  type Key = seq<Byte>
  type Value = seq<Byte>

  predicate KeyLess(a: Key, b: Key) {
    b != [] && (a == [] || a[0] < b[0] || (a[0] == b[0] && KeyLess(a[1..], b[1..])))
  }

  /** A key read as a fraction in base 257 (digit 0 is "no byte"). The embedding turns the
      key order into the order of the reals, whose laws the proofs then use. */
  ghost function Rank(a: Key): (r: real)
    ensures 0.0 <= r < 1.0
  {
    if a == [] then 0.0 else (a[0] as real + 1.0 + Rank(a[1..])) / 257.0
  }

  lemma {:induction false} RankReflectsOrder(a: Key, b: Key)
    ensures KeyLess(a, b) <==> Rank(a) < Rank(b)
    ensures a == b <==> Rank(a) == Rank(b)
  {
    if a != [] && b != [] {
      RankReflectsOrder(a[1..], b[1..]);
      if a[0] == b[0] && a[1..] == b[1..] {
        assert a == [a[0]] + a[1..] == b;
      }
    }
  }

  /** The key order is a strict total order, handed out as an order-preserving, injective map
      into the reals: every order fact below comes from here. */
  lemma KeyOrder() returns (rank: Key -> real)
    ensures forall a: Key, b: Key {:trigger KeyLess(a, b)} ::
              (KeyLess(a, b) <==> rank(a) < rank(b)) && (a == b <==> rank(a) == rank(b))
  {
    rank := a => Rank(a);
    forall a: Key, b: Key
      ensures (KeyLess(a, b) <==> rank(a) < rank(b)) && (a == b <==> rank(a) == rank(b))
    {
      RankReflectsOrder(a, b);
    }
  }

  lemma KeyTrichotomy(a: Key, b: Key)
    ensures KeyLess(a, b) || a == b || KeyLess(b, a)
    ensures !(KeyLess(a, b) && KeyLess(b, a)) && !KeyLess(a, a)
  {
    RankReflectsOrder(a, b);
    RankReflectsOrder(b, a);
    RankReflectsOrder(a, a);
  }
}
