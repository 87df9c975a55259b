/** Little-endian numbers inside byte buffers, shared by the binary formats. */
module LittleEndian {
  import opened Keys

  const TWO_16: nat := 0x1_0000
  const TWO_64: nat := 0x1_0000_0000_0000_0000

  function Pow256(w: nat): (p: nat)
    ensures p >= 1
  {
    if w == 0 then 1 else 256 * Pow256(w - 1)
  }

  function ToBytes(n: nat, w: nat): (s: seq<Byte>)
    ensures |s| == w
  {
    if w == 0 then [] else [n % 256] + ToBytes(n / 256, w - 1)
  }

  function FromBytes(s: seq<Byte>): nat {
    if s == [] then 0 else s[0] + 256 * FromBytes(s[1..])
  }

  /** Byte `i` is the digit of weight 256 to the power `i`. */
  lemma {:induction false} DigitAt(n: nat, w: nat, i: nat)
    requires i < w
    ensures ToBytes(n, w)[i] == n / Pow256(i) % 256
  {
    if i > 0 {
      DigitAt(n / 256, w - 1, i - 1);
      DivTwice(n, 256, Pow256(i - 1));
    }
  }

  lemma {:induction false} DivTwice(n: nat, a: nat, p: nat)
    requires a >= 1 && p >= 1
    ensures n / a / p == n / (a * p)
  {
    var b := n / a;
    assert n == Times(b, a) + n % a && b == Times(b / p, p) + b % p;
    Nest(a, p, b, n % a, b / p, b % p);
    DivIs(n, b / p, Times(b % p, a) + n % a, a * p);
  }

  function Times(x: nat, y: nat): nat { x * y }

  lemma {:induction false} Nest(a: nat, p: nat, b: nat, s: nat, q: nat, t: nat)
    requires s < a && b == Times(q, p) + t && t < p
    ensures Times(b, a) == Times(q, Times(a, p)) + Times(t, a) && Times(t, a) + s < Times(a, p)
  {
    hide Times;
    TimesPlus(Times(q, p), t, a);
    TimesTimes(q, p, a);
    TimesPlus(t, p - t, a);
    TimesSwaps(a, p);
    TimesGrows(p - t, a);
  }

  lemma TimesPlus(x: nat, y: nat, z: nat)
    ensures Times(x + y, z) == Times(x, z) + Times(y, z)
  {
  }

  lemma TimesTimes(q: nat, p: nat, a: nat)
    ensures Times(Times(q, p), a) == Times(q, Times(a, p))
  {
    assert q * p * a == q * (p * a) && p * a == a * p;
  }

  lemma TimesSwaps(x: nat, y: nat)
    ensures Times(x, y) == Times(y, x)
  {
  }

  lemma TimesGrows(x: nat, y: nat)
    requires x >= 1
    ensures Times(x, y) >= y
  {
    assert (x - 1) * y >= 0;
  }

  lemma {:induction false} DivIs(n: nat, q: nat, r: nat, m: nat)
    requires r < m && n == q * m + r
    ensures n / m == q
  {
    var d := n / m - q;
    assert n == n / m * m + n % m;
    assert d * m == r - n % m;
    assert (d >= 1 ==> d * m >= m) && (d <= -1 ==> d * m <= 0 - m);
  }

  lemma {:induction false} NumberRoundTrip(n: nat, w: nat)
    requires n < Pow256(w)
    ensures FromBytes(ToBytes(n, w)) == n
  {
    if w > 0 {
      NumberRoundTrip(n / 256, w - 1);
      assert ToBytes(n, w)[1..] == ToBytes(n / 256, w - 1);
    }
  }

  lemma Widths()
    ensures Pow256(2) == TWO_16 && Pow256(8) == TWO_64
  {
    assert Pow256(1) == 256 && Pow256(2) == 0x1_0000 && Pow256(3) == 0x100_0000 && Pow256(4) == 0x1_0000_0000;
    assert Pow256(5) == 0x100_0000_0000 && Pow256(6) == 0x1_0000_0000_0000 && Pow256(7) == 0x100_0000_0000_0000;
  }

  function Number(data: seq<Byte>, pos: nat, w: nat): nat
    requires pos + w <= |data|
  {
    FromBytes(data[pos..pos + w])
  }

  /** What a buffer holds at a position. */
  ghost predicate Holds(data: seq<Byte>, pos: nat, s: seq<Byte>) {
    pos + |s| <= |data| && data[pos..pos + |s|] == s
  }

  lemma {:induction false} HoldsParts(data: seq<Byte>, pos: nat, a: seq<Byte>, b: seq<Byte>)
    requires Holds(data, pos, a + b)
    ensures Holds(data, pos, a) && Holds(data, pos + |a|, b)
  {
    var s := data[pos..pos + |a + b|];
    forall i | 0 <= i < |a| ensures data[pos + i] == a[i] {
      assert s[i] == (a + b)[i];
    }
    forall i | 0 <= i < |b| ensures data[pos + |a| + i] == b[i] {
      assert s[|a| + i] == (a + b)[|a| + i];
    }
  }

  lemma {:induction false} HoldsNumber(data: seq<Byte>, pos: nat, n: nat, w: nat)
    requires n < Pow256(w) && Holds(data, pos, ToBytes(n, w))
    ensures Number(data, pos, w) == n
  {
    NumberRoundTrip(n, w);
  }
}
