/** The Bloom filter: double hashing into a bit vector, and its packed byte format. */
module BloomFilters {
  import opened Keys
  import opened LittleEndian

  /** `rate` is the false positive rate as the eight bytes of its stored form; no answer depends on it. */
  datatype Filter = Filter(expected: nat, rate: seq<Byte>, numBits: nat, numHashes: nat, bits: seq<bool>)

  const SALT: Key := [115, 97, 108, 116]

  /** The idx-th position of a key, in 64-bit arithmetic; `h` is the library's string hash. */
  function Position(h: Key -> nat, numBits: nat, key: Key, idx: nat): (p: nat)
    requires numBits >= 1
    ensures p < numBits
  {
    ((h(key) + idx * h(key + SALT) % TWO_64) % TWO_64) % numBits
  }

  predicate Marks(h: Key -> nat, f: Filter, key: Key, p: nat)
    requires f.numBits >= 1
  {
    exists i :: 0 <= i < f.numHashes && Position(h, f.numBits, key, i) == p
  }

  /** A filter whose bit vector has the size it says. */
  predicate Sized(f: Filter) { f.numBits >= 1 && |f.bits| == f.numBits }

  /** `g` is `f` with the positions of `key` set and nothing else changed. */
  ghost predicate Adds(h: Key -> nat, f: Filter, key: Key, g: Filter)
    requires Sized(f)
  {
    && g == f.(bits := g.bits) && Sized(g)
    && forall p :: 0 <= p < f.numBits ==> (g.bits[p] <==> f.bits[p] || Marks(h, f, key, p))
  }

  ghost predicate MayContain(h: Key -> nat, f: Filter, key: Key)
    requires Sized(f)
  {
    forall i :: 0 <= i < f.numHashes ==> f.bits[Position(h, f.numBits, key, i)]
  }

  // ---- every sequence of adds ------------------------------------------------------------------------

  /** `fs` is a history: `fs[0]` is empty and each next filter adds the next key. */
  ghost predicate History(h: Key -> nat, fs: seq<Filter>, keys: seq<Key>) {
    && |fs| == |keys| + 1 && (forall n :: 0 <= n < |fs| ==> Sized(fs[n]))
    && (forall p :: 0 <= p < |fs[0].bits| ==> !fs[0].bits[p])
    && forall n :: 0 <= n < |keys| ==> Adds(h, fs[n], keys[n], fs[n + 1])
  }

  /** After any adds, exactly the positions of the added keys are set. */
  lemma {:induction false} BitsAreMarks(h: Key -> nat, fs: seq<Filter>, keys: seq<Key>, n: nat, p: nat)
    requires History(h, fs, keys) && n <= |keys| && p < fs[0].numBits
    ensures fs[n] == fs[0].(bits := fs[n].bits)
    ensures fs[n].bits[p] <==> exists j :: 0 <= j < n && Marks(h, fs[0], keys[j], p)
  {
    if n > 0 {
      BitsAreMarks(h, fs, keys, n - 1, p);
      assert Adds(h, fs[n - 1], keys[n - 1], fs[n]);
      assert Marks(h, fs[n - 1], keys[n - 1], p) == Marks(h, fs[0], keys[n - 1], p);
      if fs[n].bits[p] && fs[n - 1].bits[p] {
        var j :| 0 <= j < n - 1 && Marks(h, fs[0], keys[j], p);
      }
    }
  }

  /** Is `p` a position of one of the keys? */
  ghost predicate Marked(h: Key -> nat, f: Filter, keys: seq<Key>, p: nat)
    requires f.numBits >= 1
  {
    exists j :: 0 <= j < |keys| && Marks(h, f, keys[j], p)
  }

  /** No false negatives, and a key is reported exactly when each of its positions belongs to some added key. */
  lemma {:induction false} ReportedIff(h: Key -> nat, fs: seq<Filter>, keys: seq<Key>, key: Key)
    requires History(h, fs, keys)
    ensures Sized(fs[|keys|])
    ensures MayContain(h, fs[|keys|], key) <==>
            forall i :: 0 <= i < fs[0].numHashes ==> Marked(h, fs[0], keys, Position(h, fs[0].numBits, key, i))
    ensures key in keys ==> MayContain(h, fs[|keys|], key)
  {
    var f, n := fs[0], |keys|;
    BitsAreMarks(h, fs, keys, n, 0);
    forall i | 0 <= i < f.numHashes
      ensures fs[n].bits[Position(h, f.numBits, key, i)] <==> Marked(h, f, keys, Position(h, f.numBits, key, i))
    {
      BitsAreMarks(h, fs, keys, n, Position(h, f.numBits, key, i));
    }
    if key in keys {
      var j :| 0 <= j < n && keys[j] == key;
      forall i | 0 <= i < f.numHashes ensures Marks(h, f, keys[j], Position(h, f.numBits, key, i)) {}
    }
  }

  // ---- where the positions are -----------------------------------------------------------------------

  /** The 64-bit sum behind a position: the key's hash, and the hash of the salted key added once per index. */
  function Sum(h: Key -> nat, key: Key, idx: nat): nat {
    if idx == 0 then h(key) % TWO_64 else (Sum(h, key, idx - 1) + h(key + [115, 97, 108, 116])) % TWO_64
  }

  function Mod(x: nat, m: nat): nat
    requires m >= 1
  {
    x % m
  }

  lemma {:induction false} ModIs(x: nat, q: int, r: nat, m: nat)
    requires r < m && x == q * m + r
    ensures Mod(x, m) == r
  {
    var d := q - x / m;
    assert x == x / m * m + x % m;
    assert d * m == x % m - r;
    assert (d >= 1 ==> d * m >= m) && (d <= -1 ==> d * m <= 0 - m);
  }

  lemma {:induction false} ModAdd(a: nat, b: nat, m: nat)
    requires m >= 1
    ensures Mod(a + Mod(b, m), m) == Mod(a + b, m)
  {
    var x := a + b % m;
    var q, p := x / m, b / m;
    assert b == p * m + b % m && x == q * m + x % m;
    assert (q + p) * m == q * m + p * m;
    ModIs(a + b, q + p, x % m, m);
  }

  lemma {:induction false} AddStep(a: nat, b: nat, p: nat, m: nat)
    requires m >= 1
    ensures Mod(Mod(a + Mod(p, m), m) + b, m) == Mod(a + Mod(p + b, m), m)
  {
    hide Mod;
    ModAdd(a, p, m);
    ModAdd(b, a + p, m);
    ModAdd(a, p + b, m);
  }

  /** The positions of a key are the sums, reduced to the number of bits. */
  lemma {:induction false} PositionIsSum(h: Key -> nat, n: nat, key: Key, idx: nat)
    requires n >= 1
    ensures Position(h, n, key, idx) == Sum(h, key, idx) % n
  {
    SumIs(h, key, idx);
  }

  lemma {:induction false} SumIs(h: Key -> nat, key: Key, idx: nat)
    ensures Sum(h, key, idx) == (h(key) + idx * h(key + SALT) % TWO_64) % TWO_64
  {
    if idx > 0 {
      SumIs(h, key, idx - 1);
      var b := h(key + SALT);
      AddStep(h(key), b, (idx - 1) * b, TWO_64);
      assert (idx - 1) * b + b == idx * b;
    }
  }

  /** No sum up to index `idx` leaves 64 bits. */
  predicate Narrow(h: Key -> nat, key: Key, idx: nat) {
    h(key) + idx * h(key + [115, 97, 108, 116]) < TWO_64
  }

  function Spot(h: Key -> nat, n: nat, key: Key, idx: nat): nat
    requires n >= 1
  {
    (h(key) + idx * h(key + [115, 97, 108, 116])) % n
  }

  /** Without overflow, the first position is the hash, and each next one is a second hash further on. */
  lemma {:induction false} PositionsStride(h: Key -> nat, n: nat, key: Key, idx: nat)
    requires n >= 1 && h(key) < TWO_64
    ensures Position(h, n, key, 0) == h(key) % n
    ensures Narrow(h, key, idx) ==> Position(h, n, key, idx) == Spot(h, n, key, idx)
    ensures Narrow(h, key, idx + 1) ==>
              Position(h, n, key, idx + 1) == (Position(h, n, key, idx) + h(key + [115, 97, 108, 116])) % n
  {
    hide Position, Spot;
    NarrowSpot0(h, n, key);
    if Narrow(h, key, idx + 1) {
      NarrowLess(h(key), h(key + SALT), idx);
      NarrowSpot(h, n, key, idx + 1);
      SpotNext(h, n, key, idx);
    }
    if Narrow(h, key, idx) {
      NarrowSpot(h, n, key, idx);
    }
  }

  lemma NarrowSpot0(h: Key -> nat, n: nat, key: Key)
    requires n >= 1 && h(key) < TWO_64
    ensures Position(h, n, key, 0) == h(key) % n
  {
  }

  lemma NarrowLess(a: nat, b: nat, idx: nat)
    ensures a + (idx + 1) * b == a + idx * b + b
  {
  }

  lemma {:induction false} SpotNext(h: Key -> nat, n: nat, key: Key, idx: nat)
    requires n >= 1
    ensures Spot(h, n, key, idx + 1) == (Spot(h, n, key, idx) + h(key + SALT)) % n
  {
    var b := h(key + SALT);
    var p := idx * b;
    assert (idx + 1) * b == p + b;
    ModAdd(b, h(key) + p, n);
  }

  lemma NarrowSum(a: nat, b: nat, idx: nat)
    ensures a + idx * b < TWO_64 ==> (a + idx * b % TWO_64) % TWO_64 == a + idx * b
  {
    if a + idx * b < TWO_64 {
      assert 0 <= idx * b < TWO_64;
    }
  }

  /** The same, computed from the hash alone. */
  ghost predicate Spotted(h: Key -> nat, f: Filter, keys: seq<Key>, p: nat)
    requires f.numBits >= 1
  {
    exists j, i :: 0 <= j < |keys| && 0 <= i < f.numHashes && Spot(h, f.numBits, keys[j], i) == p
  }

  /** A key is reported exactly when each of its positions, computed from the hash alone, is one of an added key. */
  lemma {:induction false} ReportedByHash(h: Key -> nat, fs: seq<Filter>, keys: seq<Key>, key: Key)
    requires History(h, fs, keys)
    requires forall i :: 0 <= i < fs[0].numHashes ==> Narrow(h, key, i)
    requires forall i, j :: 0 <= i < fs[0].numHashes && 0 <= j < |keys| ==> Narrow(h, keys[j], i)
    ensures Sized(fs[|keys|])
    ensures MayContain(h, fs[|keys|], key) <==>
            forall i :: 0 <= i < fs[0].numHashes ==> Spotted(h, fs[0], keys, Spot(h, fs[0].numBits, key, i))
  {
    hide Spot, Narrow, Position, Adds, Marked, MayContain, Spotted;
    var f := fs[0];
    ReportedIff(h, fs, keys, key);
    forall i, j | 0 <= i < f.numHashes && 0 <= j < |keys|
      ensures Position(h, f.numBits, keys[j], i) == Spot(h, f.numBits, keys[j], i)
    {
      NarrowSpot(h, f.numBits, keys[j], i);
    }
    if MayContain(h, fs[|keys|], key) {
      forall i | 0 <= i < f.numHashes ensures Spotted(h, f, keys, Spot(h, f.numBits, key, i)) {
        NarrowSpot(h, f.numBits, key, i);
        SameSpots(h, f, keys, Position(h, f.numBits, key, i));
      }
    }
    if forall i :: 0 <= i < f.numHashes ==> Spotted(h, f, keys, Spot(h, f.numBits, key, i)) {
      forall i | 0 <= i < f.numHashes
        ensures Marked(h, f, keys, Position(h, f.numBits, key, i))
      {
        NarrowSpot(h, f.numBits, key, i);
        assert Spotted(h, f, keys, Spot(h, f.numBits, key, i));
        SameSpots(h, f, keys, Position(h, f.numBits, key, i));
      }
    }
  }

  lemma NarrowSpot(h: Key -> nat, n: nat, key: Key, idx: nat)
    requires n >= 1 && Narrow(h, key, idx)
    ensures Position(h, n, key, idx) == Spot(h, n, key, idx)
  {
    NarrowSum(h(key), h(key + SALT), idx);
  }

  lemma {:induction false} SameSpots(h: Key -> nat, f: Filter, keys: seq<Key>, p: nat)
    requires f.numBits >= 1
    requires forall i, j :: 0 <= i < f.numHashes && 0 <= j < |keys| ==>
               Position(h, f.numBits, keys[j], i) == Spot(h, f.numBits, keys[j], i)
    ensures Marked(h, f, keys, p) <==> Spotted(h, f, keys, p)
  {
    hide Spot, Position;
    if Marked(h, f, keys, p) {
      var j :| 0 <= j < |keys| && Marks(h, f, keys[j], p);
      var i :| 0 <= i < f.numHashes && Position(h, f.numBits, keys[j], i) == p;
      assert Spot(h, f.numBits, keys[j], i) == p;
    }
    if Spotted(h, f, keys, p) {
      var j, i :| 0 <= j < |keys| && 0 <= i < f.numHashes && Spot(h, f.numBits, keys[j], i) == p;
      assert Position(h, f.numBits, keys[j], i) == p;
      assert Marks(h, f, keys[j], p);
    }
  }

  /** Two keys with the same first hash are told apart by the second. */
  lemma {:induction false} SecondHashTells(h: Key -> nat, fs: seq<Filter>, x: Key, y: Key)
    requires History(h, fs, [x]) && fs[0].numBits == 16 && fs[0].numHashes == 2
    requires h(x) == 3 && h(y) == 3
    requires h(x + [115, 97, 108, 116]) == 1 && h(y + [115, 97, 108, 116]) == 5
    ensures Sized(fs[1]) && !MayContain(h, fs[1], y)
  {
    var s, keys := fs[0], [x];
    ReportedByHash(h, fs, keys, y);
    assert Spot(h, 16, y, 1) == 8 && Spot(h, 16, x, 0) == 3 && Spot(h, 16, x, 1) == 4;
  }

  // ---- packed bits -----------------------------------------------------------------------------------

  function Pow2(n: nat): (p: nat)
    ensures p >= 1
  {
    if n == 0 then 1 else 2 * Pow2(n - 1)
  }

  /** The number whose binary digits are `bs`, lowest first. */
  function Pack(bs: seq<bool>): nat {
    if bs == [] then 0 else (if bs[0] then 1 else 0) + 2 * Pack(bs[1..])
  }

  /** `(n >> j) & 1`. */
  function TestBit(n: nat, j: nat): bool {
    if j == 0 then n % 2 == 1 else TestBit(n / 2, j - 1)
  }

  lemma {:induction false} PackRange(bs: seq<bool>)
    ensures Pack(bs) < Pow2(|bs|)
  {
    if bs != [] { PackRange(bs[1..]); }
  }

  lemma {:induction false} PackBit(bs: seq<bool>, j: nat)
    requires j < |bs|
    ensures TestBit(Pack(bs), j) == bs[j]
  {
    if j > 0 {
      PackBit(bs[1..], j - 1);
      assert Pack(bs) / 2 == Pack(bs[1..]);
    }
  }

  /** Setting the next bit. */
  lemma {:induction false} PackStep(bs: seq<bool>, b: bool)
    ensures Pack(bs + [b]) == Pack(bs) + if b then Pow2(|bs|) else 0
  {
    if bs == [] {
      assert bs + [b] == [b];
    } else {
      PackStep(bs[1..], b);
      assert (bs + [b])[1..] == bs[1..] + [b];
    }
  }

  function Chunk(bits: seq<bool>, i: nat): (c: seq<bool>)
    requires i * 8 < |bits|
    ensures 1 <= |c| <= 8
  {
    if i * 8 + 8 <= |bits| then bits[i * 8..i * 8 + 8] else bits[i * 8..]
  }

  function ByteAt(bits: seq<bool>, i: nat): (b: Byte)
    requires i * 8 < |bits|
  {
    PackRange(Chunk(bits, i));
    assert Pow2(8) == 256 && Pow2(4) == 16;
    PowGrows(|Chunk(bits, i)|, 8);
    Pack(Chunk(bits, i))
  }

  lemma {:induction false} PowGrows(a: nat, b: nat)
    requires a <= b
    ensures Pow2(a) <= Pow2(b)
  {
    if a < b { PowGrows(a, b - 1); }
  }

  function NumBytes(n: nat): nat { (n + 7) / 8 }

  function PackAll(bits: seq<bool>): (bytes: seq<Byte>)
    ensures |bytes| == NumBytes(|bits|)
  {
    seq(NumBytes(|bits|), i requires 0 <= i < NumBytes(|bits|) => ByteAt(bits, i))
  }

  function UnpackAll(bytes: seq<Byte>, n: nat): (bits: seq<bool>)
    requires |bytes| >= NumBytes(n)
    ensures |bits| == n
  {
    seq(n, p requires 0 <= p < n => TestBit(bytes[p / 8], p % 8))
  }

  /** Unpacking undoes packing for any number of bits. */
  lemma {:induction false} UnpackPack(bits: seq<bool>)
    ensures UnpackAll(PackAll(bits), |bits|) == bits
  {
    forall p | 0 <= p < |bits| ensures UnpackAll(PackAll(bits), |bits|)[p] == bits[p] {
      var i, j := p / 8, p % 8;
      PackBit(Chunk(bits, i), j);
    }
  }

  // ---- the byte format ---------------------------------------------------------------------------------

  function Encode(f: Filter): seq<Byte> {
    ToBytes(f.expected, 8) + (f.rate + (ToBytes(f.numBits, 8) + (ToBytes(f.numHashes, 8) + PackAll(f.bits))))
  }

  /** Is there a whole filter in `data`? */
  predicate Readable(data: seq<Byte>) {
    |data| >= 32 && |data| >= 32 + NumBytes(Number(data, 16, 8))
  }

  function Decode(data: seq<Byte>): Filter
    requires Readable(data)
  {
    var n := Number(data, 16, 8);
    Filter(Number(data, 0, 8), data[8..16], n, Number(data, 24, 8), UnpackAll(data[32..], n))
  }

  ghost predicate Storable(f: Filter) {
    f.expected < TWO_64 && |f.rate| == 8 && f.numBits < TWO_64 && f.numHashes < TWO_64 && |f.bits| == f.numBits
  }

  /** A stored filter comes back as it was, whatever its bit count, so it answers every query alike. */
  lemma {:induction false} DecodeInverts(f: Filter)
    requires Storable(f)
    ensures Readable(Encode(f)) && Decode(Encode(f)) == f
  {
    hide ToBytes, PackAll, UnpackAll, Number, Pow256;
    Widths();
    var data := Encode(f);
    var bits := PackAll(f.bits);
    var hashes := ToBytes(f.numHashes, 8) + bits;
    var count := ToBytes(f.numBits, 8) + hashes;
    assert data[0..0 + |data|] == data;
    HoldsParts(data, 0, ToBytes(f.expected, 8), f.rate + count);
    HoldsParts(data, 8, f.rate, count);
    HoldsParts(data, 16, ToBytes(f.numBits, 8), hashes);
    HoldsParts(data, 24, ToBytes(f.numHashes, 8), bits);
    HoldsNumber(data, 0, f.expected, 8);
    HoldsNumber(data, 16, f.numBits, 8);
    HoldsNumber(data, 24, f.numHashes, 8);
    assert data[32..32 + |bits|] == bits && data[32..] == bits;
    UnpackPack(f.bits);
  }

  lemma {:induction false} TestBitIs(n: nat, j: nat)
    ensures TestBit(n, j) <==> n / Pow2(j) % 2 == 1
  {
    if j > 0 {
      TestBitIs(n / 2, j - 1);
      DivTwice(n, 2, Pow2(j - 1));
    }
  }

  /** Every byte of a stored filter: four 64-bit words, the lowest byte first, and eight bits to a byte, the lowest
      bit first. */
  lemma {:induction false} StoredBytes(f: Filter, i: nat, p: nat)
    requires |f.rate| == 8 && |f.bits| == f.numBits && i < 8
    ensures |Encode(f)| == 32 + (f.numBits + 7) / 8
    ensures Encode(f)[i] == f.expected / Pow256(i) % 256 && Encode(f)[8 + i] == f.rate[i]
    ensures Encode(f)[16 + i] == f.numBits / Pow256(i) % 256 && Encode(f)[24 + i] == f.numHashes / Pow256(i) % 256
    ensures p < f.numBits ==> (f.bits[p] <==> Encode(f)[32 + p / 8] / Pow2(p % 8) % 2 == 1)
  {
    hide ToBytes, Pow256, Pow2, UnpackAll;
    DigitAt(f.expected, 8, i);
    DigitAt(f.numBits, 8, i);
    DigitAt(f.numHashes, 8, i);
    if p < f.numBits {
      assert Encode(f)[32 + p / 8] == PackAll(f.bits)[p / 8];
      BitStored(f.bits, p);
    }
  }

  lemma {:induction false} BitStored(bits: seq<bool>, p: nat)
    requires p < |bits|
    ensures bits[p] <==> PackAll(bits)[p / 8] / Pow2(p % 8) % 2 == 1
  {
    hide PackAll, Pow2, TestBit;
    UnpackPack(bits);
    assert UnpackAll(PackAll(bits), |bits|)[p] == TestBit(PackAll(bits)[p / 8], p % 8);
    TestBitIs(PackAll(bits)[p / 8], p % 8);
  }

  // ---- the filter object ----------------------------------------------------------------------------------

  class BloomFilter {
    const hasher: Key -> nat
    var expected: nat
    var rate: seq<Byte>
    var numBits: nat
    var numHashes: nat
    var bits: seq<bool>

    function Model(): Filter
      reads this
    {
      Filter(expected, rate, numBits, numHashes, bits)
    }

    constructor (hasher: Key -> nat, f: Filter)
      ensures this.hasher == hasher && Model() == f
    {
      this.hasher := hasher;
      expected, rate, numBits, numHashes, bits := f.expected, f.rate, f.numBits, f.numHashes, f.bits;
    }

    method Add(key: Key)
      requires Sized(Model())
      modifies this`bits
      ensures Adds(hasher, old(Model()), key, Model())
    {
      var i := 0;
      while i < numHashes
        invariant 0 <= i <= numHashes && |bits| == numBits
        invariant forall p :: 0 <= p < numBits ==>
                    (bits[p] <==> old(bits)[p] || exists j :: 0 <= j < i && Position(hasher, numBits, key, j) == p)
      {
        bits := bits[Position(hasher, numBits, key, i) := true];
        i := i + 1;
      }
    }

    method PossiblyContains(key: Key) returns (r: bool)
      requires Sized(Model())
      ensures r <==> MayContain(hasher, Model(), key)
    {
      var i := 0;
      while i < numHashes
        invariant 0 <= i <= numHashes
        invariant forall j :: 0 <= j < i ==> bits[Position(hasher, numBits, key, j)]
      {
        if !bits[Position(hasher, numBits, key, i)] {
          return false;
        }
        i := i + 1;
      }
      return true;
    }

    method Clear()
      modifies this`bits
      ensures |bits| == |old(bits)| && forall p :: 0 <= p < |bits| ==> !bits[p]
    {
      bits := seq(|bits|, _ => false);
    }

    /** One byte of the packed bits: the inner loop of `encode`. */
    method PackByte(i: nat) returns (byte: Byte)
      requires |bits| == numBits && i * 8 < numBits
      ensures byte == ByteAt(bits, i)
    {
      hide Pack;
      var chunk := Chunk(bits, i);
      var sum, j := 0, 0;
      assert chunk[..0] == [] && Pack([]) == 0 by { PackNothing(); }
      while j < 8
        invariant 0 <= j <= 8
        invariant sum == Pack(chunk[..if j < |chunk| then j else |chunk|])
      {
        if i * 8 + j < numBits {
          assert chunk[..j] + [chunk[j]] == chunk[..j + 1] && chunk[j] == bits[i * 8 + j];
          PackStep(chunk[..j], chunk[j]);
          if bits[i * 8 + j] {
            sum := sum + Pow2(j);
          }
        }
        j := j + 1;
      }
      assert chunk[..|chunk|] == chunk;
      assert sum == ByteAt(bits, i);
      byte := sum;
    }

    method EncodeFilter() returns (data: seq<Byte>)
      requires |bits| == numBits
      ensures data == Encode(Model())
    {
      hide ToBytes, ByteAt;
      var head := ToBytes(expected, 8) + rate + ToBytes(numBits, 8) + ToBytes(numHashes, 8);
      var tail: seq<Byte> := [];
      var i := 0;
      while i < NumBytes(numBits)
        invariant 0 <= i <= NumBytes(numBits) && tail == PackAll(bits)[..i]
      {
        var byte := PackByte(i);
        tail := tail + [byte];
        i := i + 1;
      }
      data := head + tail;
    }
  }

  lemma PackNothing()
    ensures Pack([]) == 0
  {
  }

  /** The loops of `decode`: eight bits out of every byte. */
  method DecodeFilter(data: seq<Byte>, hasher: Key -> nat) returns (f: BloomFilter)
    requires Readable(data)
    ensures fresh(f) && f.Model() == Decode(data)
  {
    hide FromBytes, TestBit;
    var n := Number(data, 16, 8);
    var bits := seq(n, _ => false);
    var i := 0;
    while i < NumBytes(n)
      invariant 0 <= i <= NumBytes(n) && |bits| == n
      invariant forall p :: 0 <= p < n && p < i * 8 ==> bits[p] == TestBit(data[32..][p / 8], p % 8)
    {
      bits := UnpackByte(bits, data[32..], i);
      i := i + 1;
    }
    assert bits == UnpackAll(data[32..], n);
    f := new BloomFilter(hasher, Filter(Number(data, 0, 8), data[8..16], n, Number(data, 24, 8), bits));
  }

  method UnpackByte(bits: seq<bool>, bytes: seq<Byte>, i: nat) returns (r: seq<bool>)
    requires i < NumBytes(|bits|) <= |bytes|
    ensures |r| == |bits|
    ensures forall p :: 0 <= p < |bits| ==> r[p] == if p / 8 == i then TestBit(bytes[i], p % 8) else bits[p]
  {
    hide TestBit;
    r := bits;
    var j := 0;
    while j < 8
      invariant 0 <= j <= 8 && |r| == |bits|
      invariant forall p :: 0 <= p < |bits| ==>
                  r[p] == if i * 8 <= p < i * 8 + j then TestBit(bytes[i], p - i * 8) else bits[p]
    {
      if i * 8 + j < |bits| {
        r := r[i * 8 + j := TestBit(bytes[i], j)];
      }
      j := j + 1;
    }
  }
}
