/** CRC-32 as the value log computes it (the CRC of section 8 of RFC 1952). */
module Crc32 {

  const POLYNOMIAL: bv32 := 0xEDB88320
  const ALL_ONES: bv32 := 0xFFFFFFFF

  function Xor(a: bv32, b: bv32): bv32 { a ^ b }

  function Wide(d: bv8): bv32 { d as bv32 }

  predicate Odd(c: bv32) { c & 1 == 1 }

  function Half(c: bv32): bv32 { c >> 1 }

  function BitStep(c: bv32): bv32 {
    if Odd(c) then Xor(Half(c), POLYNOMIAL) else Half(c)
  }

  function Steps(n: nat, c: bv32): bv32 {
    if n == 0 then c else BitStep(Steps(n - 1, c))
  }

  function ByteStep(c: bv32, d: bv8): bv32 {
    Steps(8, Xor(c, Wide(d)))
  }

  function Feed(c: bv32, data: seq<bv8>): bv32 {
    if data == [] then c else ByteStep(Feed(c, data[..|data| - 1]), data[|data| - 1])
  }

  function Crc(data: seq<bv8>): bv32 {
    Xor(Feed(ALL_ONES, data), ALL_ONES)
  }

  method Crc32Compute(data: seq<bv8>) returns (result: bv32)
    ensures result == Crc(data)
  {
    hide BitStep;
    var crc := ALL_ONES;
    var i := 0;
    while i < |data|
      invariant 0 <= i <= |data| && crc == Feed(ALL_ONES, data[..i])
    {
      crc := crc ^ (data[i] as bv32);
      ghost var start := crc;
      var j := 0;
      while j < 8
        invariant 0 <= j <= 8 && crc == Steps(j, start)
      {
        crc := Shift(crc);
        j := j + 1;
      }
      assert data[..i + 1][..i] == data[..i];
      i := i + 1;
    }
    assert data[..i] == data;
    return crc ^ ALL_ONES;
  }

  /** The body of the bit loop. */
  method Shift(c: bv32) returns (r: bv32)
    ensures r == BitStep(c)
  {
    if c & 1 == 1 {
      r := (c >> 1) ^ POLYNOMIAL;
    } else {
      r := c >> 1;
    }
  }

  // ---- injectivity -----------------------------------------------------------------------------------

  /** The polynomial's top bit tells which branch a step took, and the shift loses only the bit it tests. */
  lemma BitStepInjective(a: bv32, b: bv32)
    requires BitStep(a) == BitStep(b)
    ensures a == b
  {
  }

  lemma {:induction false} StepsInjective(n: nat, a: bv32, b: bv32)
    requires Steps(n, a) == Steps(n, b)
    ensures a == b
  {
    hide BitStep;
    if n > 0 {
      BitStepInjective(Steps(n - 1, a), Steps(n - 1, b));
      StepsInjective(n - 1, a, b);
    }
  }

  lemma ByteStepInjective(a: bv32, b: bv32, d: bv8)
    requires ByteStep(a, d) == ByteStep(b, d)
    ensures a == b
  {
    hide Steps, Xor, Wide;
    StepsInjective(8, Xor(a, Wide(d)), Xor(b, Wide(d)));
    XorInjective(a, b, Wide(d));
  }

  lemma XorInjective(a: bv32, b: bv32, d: bv32)
    requires Xor(a, d) == Xor(b, d)
    ensures a == b
  {
  }

  /** What follows a difference cannot hide it. */
  lemma {:induction false} FeedInjective(a: bv32, b: bv32, data: seq<bv8>)
    requires Feed(a, data) == Feed(b, data)
    ensures a == b
  {
    hide ByteStep;
    if data != [] {
      var most := data[..|data| - 1];
      ByteStepInjective(Feed(a, most), Feed(b, most), data[|data| - 1]);
      FeedInjective(a, b, most);
    }
  }

  lemma {:induction false} FeedConcat(c: bv32, x: seq<bv8>, y: seq<bv8>)
    ensures Feed(c, x + y) == Feed(Feed(c, x), y)
  {
    hide ByteStep;
    if y == [] {
      assert x + y == x;
    } else {
      FeedConcat(c, x, y[..|y| - 1]);
      assert (x + y)[..|x + y| - 1] == x + y[..|y| - 1];
    }
  }

  // ---- up to four bytes act as one word -----------------------------------------------------------------

  function Double(d: bv32): bv32 { d << 1 }

  predicate TopClear(d: bv32) { d < 0x80000000 }

  /** `d` moved up by `n` bits, and the room it needs for that. */
  function Up(n: nat, d: bv32): bv32 {
    if n == 0 then d else Up(n - 1, Double(d))
  }

  predicate Room(n: nat, d: bv32) {
    n == 0 || (TopClear(d) && Room(n - 1, Double(d)))
  }

  /** A bit above the one a step tests just moves down. */
  lemma StepCarries(a: bv32, d: bv32)
    requires TopClear(d)
    ensures BitStep(Xor(a, Double(d))) == Xor(BitStep(a), d)
  {
    hide Odd, Half, Xor, Double, TopClear;
    LowBitStays(a, d);
    RestMovesDown(a, d);
    XorSwaps(Half(a), d, POLYNOMIAL);
  }

  lemma LowBitStays(a: bv32, d: bv32)
    ensures Odd(Xor(a, Double(d))) == Odd(a)
  {
  }

  lemma RestMovesDown(a: bv32, d: bv32)
    requires TopClear(d)
    ensures Half(Xor(a, Double(d))) == Xor(Half(a), d)
  {
  }

  lemma XorSwaps(a: bv32, b: bv32, c: bv32)
    ensures Xor(Xor(a, b), c) == Xor(Xor(a, c), b)
  {
    hide Xor;
    XorAssociative(a, b, c);
    XorAssociative(a, c, b);
    XorCommutes(b, c);
  }

  lemma XorCommutes(a: bv32, b: bv32)
    ensures Xor(a, b) == Xor(b, a)
  {
  }

  lemma {:induction false} StepsCarry(n: nat, a: bv32, d: bv32)
    requires Room(n, d)
    ensures Steps(n, Xor(a, Up(n, d))) == Xor(Steps(n, a), d)
  {
    hide BitStep, Xor, Double, TopClear;
    if n > 0 {
      StepsCarry(n - 1, a, Double(d));
      StepCarries(Steps(n - 1, a), d);
    }
  }

  lemma {:induction false} StepsAdd(m: nat, n: nat, c: bv32)
    ensures Steps(m, Steps(n, c)) == Steps(m + n, c)
  {
    hide BitStep;
    if m > 0 {
      StepsAdd(m - 1, n, c);
    }
  }

  /** Up to four bytes as one number, the first byte lowest. */
  function Word(x: seq<bv8>): bv32 {
    if x == [] then 0 else Xor(Word(x[..|x| - 1]), Up(8 * (|x| - 1), Wide(x[|x| - 1])))
  }

  lemma Double4(d: bv32)
    requires d < 0x10000000
    ensures var e := Double(Double(d));
            && Double(Double(e)) == d << 4
            && TopClear(d) && TopClear(Double(d)) && TopClear(e) && TopClear(Double(e))
  {
  }

  lemma {:induction false} UpNibble(n: nat, d: bv32)
    requires d < 0x10000000
    ensures Up(n + 4, d) == Up(n, d << 4)
    ensures Room(n, d << 4) ==> Room(n + 4, d)
  {
    Double4(d);
    Unfold4(n, d);
  }

  lemma Unfold4(n: nat, d: bv32)
    ensures var e := Double(Double(d));
            var clear := TopClear(d) && TopClear(Double(d)) && TopClear(e) && TopClear(Double(e));
            && Up(n + 4, d) == Up(n, Double(Double(e)))
            && (Room(n, Double(Double(e))) && clear ==> Room(n + 4, d))
  {
    hide Double, TopClear;
    var e := Double(Double(d));
    assert Up(n + 2, e) == Up(n + 1, Double(e)) && Up(n + 3, Double(d)) == Up(n + 2, e);
    assert Room(n, Double(Double(e))) && TopClear(e) && TopClear(Double(e)) ==>
             Room(n + 1, Double(e)) && Room(n + 2, e);
  }

  function ByteUp(d: bv32): bv32 { d << 8 }

  predicate Low24(d: bv32) { d < 0x1000000 }

  lemma UpByte(n: nat, d: bv32)
    requires Low24(d)
    ensures Up(n + 8, d) == Up(n, ByteUp(d))
    ensures Room(n, ByteUp(d)) ==> Room(n + 8, d)
  {
    hide Up, Room;
    Nibbles(d);
    UpNibble(n + 4, d);
    UpNibble(n, d << 4);
  }

  lemma Nibbles(d: bv32)
    requires Low24(d)
    ensures d < 0x10000000 && d << 4 < 0x10000000 && (d << 4) << 4 == ByteUp(d)
  {
  }

  /** A byte as the i-th of a word. */
  function Placed(b: bv8, i: nat): bv32 {
    var d := Wide(b);
    if i == 0 then d else if i == 1 then ByteUp(d) else if i == 2 then ByteUp(ByteUp(d)) else ByteUp(ByteUp(ByteUp(d)))
  }

  lemma {:induction false} UpByByte(b: bv8)
    ensures Up(0, Wide(b)) == Placed(b, 0) && Up(8, Wide(b)) == Placed(b, 1)
    ensures Up(16, Wide(b)) == Placed(b, 2) && Up(24, Wide(b)) == Placed(b, 3)
    ensures Room(0, Wide(b)) && Room(8, Wide(b)) && Room(16, Wide(b)) && Room(24, Wide(b))
  {
    hide Up, Room, Wide, ByteUp, Low24;
    var d := Wide(b);
    var e := ByteUp(d);
    var f := ByteUp(e);
    BytesStayLow(b);
    UpNothing(d);
    UpNothing(e);
    UpNothing(f);
    UpNothing(ByteUp(f));
    UpByte(0, d);
    UpByte(8, d);
    UpByte(0, e);
    UpByte(16, d);
    UpByte(8, e);
    UpByte(0, f);
  }

  lemma UpNothing(d: bv32)
    ensures Up(0, d) == d && Room(0, d)
  {
  }

  lemma BytesStayLow(b: bv8)
    ensures var d := Wide(b); Low24(d) && Low24(ByteUp(d)) && Low24(ByteUp(ByteUp(d)))
  {
  }

  /** Feeding up to four bytes is stepping once over their word. */
  lemma {:induction false} FeedIsWord(c: bv32, x: seq<bv8>)
    requires |x| <= 4
    ensures Feed(c, x) == Steps(8 * |x|, Xor(c, Word(x)))
  {
    hide Steps, Xor, Up, Room, BitStep, Wide, Placed;
    if x == [] {
      XorNothing(c);
    } else {
      var most, b := x[..|x| - 1], x[|x| - 1];
      var d, n := Wide(b), 8 * |most|;
      FeedIsWord(c, most);
      UpByByte(b);
      StepsCarry(n, Xor(c, Word(most)), d);
      StepsAdd(8, n, Xor(Xor(c, Word(most)), Up(n, d)));
      XorAssociative(c, Word(most), Up(n, d));
    }
  }

  lemma XorNothing(c: bv32)
    ensures Steps(0, Xor(c, 0)) == c
  {
  }

  lemma XorAssociative(a: bv32, b: bv32, c: bv32)
    ensures Xor(Xor(a, b), c) == Xor(a, Xor(b, c))
  {
  }

  lemma XorCancels(c: bv32, a: bv32, b: bv32)
    requires Xor(c, a) == Xor(c, b)
    ensures a == b
  {
  }

  /** Words of `i` bytes. */
  predicate Fits(i: nat, w: bv32) {
    w < (if i == 0 then 1 else if i == 1 then 0x100 else if i == 2 then 0x10000 else 0x1000000)
  }

  lemma Apart0(w: bv32, w': bv32, b: bv8, b': bv8)
    requires Fits(0, w) && Fits(0, w')
    ensures Fits(1, Xor(w, Placed(b, 0)))
    ensures Xor(w, Placed(b, 0)) == Xor(w', Placed(b', 0)) ==> w == w' && b == b'
  {
  }

  lemma Apart1(w: bv32, w': bv32, b: bv8, b': bv8)
    requires Fits(1, w) && Fits(1, w')
    ensures Fits(2, Xor(w, Placed(b, 1)))
    ensures Xor(w, Placed(b, 1)) == Xor(w', Placed(b', 1)) ==> w == w' && b == b'
  {
  }

  lemma Apart2(w: bv32, w': bv32, b: bv8, b': bv8)
    requires Fits(2, w) && Fits(2, w')
    ensures Fits(3, Xor(w, Placed(b, 2)))
    ensures Xor(w, Placed(b, 2)) == Xor(w', Placed(b', 2)) ==> w == w' && b == b'
  {
  }

  lemma Apart3(w: bv32, w': bv32, b: bv8, b': bv8)
    requires Fits(3, w) && Fits(3, w')
    ensures Xor(w, Placed(b, 3)) == Xor(w', Placed(b', 3)) ==> w == w' && b == b'
  {
  }

  /** The last byte of a word stands apart from the bytes before it. */
  lemma {:induction false} TopByteApart(i: nat, w: bv32, w': bv32, b: bv8, b': bv8)
    requires i <= 3 && Fits(i, w) && Fits(i, w')
    ensures i < 3 ==> Fits(i + 1, Xor(w, Up(8 * i, Wide(b))))
    ensures Xor(w, Up(8 * i, Wide(b))) == Xor(w', Up(8 * i, Wide(b'))) ==> w == w' && b == b'
  {
    hide Up, Room, Xor, Wide, Placed, Fits;
    UpByByte(b);
    UpByByte(b');
    if i == 0 {
      Apart0(w, w', b, b');
    } else if i == 1 {
      Apart1(w, w', b, b');
    } else if i == 2 {
      Apart2(w, w', b, b');
    } else {
      Apart3(w, w', b, b');
    }
  }

  lemma {:induction false} WordFits(x: seq<bv8>)
    requires |x| <= 3
    ensures Fits(|x|, Word(x))
  {
    hide Xor, Up, Wide;
    if x != [] {
      hide Fits;
      var most := x[..|x| - 1];
      WordFits(most);
      TopByteApart(|most|, Word(most), Word(most), x[|x| - 1], x[|x| - 1]);
    }
  }

  lemma {:induction false} WordInjective(x: seq<bv8>, y: seq<bv8>)
    requires |x| == |y| <= 4 && Word(x) == Word(y)
    ensures x == y
  {
    hide Xor, Up, Wide, Fits;
    if x != [] {
      var xs, ys, n := x[..|x| - 1], y[..|y| - 1], |x| - 1;
      WordFits(xs);
      WordFits(ys);
      TopByteApart(n, Word(xs), Word(ys), x[n], y[n]);
      WordInjective(xs, ys);
      assert x == xs + [x[n]] && y == ys + [y[n]];
    }
  }

  // ---- what the checksum detects --------------------------------------------------------------------------

  /** Two messages that differ only inside a window of at most four bytes have different checksums. */
  lemma {:induction false} BurstDetected(before: seq<bv8>, x: seq<bv8>, y: seq<bv8>, after: seq<bv8>)
    requires |x| == |y| <= 4 && x != y
    ensures Crc(before + x + after) != Crc(before + y + after)
  {
    hide Feed, Steps, Word, Xor;
    var c := Feed(ALL_ONES, before);
    FeedConcat(ALL_ONES, before, x);
    FeedConcat(ALL_ONES, before, y);
    FeedConcat(ALL_ONES, before + x, after);
    FeedConcat(ALL_ONES, before + y, after);
    if Crc(before + x + after) == Crc(before + y + after) {
      XorInjective(Feed(Feed(c, x), after), Feed(Feed(c, y), after), ALL_ONES);
      FeedInjective(Feed(c, x), Feed(c, y), after);
      FeedIsWord(c, x);
      FeedIsWord(c, y);
      StepsInjective(8 * |x|, Xor(c, Word(x)), Xor(c, Word(y)));
      XorCancels(c, Word(x), Word(y));
      WordInjective(x, y);
    }
  }

  /** In particular, equal-length messages that differ in exactly one byte. */
  lemma {:induction false} ByteErrorDetected(a: seq<bv8>, b: seq<bv8>, i: nat)
    requires |a| == |b| && i < |a| && a[i] != b[i]
    requires forall j :: 0 <= j < |a| && j != i ==> a[j] == b[j]
    ensures Crc(a) != Crc(b)
  {
    hide Crc;
    var before, after := a[..i], a[i + 1..];
    assert a == before + [a[i]] + after;
    assert b == before + [b[i]] + after;
    BurstDetected(before, [a[i]], [b[i]], after);
  }

  // ---- which checksum it is ------------------------------------------------------------------------------

  /** Eight steps, one by one. */
  lemma {:induction false} EightSteps(c: bv32, d: bv32, e: bv32, f: bv32, g: bv32, h: bv32, i: bv32, j: bv32, k: bv32)
    requires BitStep(c) == d && BitStep(d) == e && BitStep(e) == f && BitStep(f) == g
    requires BitStep(g) == h && BitStep(h) == i && BitStep(i) == j && BitStep(j) == k
    ensures Steps(8, c) == k
  {
    hide BitStep;
    assert Steps(1, c) == d && Steps(2, c) == e && Steps(3, c) == f && Steps(4, c) == g;
    assert Steps(5, c) == h && Steps(6, c) == i && Steps(7, c) == j;
  }

  /** The register after the four bytes that cancel it to all ones. */
  lemma {:induction false} ThirtyTwoSteps()
    ensures Steps(32, ALL_ONES) == 0xDEBB20E3
  {
    hide Steps;
    OnesByEight();
    StepsAdd(8, 8, ALL_ONES);
    StepsAdd(8, 16, ALL_ONES);
    StepsAdd(8, 24, ALL_ONES);
  }

  lemma OnesByEight()
    ensures Steps(8, ALL_ONES) == 0x2DFD1072 && Steps(8, 0x2DFD1072) == 0xBE26ED00
    ensures Steps(8, 0xBE26ED00) == 0x00BE26ED && Steps(8, 0x00BE26ED) == 0xDEBB20E3
  {
    hide Steps;
    EightSteps(0xFFFFFFFF, 0x92477CDF, 0xA49B3D4F, 0xBFF51D87, 0xB2420DE3,
               0xB49985D1, 0xB7F441C8, 0x5BFA20E4, 0x2DFD1072);
    EightSteps(0x2DFD1072, 0x16FE8839, 0xE6C7C73C, 0x7363E39E, 0x39B1F1CF,
               0xF1607BC7, 0x9508BEC3, 0xA73CDC41, 0xBE26ED00);
    EightSteps(0xBE26ED00, 0x5F137680, 0x2F89BB40, 0x17C4DDA0, 0x0BE26ED0,
               0x05F13768, 0x02F89BB4, 0x017C4DDA, 0x00BE26ED);
    EightSteps(0x00BE26ED, 0xEDE79056, 0x76F3C82B, 0xD6C16735, 0x86D830BA,
               0x436C185D, 0xCC0E8F0E, 0x66074787, 0xDEBB20E3);
  }

  /** The four bytes of a checksum, lowest first, as they are stored. */
  function BytesOf(w: bv32): seq<bv8> {
    [(w & 0xFF) as bv8, ((w >> 8) & 0xFF) as bv8, ((w >> 16) & 0xFF) as bv8, ((w >> 24) & 0xFF) as bv8]
  }

  lemma {:induction false} WordOfBytes(w: bv32)
    ensures Word(BytesOf(w)) == w
  {
    hide Xor, Up, Room, Wide, Placed, BytesOf;
    var x := BytesOf(w);
    BytesAssemble(w);
    UpByByte(x[0]);
    UpByByte(x[1]);
    UpByByte(x[2]);
    UpByByte(x[3]);
    assert x[..3][..2] == x[..2] && x[..2][..1] == x[..1] && x[..1][..0] == [];
    assert Word(x[..0]) == 0;
    assert Word(x[..1]) == Xor(0, Placed(x[0], 0));
    assert Word(x[..2]) == Xor(Word(x[..1]), Placed(x[1], 1));
    assert Word(x[..3]) == Xor(Word(x[..2]), Placed(x[2], 2));
    assert x[..4] == x;
  }

  lemma BytesAssemble(w: bv32)
    ensures var x := BytesOf(w);
            |x| == 4 &&
            Xor(Xor(Xor(Xor(0, Placed(x[0], 0)), Placed(x[1], 1)), Placed(x[2], 2)), Placed(x[3], 3)) == w
  {
  }

  lemma XorUndoes(c: bv32)
    ensures Xor(c, Xor(c, ALL_ONES)) == ALL_ONES && Xor(0xDEBB20E3, ALL_ONES) == 0x2144DF1C
  {
  }

  /** A message followed by its own checksum has the residue of CRC-32, whatever the message. */
  lemma {:induction false} Residue(m: seq<bv8>)
    ensures Crc(m + BytesOf(Crc(m))) == 0x2144DF1C
  {
    hide Feed, Steps, Word, Xor, BytesOf;
    var c := Feed(ALL_ONES, m);
    var tail := BytesOf(Crc(m));
    BytesAssemble(Crc(m));
    FeedConcat(ALL_ONES, m, tail);
    FeedIsWord(c, tail);
    WordOfBytes(Crc(m));
    XorUndoes(c);
    ThirtyTwoSteps();
  }

  lemma Digits123()
    ensures ByteStep(0xFFFFFFFF, 0x31) == 0x7C231048
    ensures ByteStep(0x7C231048, 0x32) == 0xB0ACBB32
    ensures ByteStep(0xB0ACBB32, 0x33) == 0x77B79C2D
  {
    hide Steps;
    EightSteps(0xFFFFFFCE, 0x7FFFFFE7, 0xD2477CD3, 0x849B3D49, 0xAFF51D84,
               0x57FA8EC2, 0x2BFD4761, 0xF8462090, 0x7C231048);
    EightSteps(0x7C23107A, 0x3E11883D, 0xF2B0473E, 0x7958239F, 0xD11492EF,
               0x8532CA57, 0xAF21E60B, 0xBA287025, 0xB0ACBB32);
    EightSteps(0xB0ACBB01, 0xB5EEDEA0, 0x5AF76F50, 0x2D7BB7A8, 0x16BDDBD4,
               0x0B5EEDEA, 0x05AF76F5, 0xEF6F385A, 0x77B79C2D);
  }

  lemma Digits456()
    ensures ByteStep(0x77B79C2D, 0x34) == 0x641C1F5C
    ensures ByteStep(0x641C1F5C, 0x35) == 0x340AC5E3
    ensures ByteStep(0x340AC5E3, 0x36) == 0xF68D2C9E
  {
    hide Steps;
    EightSteps(0x77B79C19, 0xD6634D2C, 0x6B31A696, 0x3598D34B, 0xF774EA85,
               0x9602F662, 0x4B017B31, 0xC8383EB8, 0x641C1F5C);
    EightSteps(0x641C1F69, 0xDFB68C94, 0x6FDB464A, 0x37EDA325, 0xF64E52B2,
               0x7B272959, 0xD02B178C, 0x68158BC6, 0x340AC5E3);
    EightSteps(0x340AC5D5, 0xF7BDE1CA, 0x7BDEF0E5, 0xD057FB52, 0x682BFDA9,
               0xD9AD7DF4, 0x6CD6BEFA, 0x366B5F7D, 0xF68D2C9E);
  }

  lemma Digits789()
    ensures ByteStep(0xF68D2C9E, 0x37) == 0xAFFC9660
    ensures ByteStep(0xAFFC9660, 0x38) == 0x651F2550
    ensures ByteStep(0x651F2550, 0x39) == 0x340BC6D9
  {
    hide Steps;
    EightSteps(0xF68D2CA9, 0x96FE1574, 0x4B7F0ABA, 0x25BF855D, 0xFF67418E,
               0x7FB3A0C7, 0xD2615343, 0x84882A81, 0xAFFC9660);
    EightSteps(0xAFFC9658, 0x57FE4B2C, 0x2BFF2596, 0x15FF92CB, 0xE7474A45,
               0x9E1B2602, 0x4F0D9301, 0xCA3E4AA0, 0x651F2550);
    EightSteps(0x651F2569, 0xDF371194, 0x6F9B88CA, 0x37CDC465, 0xF65E6112,
               0x7B2F3089, 0xD02F1B64, 0x68178DB2, 0x340BC6D9);
  }

  lemma {:induction false} FeedOne(c: bv32, x: seq<bv8>, b: bv8)
    ensures Feed(c, x + [b]) == ByteStep(Feed(c, x), b)
  {
    hide ByteStep;
    assert (x + [b])[..|x|] == x;
  }

  /** The check value of CRC-32: the checksum of the digits from one to nine. */
  lemma {:induction false} CheckValue()
    ensures Crc([0x31, 0x32, 0x33, 0x34, 0x35, 0x36, 0x37, 0x38, 0x39]) == 0xCBF43926
  {
    hide ByteStep, Feed, Xor;
    Digits123();
    Digits456();
    Digits789();
    FeedNothing(ALL_ONES);
    var m: seq<bv8> := [0x31, 0x32, 0x33, 0x34, 0x35, 0x36, 0x37, 0x38, 0x39];
    FeedOne(ALL_ONES, m[..0], 0x31);
    FeedOne(ALL_ONES, m[..1], 0x32);
    FeedOne(ALL_ONES, m[..2], 0x33);
    FeedOne(ALL_ONES, m[..3], 0x34);
    FeedOne(ALL_ONES, m[..4], 0x35);
    FeedOne(ALL_ONES, m[..5], 0x36);
    FeedOne(ALL_ONES, m[..6], 0x37);
    FeedOne(ALL_ONES, m[..7], 0x38);
    FeedOne(ALL_ONES, m[..8], 0x39);
    assert m[..1] == m[..0] + [0x31] && m[..2] == m[..1] + [0x32] && m[..3] == m[..2] + [0x33];
    assert m[..4] == m[..3] + [0x34] && m[..5] == m[..4] + [0x35] && m[..6] == m[..5] + [0x36];
    assert m[..7] == m[..6] + [0x37] && m[..8] == m[..7] + [0x38] && m[..9] == m[..8] + [0x39];
    assert m[..0] == [] && m[..9] == m;
    LastXor();
  }

  lemma FeedNothing(c: bv32)
    ensures Feed(c, []) == c
  {
  }

  lemma LastXor()
    ensures Xor(0x340BC6D9, ALL_ONES) == 0xCBF43926
  {
  }
}
