// catalog/vaillant/ab23an23_b51b_local_budget_crc.go: the CRC shift register and the chunk budget.
module ShiftRegister {
  // Named, so that proofs above the bits can keep the bits out of sight.
  function Xor(x: bv16, y: bv16): bv16
  {
    x ^ y
  }

  /** One clock of the register for the polynomial 0x1021. */
  function Shift(c: bv16): bv16
  {
    if c & 0x8000 != 0 then (c << 1) ^ 0x1021 else c << 1
  }

  function Shift8(c: bv16): bv16
  {
    Shift(Shift(Shift(Shift(Shift(Shift(Shift(Shift(c))))))))
  }

  function Widen(b: bv8): bv16
  {
    (b as bv16) << 8
  }

  function Absorb(c: bv16, b: bv8): bv16
  {
    Shift8(Xor(c, Widen(b)))
  }

  function High(c: bv16): bv8
  {
    (c >> 8) as bv8
  }

  function Low(c: bv16): bv8
  {
    (c & 0xFF) as bv8
  }

  // ---- bits ----------------------------------------------------------------------

  lemma HighCancels(c: bv16)
    ensures Xor(c, Widen(High(c))) == c & 0xFF
  {}

  lemma LowCancels(c: bv16)
    ensures Xor((c & 0xFF) << 8, Widen(Low(c))) == 0
  {}

  lemma LowByteShifts(c: bv16)
    ensures Shift8(c & 0xFF) == (c & 0xFF) << 8
  {}

  lemma ZeroShifts()
    ensures Shift8(0) == 0
  {}

  lemma XorWithItself(x: bv16)
    ensures Xor(x, x) == 0
  {}

  lemma XorVanishes(x: bv16, y: bv16)
    requires Xor(x, y) == 0
    ensures x == y
  {}

  lemma XorWithZero(x: bv16)
    ensures Xor(0, x) == x
  {}

  lemma XorLaws(x: bv16, y: bv16)
    ensures Xor(x, y) == 0 <==> x == y
    ensures Xor(0, x) == x
  {
    hide Xor;
    XorWithItself(x);
    XorWithZero(x);
    if Xor(x, y) == 0 { XorVanishes(x, y); }
  }

  lemma XorCancels(x: bv16, y: bv16, z: bv16)
    ensures Xor(x, z) == Xor(y, z) <==> x == y
  {}

  lemma XorAssociative(x: bv16, y: bv16, z: bv16)
    ensures Xor(Xor(x, y), z) == Xor(x, Xor(y, z))
  {}

  lemma XorCommutative(x: bv16, y: bv16)
    ensures Xor(x, y) == Xor(y, x)
  {}

  lemma XorRegroups(x: bv16, y: bv16, u: bv16, v: bv16)
    ensures Xor(Xor(x, u), Xor(y, v)) == Xor(Xor(x, y), Xor(u, v))
  {
    hide Xor;
    XorAssociative(x, u, Xor(y, v));
    XorAssociative(u, y, v);
    XorCommutative(u, y);
    XorAssociative(y, u, v);
    XorAssociative(x, y, Xor(u, v));
  }

  lemma WidenXor(a: bv8, b: bv8)
    ensures Xor(Widen(a), Widen(b)) == Widen(a ^ b)
  {}

  lemma TopBit(x: bv16)
    ensures x & 0x8000 == 0 || x & 0x8000 == 0x8000
  {}

  lemma TopBitXor(x: bv16, y: bv16)
    ensures (x ^ y) & 0x8000 == (x & 0x8000) ^ (y & 0x8000)
  {}

  lemma LeftXor(x: bv16, y: bv16)
    ensures (x ^ y) << 1 == (x << 1) ^ (y << 1)
  {}

  lemma FeedbackRight(x: bv16, y: bv16)
    ensures x ^ (y ^ 0x1021) == (x ^ y) ^ 0x1021
  {}

  lemma FeedbackLeft(x: bv16, y: bv16)
    ensures (x ^ 0x1021) ^ y == (x ^ y) ^ 0x1021
  {}

  lemma FeedbackTwice(x: bv16, y: bv16)
    ensures (x ^ 0x1021) ^ (y ^ 0x1021) == x ^ y
  {}

  lemma ShiftOfXor(x: bv16, y: bv16)
    ensures Shift(x ^ y) == Shift(x) ^ Shift(y)
  {
    TopBit(x);
    TopBit(y);
    TopBitXor(x, y);
    LeftXor(x, y);
    FeedbackRight(x << 1, y << 1);
    FeedbackLeft(x << 1, y << 1);
    FeedbackTwice(x << 1, y << 1);
  }

  lemma ShiftLinear(x: bv16, y: bv16)
    ensures Shift(Xor(x, y)) == Xor(Shift(x), Shift(y))
  {
    hide Shift;
    ShiftOfXor(x, y);
  }

  lemma Shift8Zero(x: bv16)
    requires Shift8(x) == 0
    ensures x == 0
  {}

  // The bit that falls out of the register, at the place of a tap.
  function Fallen(c: bv16, tap: bv16): bv16
  {
    if c & 0x8000 != 0 then tap else 0
  }

  predicate LowestTap(c: bv16) { Shift(c) & 0x0001 == Fallen(c, 0x0001) }

  predicate MiddleTap(c: bv16) { Shift(c) & 0x0020 == ((c & 0x0010) << 1) ^ Fallen(c, 0x0020) }

  predicate HighestTap(c: bv16) { Shift(c) & 0x1000 == ((c & 0x0800) << 1) ^ Fallen(c, 0x1000) }

  predicate OtherPlaces(c: bv16) { Shift(c) & 0xEFDE == (c & 0x77EF) << 1 }

  lemma LowestTapHolds(c: bv16)
    ensures LowestTap(c)
  {}

  lemma MiddleTapHolds(c: bv16)
    ensures MiddleTap(c)
  {}

  lemma HighestTapHolds(c: bv16)
    ensures HighestTap(c)
  {}

  lemma TapsUnseen(c: bv16)
    ensures ((c << 1) ^ 0x1021) & 0xEFDE == (c & 0x77EF) << 1
  {}

  lemma OnlyMoved(c: bv16)
    ensures (c << 1) & 0xEFDE == (c & 0x77EF) << 1
  {}

  lemma OtherPlacesOf(c: bv16, d: bv16)
    requires Shift(c) == d && d & 0xEFDE == (c & 0x77EF) << 1
    ensures OtherPlaces(c)
  {
    hide Shift;
  }

  lemma ShiftWithFeedback(c: bv16)
    requires c & 0x8000 != 0
    ensures Shift(c) == (c << 1) ^ 0x1021
  {}

  lemma ShiftWithout(c: bv16)
    requires c & 0x8000 == 0
    ensures Shift(c) == c << 1
  {}

  lemma OtherPlacesHold(c: bv16)
    ensures OtherPlaces(c)
  {
    hide Shift, OtherPlaces;
    if c & 0x8000 != 0 {
      ShiftWithFeedback(c);
      TapsUnseen(c);
      OtherPlacesOf(c, (c << 1) ^ 0x1021);
    } else {
      ShiftWithout(c);
      OnlyMoved(c);
      OtherPlacesOf(c, c << 1);
    }
  }

  /** One clock moves every bit up one place and adds the bit that falls out at places 0, 5 and 12: the generator is
      x^16 + x^12 + x^5 + 1. */
  lemma GeneratorTaps(c: bv16)
    ensures LowestTap(c) && MiddleTap(c) && HighestTap(c) && OtherPlaces(c)
  {
    hide LowestTap, MiddleTap, HighestTap, OtherPlaces;
    LowestTapHolds(c);
    MiddleTapHolds(c);
    HighestTapHolds(c);
    OtherPlacesHold(c);
  }

  // Two bytes that agree outside their last 8 - k bits, and outside their first k bits.
  predicate AgreeBefore(k: bv8, a: bv8, b: bv8)
    requires k <= 8
  {
    (a ^ b) & !(0xFF >> k) == 0
  }

  predicate AgreeAfter(k: bv8, a: bv8, b: bv8)
    requires k <= 8
  {
    (a ^ b) & (0xFF >> k) == 0
  }

  lemma EveryByteAgreesBeforeZero(a: bv8, b: bv8)
    ensures AgreeBefore(0, a, b) && AgreeAfter(0, a, a)
  {}

  lemma DifferenceIsZero(a: bv8, b: bv8)
    ensures a ^ b == 0 <==> a == b
  {}

  lemma NoBurstShiftsOut(k: bv8, d0: bv8, d1: bv8, d2: bv8)
    requires k <= 8 && d0 & !(0xFF >> k) == 0 && d2 & (0xFF >> k) == 0
    requires Shift8(Xor(Shift8(Xor(Shift8(Widen(d0)), Widen(d1))), Widen(d2))) == 0
    ensures d0 == 0 && d1 == 0 && d2 == 0
  {}

  // ---- eight clocks -----------------------------------------------------------------

  function Clocked(c: bv16, n: nat): bv16
  {
    if n == 0 then c else Shift(Clocked(c, n - 1))
  }

  lemma EightClocks(c: bv16)
    ensures Clocked(c, 8) == Shift8(c)
  {
    hide Shift;
    assert Clocked(c, 1) == Shift(c);
    assert Clocked(c, 2) == Shift(Shift(c));
    assert Clocked(c, 4) == Shift(Shift(Clocked(c, 2)));
    assert Clocked(c, 6) == Shift(Shift(Clocked(c, 4)));
    assert Clocked(c, 8) == Shift(Shift(Clocked(c, 6)));
  }

  lemma {:induction false} ClockedLinear(x: bv16, y: bv16, n: nat)
    ensures Clocked(Xor(x, y), n) == Xor(Clocked(x, n), Clocked(y, n))
  {
    hide Shift, Xor;
    if n > 0 {
      ClockedLinear(x, y, n - 1);
      ShiftLinear(Clocked(x, n - 1), Clocked(y, n - 1));
    }
  }

  /** The register is linear: differences travel on their own. */
  lemma Shift8Linear(x: bv16, y: bv16)
    ensures Shift8(Xor(x, y)) == Xor(Shift8(x), Shift8(y))
  {
    hide Shift8, Xor, Clocked;
    ClockedLinear(x, y, 8);
    EightClocks(x);
    EightClocks(y);
    EightClocks(Xor(x, y));
  }

  lemma Shift8Injective(x: bv16, y: bv16)
    requires Shift8(x) == Shift8(y)
    ensures x == y
  {
    hide Shift8, Xor;
    Shift8Linear(x, y);
    XorLaws(Shift8(x), Shift8(y));
    XorLaws(x, y);
    Shift8Zero(Xor(x, y));
  }

  lemma AbsorbInjective(x: bv16, y: bv16, b: bv8)
    ensures Absorb(x, b) == Absorb(y, b) <==> x == y
  {
    hide Shift8, Widen, Xor;
    if Absorb(x, b) == Absorb(y, b) {
      Shift8Injective(Xor(x, Widen(b)), Xor(y, Widen(b)));
      XorCancels(x, y, Widen(b));
    }
  }

  // The register difference after a byte is the clocked sum of the differences before it.
  lemma AbsorbDifference(x: bv16, y: bv16, a: bv8, b: bv8)
    ensures Xor(Absorb(x, a), Absorb(y, b)) == Shift8(Xor(Xor(x, y), Xor(Widen(a), Widen(b))))
  {
    hide Shift8, Widen, Xor;
    Shift8Linear(Xor(x, Widen(a)), Xor(y, Widen(b)));
    XorRegroups(x, y, Widen(a), Widen(b));
  }

  /** Three bytes apart in at most 16 bits in a row bring the register to different states. */
  lemma BurstIsSeen(k: bv8, c: bv16, a0: bv8, a1: bv8, a2: bv8, b0: bv8, b1: bv8, b2: bv8)
    requires k <= 8 && AgreeBefore(k, a0, b0) && AgreeAfter(k, a2, b2)
    requires Absorb(Absorb(Absorb(c, a0), a1), a2) == Absorb(Absorb(Absorb(c, b0), b1), b2)
    ensures a0 == b0 && a1 == b1 && a2 == b2
  {
    hide Absorb, Xor, Shift8, Widen, AgreeBefore, AgreeAfter;
    var x1, y1 := Absorb(c, a0), Absorb(c, b0);
    var x2, y2 := Absorb(x1, a1), Absorb(y1, b1);
    AbsorbDifference(c, c, a0, b0);
    AbsorbDifference(x1, y1, a1, b1);
    AbsorbDifference(x2, y2, a2, b2);
    XorLaws(c, c);
    XorLaws(Xor(Widen(a0), Widen(b0)), 0);
    XorLaws(Absorb(x2, a2), Absorb(y2, b2));
    BurstDifference(k, a0, a1, a2, b0, b1, b2);
  }

  lemma BurstDifference(k: bv8, a0: bv8, a1: bv8, a2: bv8, b0: bv8, b1: bv8, b2: bv8)
    requires k <= 8 && AgreeBefore(k, a0, b0) && AgreeAfter(k, a2, b2)
    requires Shift8(Xor(Shift8(Xor(Shift8(Xor(Widen(a0), Widen(b0))), Xor(Widen(a1), Widen(b1)))), Xor(Widen(a2), Widen(b2)))) == 0
    ensures a0 == b0 && a1 == b1 && a2 == b2
  {
    hide Shift8, Xor, Widen;
    WidenXor(a0, b0);
    WidenXor(a1, b1);
    WidenXor(a2, b2);
    NoBurstShiftsOut(k, a0 ^ b0, a1 ^ b1, a2 ^ b2);
    DifferenceIsZero(a0, b0);
    DifferenceIsZero(a1, b1);
    DifferenceIsZero(a2, b2);
  }
}

module BudgetCrc {
  import opened ShiftRegister

  type Bytes = seq<bv8>

  function Crc(bytes: Bytes, initial: bv16): bv16
  {
    if bytes == [] then initial else Absorb(Crc(bytes[..|bytes| - 1], initial), bytes[|bytes| - 1])
  }

  /** Ab23An23CRCWithInitial, bit by bit. */
  method CrcWithInitial(bytes: Bytes, initial: bv16) returns (crc: bv16)
    ensures crc == Crc(bytes, initial)
  {
    hide Shift;
    crc := initial;
    var i := 0;
    while i < |bytes|
      invariant 0 <= i <= |bytes|
      invariant crc == Crc(bytes[..i], initial)
    {
      ghost var start := Xor(crc, Widen(bytes[i]));
      crc := crc ^ ((bytes[i] as bv16) << 8);
      var bit := 0;
      while bit < 8
        invariant 0 <= bit <= 8
        invariant crc == Clocked(start, bit)
      {
        crc := Clock(crc);
        bit := bit + 1;
      }
      EightClocks(start);
      assert bytes[..i + 1][..i] == bytes[..i];
      i := i + 1;
    }
    assert bytes[..i] == bytes;
  }

  method Clock(c: bv16) returns (next: bv16)
    ensures next == Shift(c)
  {
    if c & 0x8000 != 0 {
      next := (c << 1) ^ 0x1021;
    } else {
      next := c << 1;
    }
  }

  lemma CrcNext(bytes: Bytes, i: nat, initial: bv16)
    requires i < |bytes|
    ensures Crc(bytes[..i + 1], initial) == Absorb(Crc(bytes[..i], initial), bytes[i])
  {
    hide Absorb;
    assert bytes[..i + 1][..i] == bytes[..i];
  }

  // The digits 1 to 9 in ASCII.
  const CHECK: Bytes := [0x31, 0x32, 0x33, 0x34, 0x35, 0x36, 0x37, 0x38, 0x39]

  lemma CheckRegister()
    ensures Absorb(0xFFFF, 0x31) == 0xC782 && Absorb(0xC782, 0x32) == 0x3DBA && Absorb(0x3DBA, 0x33) == 0x5BCE
    ensures Absorb(0x5BCE, 0x34) == 0x5349 && Absorb(0x5349, 0x35) == 0x4560 && Absorb(0x4560, 0x36) == 0x2EF4
    ensures Absorb(0x2EF4, 0x37) == 0x7718 && Absorb(0x7718, 0x38) == 0xA12B && Absorb(0xA12B, 0x39) == 0x29B1
    ensures Absorb(0, 0x31) == 0x2672 && Absorb(0x2672, 0x32) == 0x20B5 && Absorb(0x20B5, 0x33) == 0x9752
    ensures Absorb(0x9752, 0x34) == 0xD789 && Absorb(0xD789, 0x35) == 0x546C && Absorb(0x546C, 0x36) == 0x20E4
    ensures Absorb(0x20E4, 0x37) == 0x86D6 && Absorb(0x86D6, 0x38) == 0x9015 && Absorb(0x9015, 0x39) == 0x31C3
  {}

  /** The check values of the generator, and the CRC of nothing. */
  lemma CheckValues(initial: bv16)
    ensures Crc(CHECK, 0xFFFF) == 0x29B1 && Crc(CHECK, 0) == 0x31C3 && Crc([], initial) == initial
  {
    CheckRegister();
    hide Absorb;
    assert CHECK[..0] == [] && CHECK[..9] == CHECK;
    for i := 0 to 9
      invariant Crc(CHECK[..i], 0xFFFF) == [0xFFFF, 0xC782, 0x3DBA, 0x5BCE, 0x5349, 0x4560, 0x2EF4, 0x7718, 0xA12B, 0x29B1][i]
      invariant Crc(CHECK[..i], 0) == [0, 0x2672, 0x20B5, 0x9752, 0xD789, 0x546C, 0x20E4, 0x86D6, 0x9015, 0x31C3][i]
    {
      CrcNext(CHECK, i, 0xFFFF);
      CrcNext(CHECK, i, 0);
    }
  }

  // ---- composition --------------------------------------------------------------------

  /** The CRC of a concatenation continues from the CRC of its first part. */
  lemma {:induction false} Compositional(x: Bytes, y: Bytes, initial: bv16)
    ensures Crc(x + y, initial) == Crc(y, Crc(x, initial))
  {
    hide Absorb;
    if y == [] {
      assert x + y == x;
    } else {
      var n := |y| - 1;
      assert (x + y)[..|x + y| - 1] == x + y[..n];
      Compositional(x, y[..n], initial);
    }
  }

  function Flatten(chunks: seq<Bytes>): Bytes
  {
    if chunks == [] then [] else Flatten(chunks[..|chunks| - 1]) + chunks[|chunks| - 1]
  }

  function CrcOfChunks(chunks: seq<Bytes>, initial: bv16): bv16
  {
    if chunks == [] then initial
    else Crc(chunks[|chunks| - 1], CrcOfChunks(chunks[..|chunks| - 1], initial))
  }

  lemma {:induction false} ChunksCompose(chunks: seq<Bytes>, initial: bv16)
    ensures CrcOfChunks(chunks, initial) == Crc(Flatten(chunks), initial)
  {
    hide Absorb;
    if chunks != [] {
      var n := |chunks| - 1;
      ChunksCompose(chunks[..n], initial);
      Compositional(Flatten(chunks[..n]), chunks[n], initial);
    }
  }

  // ---- residue ---------------------------------------------------------------------------

  lemma TwoBytes(a: bv8, b: bv8, c: bv16)
    ensures Crc([a, b], c) == Absorb(Absorb(c, a), b)
  {
    hide Absorb;
    assert [a, b][..1] == [a] && [a][..0] == [];
    assert Crc([a], c) == Absorb(Crc([], c), a);
  }

  lemma OwnBytesCancel(c: bv16)
    ensures Absorb(Absorb(c, High(c)), Low(c)) == 0
  {
    hide Shift8, High, Low, Widen, Xor;
    HighCancels(c);
    LowByteShifts(c);
    LowCancels(c);
    ZeroShifts();
  }

  /** A message followed by the high and low byte of its own CRC has CRC zero, whatever the initial value. */
  lemma ResidueIsZero(bytes: Bytes, initial: bv16)
    ensures var c := Crc(bytes, initial); Crc(bytes + [High(c), Low(c)], initial) == 0
  {
    hide Absorb, High, Low, Crc;
    var c := Crc(bytes, initial);
    Compositional(bytes, [High(c), Low(c)], initial);
    TwoBytes(High(c), Low(c), c);
    OwnBytesCancel(c);
  }

  // ---- detection -----------------------------------------------------------------------------

  /** What differs before a common suffix differs after it, and conversely. */
  lemma {:induction false} SuffixKeepsDifference(suffix: Bytes, x: bv16, y: bv16)
    ensures Crc(suffix, x) == Crc(suffix, y) <==> x == y
  {
    hide Absorb;
    if suffix != [] {
      var n := |suffix| - 1;
      SuffixKeepsDifference(suffix[..n], x, y);
      AbsorbInjective(Crc(suffix[..n], x), Crc(suffix[..n], y), suffix[n]);
    }
  }

  lemma ThreeBytes(a: bv8, b: bv8, c: bv8, x: bv16)
    ensures Crc([a, b, c], x) == Absorb(Absorb(Absorb(x, a), b), c)
  {
    hide Absorb;
    assert [a, b, c][..2] == [a, b];
    TwoBytes(a, b, x);
  }

  lemma ThreeBytesDiffer(k: bv8, x: Bytes, y: Bytes, c: bv16)
    requires |x| == 3 && |y| == 3 && k <= 8 && AgreeBefore(k, x[0], y[0]) && AgreeAfter(k, x[2], y[2])
    requires Crc(x, c) == Crc(y, c)
    ensures x == y
  {
    hide Absorb, Crc, AgreeBefore, AgreeAfter;
    assert x == [x[0], x[1], x[2]] && y == [y[0], y[1], y[2]];
    ThreeBytes(x[0], x[1], x[2], c);
    ThreeBytes(y[0], y[1], y[2], c);
    BurstIsSeen(k, c, x[0], x[1], x[2], y[0], y[1], y[2]);
  }

  /** Two different messages of the same length that differ only in a run of at most 16 bits, here starting k
      bits into byte i, never share a CRC. */
  lemma BurstsAreDetected(x: Bytes, y: Bytes, initial: bv16, i: nat, k: bv8)
    requires |x| == |y| && i + 3 <= |x| && k <= 8 && x != y
    requires x[..i] == y[..i] && x[i + 3..] == y[i + 3..]
    requires AgreeBefore(k, x[i], y[i]) && AgreeAfter(k, x[i + 2], y[i + 2])
    ensures Crc(x, initial) != Crc(y, initial)
  {
    hide Crc, AgreeBefore, AgreeAfter;
    var mx, my := x[i..i + 3], y[i..i + 3];
    assert x == x[..i] + mx + x[i + 3..] && y == y[..i] + my + y[i + 3..];
    Compositional(x[..i] + mx, x[i + 3..], initial);
    Compositional(y[..i] + my, y[i + 3..], initial);
    Compositional(x[..i], mx, initial);
    Compositional(y[..i], my, initial);
    var c := Crc(x[..i], initial);
    SuffixKeepsDifference(x[i + 3..], Crc(mx, c), Crc(my, c));
    if Crc(mx, c) == Crc(my, c) { ThreeBytesDiffer(k, mx, my, c); }
  }

  lemma TwoBytesDiffer(x: Bytes, y: Bytes, c: bv16)
    requires |x| == 2 && |y| == 2 && Crc(x, c) == Crc(y, c)
    ensures x == y
  {
    hide Crc;
    Compositional(x, [0], c);
    Compositional(y, [0], c);
    EveryByteAgreesBeforeZero(x[0], y[0]);
    EveryByteAgreesBeforeZero(0, 0);
    ThreeBytesDiffer(0, x + [0], y + [0], c);
    assert x == (x + [0])[..2] && y == (y + [0])[..2];
  }

  /** The two-byte case: any change confined to two adjacent bytes. */
  lemma AdjacentBytesAreDetected(x: Bytes, y: Bytes, initial: bv16, i: nat)
    requires |x| == |y| && i + 2 <= |x| && x != y && x[..i] == y[..i] && x[i + 2..] == y[i + 2..]
    ensures Crc(x, initial) != Crc(y, initial)
  {
    hide Crc;
    var mx, my := x[i..i + 2], y[i..i + 2];
    assert x == x[..i] + mx + x[i + 2..] && y == y[..i] + my + y[i + 2..];
    Compositional(x[..i] + mx, x[i + 2..], initial);
    Compositional(y[..i] + my, y[i + 2..], initial);
    Compositional(x[..i], mx, initial);
    Compositional(y[..i], my, initial);
    var c := Crc(x[..i], initial);
    SuffixKeepsDifference(x[i + 2..], Crc(mx, c), Crc(my, c));
    if Crc(mx, c) == Crc(my, c) { TwoBytesDiffer(mx, my, c); }
  }

  // ---- the chunk budget -------------------------------------------------------------------------

  datatype Procedure = Grouped1024 | Single205 | OtherProcedure(name: string)

  datatype Budget = Budget(procedure: Procedure, chunks: seq<Bytes>, consumed: int, unplanned: int)

  function Caps(procedure: Procedure): seq<nat>
  {
    match procedure
    case Grouped1024 => [206, 206, 206, 206, 200]
    case Single205 => [205]
    case OtherProcedure(_) => []
  }

  function Total(caps: seq<nat>): nat
  {
    if caps == [] then 0 else Total(caps[..|caps| - 1]) + caps[|caps| - 1]
  }

  function Limit(procedure: Procedure): nat
  {
    match procedure
    case Grouped1024 => 1024
    case Single205 => 205
    case OtherProcedure(_) => 0
  }

  lemma CapsTotal(procedure: Procedure)
    ensures Total(Caps(procedure)) == Limit(procedure)
  {
    match procedure
    case Grouped1024 =>
      var caps := Caps(procedure);
      assert caps[..4] == [206, 206, 206, 206] && caps[..4][..3] == [206, 206, 206];
      assert Total([206, 206, 206]) == 618 by {
        assert [206, 206, 206][..2] == [206, 206] && [206, 206][..1] == [206];
        assert Total([206, 206]) == 412;
      }
    case Single205 =>
    case OtherProcedure(_) =>
  }

  // A plan after i caps: what is planned is a prefix of the input, cut at the caps; short of the end every cap is full.
  ghost predicate PlannedUpTo(input: Bytes, caps: seq<nat>, i: nat, budget: Budget)
    requires i <= |caps|
  {
    0 <= budget.consumed <= |input| && budget.unplanned == |input| - budget.consumed &&
    budget.consumed == (if Total(caps[..i]) < |input| then Total(caps[..i]) else |input|) &&
    Flatten(budget.chunks) == input[..budget.consumed] && |budget.chunks| <= i &&
    (forall j :: 0 <= j < |budget.chunks| ==> 0 < |budget.chunks[j]| <= caps[j]) &&
    (forall j :: 0 <= j < |budget.chunks| && (j + 1 < |budget.chunks| || budget.unplanned > 0) ==>
       |budget.chunks[j]| == caps[j])
  }

  function Taken(input: Bytes, budget: Budget, length: nat): Budget
    requires 0 <= budget.consumed && budget.consumed + length <= |input|
  {
    Budget(budget.procedure, budget.chunks + [input[budget.consumed..budget.consumed + length]],
           budget.consumed + length, budget.unplanned - length)
  }

  lemma FlattenOneMore(chunks: seq<Bytes>, chunk: Bytes)
    ensures Flatten(chunks + [chunk]) == Flatten(chunks) + chunk
  {
    assert (chunks + [chunk])[..|chunks|] == chunks;
  }

  lemma TotalOneMore(caps: seq<nat>, i: nat)
    requires i < |caps|
    ensures Total(caps[..i + 1]) == Total(caps[..i]) + caps[i]
  {
    assert caps[..i + 1][..i] == caps[..i];
  }

  lemma TakesOneChunk(input: Bytes, caps: seq<nat>, i: nat, budget: Budget)
    requires i < |caps| && PlannedUpTo(input, caps, i, budget) && budget.unplanned > 0 && |budget.chunks| == i && caps[i] > 0
    ensures var length := if caps[i] > budget.unplanned then budget.unplanned else caps[i];
      PlannedUpTo(input, caps, i + 1, Taken(input, budget, length))
  {
    hide Flatten, Total;
    var length := if caps[i] > budget.unplanned then budget.unplanned else caps[i];
    var end := budget.consumed + length;
    TotalOneMore(caps, i);
    FlattenOneMore(budget.chunks, input[budget.consumed..end]);
    assert input[..end] == input[..budget.consumed] + input[budget.consumed..end];
  }

  lemma PlanEnds(input: Bytes, procedure: Procedure, i: nat, budget: Budget)
    requires i <= |Caps(procedure)| && PlannedUpTo(input, Caps(procedure), i, budget)
    requires i == |Caps(procedure)| || budget.unplanned == 0
    ensures budget.consumed == if |input| < Limit(procedure) then |input| else Limit(procedure)
    ensures budget.unplanned == |input| - budget.consumed
    ensures Flatten(budget.chunks) + input[budget.consumed..] == input
    ensures |budget.chunks| <= |Caps(procedure)|
    ensures forall j :: 0 <= j < |budget.chunks| ==> 0 < |budget.chunks[j]| <= Caps(procedure)[j]
    ensures forall j :: 0 <= j < |budget.chunks| - 1 ==> |budget.chunks[j]| == Caps(procedure)[j]
  {
    hide Total, Flatten, Caps;
    var caps := Caps(procedure);
    CapsTotal(procedure);
    TotalGrows(caps, i);
    assert caps[..|caps|] == caps;
    assert input[..budget.consumed] + input[budget.consumed..] == input;
  }

  lemma {:induction false} FullChunks(chunks: seq<Bytes>, caps: seq<nat>)
    requires |chunks| <= |caps| && forall j :: 0 <= j < |chunks| ==> |chunks[j]| == caps[j]
    ensures |Flatten(chunks)| == Total(caps[..|chunks|])
  {
    if chunks != [] {
      FullChunks(chunks[..|chunks| - 1], caps);
      TotalOneMore(caps, |chunks| - 1);
    }
  }

  // Where the last chunk of a list lies, and so, on every prefix of it, every chunk.
  lemma {:induction false} ChunkLies(chunks: seq<Bytes>, caps: seq<nat>, j: nat)
    requires j < |chunks| <= |caps| && forall i :: 0 <= i < |chunks| - 1 ==> |chunks[i]| == caps[i]
    ensures var start := Total(caps[..j]);
      start + |chunks[j]| <= |Flatten(chunks)| && Flatten(chunks)[start..start + |chunks[j]|] == chunks[j]
  {
    hide Total;
    var n := |chunks| - 1;
    FullChunks(chunks[..n], caps);
    if j < n { ChunkLies(chunks[..n], caps, j); }
  }

  lemma GroupedPlaces(j: nat)
    requires j <= 5
    ensures Caps(Grouped1024) == [206, 206, 206, 206, 200]
    ensures Total(Caps(Grouped1024)[..j]) == if j == 5 then 1024 else 206 * j
  {
    var caps := Caps(Grouped1024);
    assert caps[..0] == [];
    for i := 0 to j
      invariant Total(caps[..i]) == if i == 5 then 1024 else 206 * i
    {
      TotalOneMore(caps, i);
    }
  }

  /** The cut of an input's first bytes into pieces of one size, the last one shorter. */
  ghost predicate CutEvery(input: Bytes, size: nat, consumed: int, chunks: seq<Bytes>)
  {
    0 <= consumed <= |input| && size > 0 && |chunks| == (consumed + size - 1) / size &&
    forall j :: 0 <= j < |chunks| ==>
      var end := if size * (j + 1) < consumed then size * (j + 1) else consumed;
      0 <= size * j < end <= |input| && chunks[j] == input[size * j..end]
  }

  // All but the last chunk are full, so the last begins where the full ones end.
  lemma LastChunkBegins(consumed: int, chunks: seq<Bytes>)
    requires chunks != [] && |chunks| <= 5 && |Flatten(chunks)| == consumed
    requires forall j :: 0 <= j < |chunks| - 1 ==> |chunks[j]| == Caps(Grouped1024)[j]
    ensures consumed == 206 * (|chunks| - 1) + |chunks[|chunks| - 1]|
  {
    hide Total, Flatten;
    var n := |chunks| - 1;
    FullChunks(chunks[..n], Caps(Grouped1024));
    GroupedPlaces(n);
    FlattenOneMore(chunks[..n], chunks[n]);
    assert chunks == chunks[..n] + [chunks[n]];
  }

  lemma GroupedCut(input: Bytes, consumed: int, chunks: seq<Bytes>)
    requires 0 <= consumed <= |input| && consumed <= 1024 && Flatten(chunks) == input[..consumed] && |chunks| <= 5
    requires forall j :: 0 <= j < |chunks| ==> 0 < |chunks[j]| <= Caps(Grouped1024)[j]
    requires forall j :: 0 <= j < |chunks| - 1 ==> |chunks[j]| == Caps(Grouped1024)[j]
    ensures CutEvery(input, 206, consumed, chunks)
  {
    hide Total, Flatten;
    if chunks == [] {
      NothingPlanned(input, Caps(Grouped1024), Grouped1024);
    } else {
      LastChunkBegins(consumed, chunks);
      forall j | 0 <= j < |chunks|
        ensures var end := if 206 * (j + 1) < consumed then 206 * (j + 1) else consumed;
          0 <= 206 * j < end <= |input| && chunks[j] == input[206 * j..end]
      {
        GroupedPlaces(j);
        ChunkLies(chunks, Caps(Grouped1024), j);
      }
    }
  }

  lemma SingleCut(input: Bytes, consumed: int, chunks: seq<Bytes>)
    requires 0 <= consumed <= |input| && consumed <= 205 && Flatten(chunks) == input[..consumed] && |chunks| <= 1
    requires forall j :: 0 <= j < |chunks| ==> 0 < |chunks[j]|
    ensures chunks == if consumed == 0 then [] else [input[..consumed]]
  {
    if |chunks| == 1 { assert Flatten(chunks[..0]) == [] && Flatten(chunks) == chunks[0]; }
  }

  /** Ab23An23Plan: nonempty chunks cut at the caps, exactly the first 1024 or 205 bytes, and the rest unplanned. */
  method Plan(input: Bytes, procedure: Procedure) returns (budget: Budget, unknown: bool)
    ensures unknown <==> procedure.OtherProcedure?
    ensures budget.procedure == procedure
    ensures budget.consumed == if |input| < Limit(procedure) then |input| else Limit(procedure)
    ensures budget.unplanned == |input| - budget.consumed
    ensures Flatten(budget.chunks) + input[budget.consumed..] == input
    ensures |budget.chunks| <= |Caps(procedure)|
    ensures forall j :: 0 <= j < |budget.chunks| ==> 0 < |budget.chunks[j]| <= Caps(procedure)[j]
    ensures forall j :: 0 <= j < |budget.chunks| - 1 ==> |budget.chunks[j]| == Caps(procedure)[j]
    ensures procedure == Grouped1024 ==> budget.consumed <= 1024 && CutEvery(input, 206, budget.consumed, budget.chunks)
    ensures procedure == Single205 ==> budget.chunks == if input == [] then [] else [input[..budget.consumed]]
  {
    hide Total, Flatten, PlannedUpTo;
    unknown := false;
    budget := Budget(procedure, [], 0, |input|);
    NothingPlanned(input, Caps(procedure), procedure);
    if procedure.OtherProcedure? {
      PlanEnds(input, procedure, 0, budget);
      return budget, true;
    }
    var caps := Caps(procedure);
    var i := 0;
    while i < |caps| && budget.unplanned != 0
      invariant 0 <= i <= |caps| && budget.procedure == procedure
      invariant 0 <= budget.consumed && 0 <= budget.unplanned && budget.consumed + budget.unplanned == |input|
      invariant PlannedUpTo(input, caps, i, budget)
      invariant budget.unplanned != 0 ==> |budget.chunks| == i
    {
      TakesOneChunk(input, caps, i, budget);
      var length := caps[i];
      if length > budget.unplanned {
        length := budget.unplanned;
      }
      var end := budget.consumed + length;
      budget := Budget(procedure, budget.chunks + [input[budget.consumed..end]], end, budget.unplanned - length);
      i := i + 1;
    }
    PlanEnds(input, procedure, i, budget);
    assert Flatten(budget.chunks) == input[..budget.consumed];
    if procedure == Grouped1024 {
      GroupedCut(input, budget.consumed, budget.chunks);
    } else {
      SingleCut(input, budget.consumed, budget.chunks);
    }
  }

  lemma NothingPlanned(input: Bytes, caps: seq<nat>, procedure: Procedure)
    ensures PlannedUpTo(input, caps, 0, Budget(procedure, [], 0, |input|)) && Flatten([]) == []
  {
    assert caps[..0] == [];
  }

  lemma {:induction false} TotalGrows(caps: seq<nat>, i: nat)
    requires i <= |caps|
    ensures Total(caps[..i]) <= Total(caps)
    decreases |caps| - i
  {
    if i == |caps| {
      assert caps[..i] == caps;
    } else {
      assert caps[..i + 1][..i] == caps[..i];
      TotalGrows(caps, i + 1);
    }
  }

  /** The CRC of an input is the CRC carried over its planned chunks and then over the unplanned tail. */
  lemma CrcOverPlan(input: Bytes, chunks: seq<Bytes>, tail: Bytes, initial: bv16)
    requires Flatten(chunks) + tail == input
    ensures Crc(tail, CrcOfChunks(chunks, initial)) == Crc(input, initial)
  {
    hide Crc;
    ChunksCompose(chunks, initial);
    Compositional(Flatten(chunks), tail, initial);
  }

  // ---- progress ------------------------------------------------------------------------------------

  const MAX_INT := 0x7FFF_FFFF_FFFF_FFFF

  datatype Acceptance = Acceptance(accepted: bool, actual: int)

  /** Ab23An23Progress: the new progress and whether it failed. */
  function Progress(prior: int, step: Acceptance): (int, bool)
  {
    if prior < 0 || step.actual < 0 then (prior, true)
    else if !step.accepted then (prior, false)
    else if step.actual > MAX_INT - prior then (prior, true)
    else (prior + step.actual, false)
  }

  function ProgressOver(prior: int, steps: seq<Acceptance>): int
  {
    if steps == [] then prior else Progress(ProgressOver(prior, steps[..|steps| - 1]), steps[|steps| - 1]).0
  }

  /** What the accepted steps add, leaving out those of negative length and those that would pass int64. */
  function AcceptedSum(prior: int, steps: seq<Acceptance>): int
  {
    if steps == [] then 0
    else
      var before, step := AcceptedSum(prior, steps[..|steps| - 1]), steps[|steps| - 1];
      if step.accepted && 0 <= step.actual && prior + before + step.actual < 0x8000_0000_0000_0000 then before + step.actual
      else before
  }

  /** Over any run of steps, progress never goes back, never overflows, and counts exactly the accepted steps that fit;
      the step that comes next fails exactly when its length is negative or it is accepted and would overflow. */
  lemma {:induction false} ProgressCounts(prior: int, steps: seq<Acceptance>, next: Acceptance)
    requires 0 <= prior <= MAX_INT
    ensures prior <= ProgressOver(prior, steps) <= MAX_INT
    ensures ProgressOver(prior, steps) == prior + AcceptedSum(prior, steps)
    ensures Progress(ProgressOver(prior, steps), next).1 <==>
      next.actual < 0 || (next.accepted && prior + AcceptedSum(prior, steps) + next.actual >= 0x8000_0000_0000_0000)
  {
    if steps != [] {
      ProgressCounts(prior, steps[..|steps| - 1], steps[|steps| - 1]);
    }
  }
}
