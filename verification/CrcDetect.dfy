/** What the checksum of ksum detects: bursts, odd errors, and every error of up to three bits in a frame. */
module CrcDetect {
  import opened Words
  import opened Register
  import opened Crc
  import opened CrcPeriod
  import opened Gf2

  /** The number of set coefficients. */
  function Weight(bits: seq<bool>): nat {
    if bits == [] then 0 else (if bits[0] then 1 else 0) + Weight(bits[1..])
  }

  /** The number of bits in which two messages of equal length differ. */
  function Distance(m1: seq<byte>, m2: seq<byte>): nat
    requires |m1| == |m2|
  {
    Weight(Add(MessageBits(m1), MessageBits(m2)))
  }

  // ----- bursts -----

  /** Coefficient i of the register, with a bit string xor-ed in from the low end. */
  ghost predicate Masked(w: bv16, bits: seq<bool>, i: nat) {
    BitAt(w, i) != (i < |bits| && bits[i])
  }

  lemma MaskedStep(w: bv16, bits: seq<bool>, i: nat)
    requires bits != [] && 1 <= i < 16
    ensures Masked(w, bits, i) == (Masked(Step(w, bits[0]), bits[1..], i - 1) != (Masked(w, bits, 0) && GENERATOR[i]))
  {
    hide BitAt, Step;
    StepOnCoefficients(w, bits[0], i - 1);
  }

  lemma MaskedTop(w: bv16, bits: seq<bool>)
    requires 0 < |bits| <= 16
    ensures Masked(w, bits, 0) == Masked(Step(w, bits[0]), bits[1..], 15)
  {
    hide BitAt, Step;
    StepOnCoefficients(w, bits[0], 15);
    NoBit16(w);
  }

  /** Two windows of at most 16 bits that lead to the same register started from registers that differ as they do. */
  lemma {:induction false} WindowDifference(s: bv16, u: seq<bool>, t: bv16, v: seq<bool>)
    requires |u| == |v| <= 16 && Feed(s, u) == Feed(t, v)
    ensures forall i :: 0 <= i < 16 ==> Masked(s, u, i) == Masked(t, v, i)
    decreases |u|
  {
    if u != [] {
      hide Masked, Step;
      WindowDifference(Step(s, u[0]), u[1..], Step(t, v[0]), v[1..]);
      MaskedTop(s, u);
      MaskedTop(t, v);
      assert Masked(s, u, 0) == Masked(t, v, 0);
      forall i | 1 <= i < 16 ensures Masked(s, u, i) == Masked(t, v, i) {
        MaskedStep(s, u, i);
        MaskedStep(t, v, i);
      }
    }
  }

  lemma WindowInjective(w: bv16, u: seq<bool>, v: seq<bool>)
    requires |u| == |v| <= 16 && Feed(w, u) == Feed(w, v)
    ensures u == v
  {
    WindowDifference(w, u, w, v);
    forall i | 0 <= i < |u| ensures u[i] == v[i] {
      assert Masked(w, u, i) == Masked(w, v, i);
    }
  }

  lemma InThree(x: seq<bool>, p: nat, q: nat)
    requires p <= q <= |x|
    ensures x == x[..p] + x[p..q] + x[q..]
  {}

  /** Bit strings that differ only inside one window of 16 consecutive bits never share a register. */
  lemma BurstChangesRegister(w: bv16, x: seq<bool>, y: seq<bool>, a: nat)
    requires |x| == |y| && x != y
    requires forall i :: 0 <= i < |x| && !(a <= i < a + 16) ==> x[i] == y[i]
    ensures Feed(w, x) != Feed(w, y)
  {
    var p := if a < |x| then a else |x|;
    var q := if a + 16 < |x| then a + 16 else |x|;
    InThree(x, p, q);
    InThree(y, p, q);
    assert x[..p] == y[..p] && x[q..] == y[q..];
    FeedCat(w, x[..p] + x[p..q], x[q..]);
    FeedCat(w, y[..p] + y[p..q], y[q..]);
    FeedCat(w, x[..p], x[p..q]);
    FeedCat(w, y[..p], y[p..q]);
    if Feed(w, x) == Feed(w, y) {
      FeedInjective(Feed(Feed(w, x[..p]), x[p..q]), Feed(Feed(w, x[..p]), y[p..q]), x[q..]);
      WindowInjective(Feed(w, x[..p]), x[p..q], y[p..q]);
    }
  }

  lemma ByteFromWide(b: byte, c: byte)
    requires Wide(b) == Wide(c)
    ensures b == c
  {
    ByteValue(b);
    ByteValue(c);
    WidenInjective(b as bv8, c as bv8);
  }

  lemma WidenInjective(x: bv8, y: bv8)
    ensures x as bv16 == y as bv16 ==> x == y
  {}

  lemma BitsOfByteDetermineIt(b: byte, c: byte)
    requires BitsFrom(Wide(b), 8) == BitsFrom(Wide(c), 8)
    ensures b == c
  {
    hide Xor, Halve, Feed, BitsFrom, ShiftN, Wide;
    FeedBits(0, Wide(b), 8);
    FeedBits(0, Wide(c), 8);
    ByteIsUsedUp(b);
    ByteIsUsedUp(c);
    XorGroup(Wide(b), 0);
    XorGroup(Wide(c), 0);
    ShiftNInjective(Wide(b), Wide(c), 8);
    ByteFromWide(b, c);
  }

  lemma MessageBitsInjective(m1: seq<byte>, m2: seq<byte>)
    requires MessageBits(m1) == MessageBits(m2)
    ensures m1 == m2
  {
    hide BitsFrom;
    if |m1| != 0 && |m2| != 0 {
      var b1, b2 := BitsFrom(Wide(m1[0]), 8), BitsFrom(Wide(m2[0]), 8);
      assert b1 == MessageBits(m1)[..8] && b2 == MessageBits(m2)[..8];
      assert MessageBits(m1[1..]) == MessageBits(m1)[8..] && MessageBits(m2[1..]) == MessageBits(m2)[8..];
      BitsOfByteDetermineIt(m1[0], m2[0]);
      MessageBitsInjective(m1[1..], m2[1..]);
      assert m1 == [m1[0]] + m1[1..] && m2 == [m2[0]] + m2[1..];
    }
  }

  /** Every change confined to 16 consecutive bits of a message, of any length, changes the checksum. */
  lemma BurstDetected(m1: seq<byte>, m2: seq<byte>, a: nat)
    requires |m1| == |m2| && m1 != m2
    requires forall i :: 0 <= i < 8 * |m1| && !(a <= i < a + 16) ==> MessageBits(m1)[i] == MessageBits(m2)[i]
    ensures Crc16(m1) != Crc16(m2)
  {
    if MessageBits(m1) == MessageBits(m2) { MessageBitsInjective(m1, m2); }
    BurstChangesRegister(0, MessageBits(m1), MessageBits(m2), a);
  }

  // ----- odd errors -----

  lemma WeightCat(x: seq<bool>, y: seq<bool>)
    ensures Weight(x + y) == Weight(x) + Weight(y)
  {
    if x == [] {
      assert x + y == y;
    } else {
      assert (x + y)[1..] == x[1..] + y;
      WeightCat(x[1..], y);
    }
  }

  lemma {:induction false} WeightOfSum(x: seq<bool>, y: seq<bool>)
    requires |x| == |y|
    ensures Weight(Add(x, y)) % 2 == (Weight(x) + Weight(y)) % 2
    decreases |x|
  {
    if x != [] {
      WeightOfSum(x[1..], y[1..]);
      assert Add(x, y)[1..] == Add(x[1..], y[1..]);
      assert Add(x, y)[0] == (x[0] != y[0]);
      hide Add;
    }
  }

  lemma WeightOfZeros(n: nat)
    ensures Weight(Zeros(n)) == 0
  {
    if n > 0 {
      assert Zeros(n)[1..] == Zeros(n - 1);
      WeightOfZeros(n - 1);
    }
  }

  lemma WeightOfGenerator()
    ensures Weight(GENERATOR[1..]) == 3
  {
    assert GENERATOR[1..] == [true] + Zeros(12) + [true] + [false] + [true];
    WeightCat([true], Zeros(12));
    WeightCat([true] + Zeros(12), [true]);
    WeightCat([true] + Zeros(12) + [true], [false]);
    WeightCat([true] + Zeros(12) + [true] + [false], [true]);
    WeightOfZeros(12);
  }

  lemma StepOnPolynomial(w: bv16, b: bool)
    ensures ToPoly(Step(w, b))
      == Add(ToPoly(w)[1..] + [false], if b != ToPoly(w)[0] then GENERATOR[1..] else Zeros(16))
  {
    hide BitAt, Step;
    NoBit16(w);
    forall i | 0 <= i < 16 { StepOnCoefficients(w, b, i); }
  }

  /** The generator has an even number of terms, so a step changes the parity of the register by the bit it takes. */
  lemma StepParity(w: bv16, b: bool)
    ensures Weight(ToPoly(Step(w, b))) % 2 == (Weight(ToPoly(w)) + Weight([b])) % 2
  {
    hide Step, Weight;
    var p := ToPoly(w);
    var top := b != p[0];
    StepOnPolynomial(w, b);
    WeightOfSum(p[1..] + [false], if top then GENERATOR[1..] else Zeros(16));
    WeightCat(p[1..], [false]);
    WeightCat([p[0]], p[1..]);
    assert p == [p[0]] + p[1..];
    WeightOfGenerator();
    WeightOfZeros(16);
    WeightOfBit(b);
    WeightOfBit(p[0]);
    WeightOfBit(false);
  }

  lemma WeightOfBit(b: bool)
    ensures Weight([b]) == if b then 1 else 0
  {}

  lemma {:induction false} FeedParity(w: bv16, bits: seq<bool>)
    ensures Weight(ToPoly(Feed(w, bits))) % 2 == (Weight(ToPoly(w)) + Weight(bits)) % 2
    decreases |bits|
  {
    if bits != [] {
      StepParity(w, bits[0]);
      FeedParity(Step(w, bits[0]), bits[1..]);
      WeightOfBit(bits[0]);
      hide ToPoly, Step;
    }
  }

  lemma ZeroPolynomial()
    ensures ToPoly(0) == Zeros(16)
  {
    forall i | 0 <= i < 16 { BitAtZero(i); }
  }

  /** The checksum has the bit parity of the message. */
  lemma ParityOfChecksum(m: seq<byte>)
    ensures Weight(ToPoly(Crc16(m))) % 2 == Weight(MessageBits(m)) % 2
  {
    hide ToPoly, Weight, Feed;
    FeedParity(0, MessageBits(m));
    ZeroPolynomial();
    WeightOfZeros(16);
  }

  /** Every change of an odd number of bits, in messages of any length, changes the checksum. */
  lemma OddErrorDetected(m1: seq<byte>, m2: seq<byte>)
    requires |m1| == |m2| && Distance(m1, m2) % 2 == 1
    ensures Crc16(m1) != Crc16(m2)
  {
    ParityOfChecksum(m1);
    ParityOfChecksum(m2);
    WeightOfSum(MessageBits(m1), MessageBits(m2));
  }

  // ----- two-bit errors -----

  /** A register difference travels through equal bits by plain shifting. */
  lemma {:induction false} DifferenceShifts(x: bv16, y: bv16, bits: seq<bool>)
    ensures Xor(Feed(x, bits), Feed(y, bits)) == ShiftN(Xor(x, y), |bits|)
    decreases |bits|
  {
    if bits != [] {
      hide Xor, Shift, Unit;
      var u := Unit(bits[0]);
      DifferenceShifts(Step(x, bits[0]), Step(y, bits[0]), bits[1..]);
      ShiftLinear(Xor(x, u), Xor(y, u));
      XorMiddle(x, y, u);
    }
  }

  lemma FirstFlip(w: bv16, b: bool)
    ensures Xor(Step(w, b), Step(w, !b)) == Shift(1)
  {
    hide Xor, Shift;
    ShiftLinear(Xor(w, Unit(b)), Xor(w, Unit(!b)));
    XorGroup(w, Unit(b));
    XorGroup(w, Unit(!b));
    XorMiddle(Unit(b), Unit(!b), w);
    XorGroup(0, 1);
    XorGroup(1, 0);
  }

  lemma SecondFlip(x: bv16, y: bv16, b: bool)
    ensures Step(x, b) == Step(y, !b) <==> Xor(x, y) == 1
  {
    hide Xor, Shift;
    var u, v := Unit(b), Unit(!b);
    assert Xor(u, v) == 1 by { XorGroup(0, 1); XorGroup(1, 0); }
    if Step(x, b) == Step(y, !b) {
      ShiftInjective(Xor(x, u), Xor(y, v));
      XorOfEqualSums(x, u, y, v);
    } else if Xor(x, y) == 1 {
      XorOfEqualSums(x, y, u, v);
    }
  }

  lemma XorOfEqualSums(x: bv16, u: bv16, y: bv16, v: bv16)
    requires Xor(x, u) == Xor(y, v)
    ensures Xor(x, y) == Xor(u, v)
  {
    hide Xor;
    XorMiddle(x, y, u);
    XorGroup(x, u);
    XorAssoc(Xor(x, u), y, u);
    XorGroup(y, v);
    XorAssoc(v, y, Xor(y, u));
    XorAssoc(y, y, u);
    XorGroup(y, y);
    XorGroup(u, 0);
    XorGroup(u, v);
  }

  lemma LowestPower()
    ensures PowerOfX(15) == 1
  {
    Eighth();
    ShiftNAdd(ONE, 8, 7);
    var a: bv16, b: bv16, c: bv16 := 0x40, 0x20, 0x10;
    assert Shift(0x80) == a && Shift(a) == b && Shift(b) == c;
    var d: bv16, e: bv16, f: bv16 := 8, 4, 2;
    assert Shift(c) == d && Shift(d) == e && Shift(e) == f && Shift(f) == 1;
    hide Shift;
    assert ShiftN(0x80, 7) == ShiftN(a, 6) == ShiftN(b, 5) == ShiftN(c, 4) == ShiftN(d, 3) == ShiftN(e, 2)
      == ShiftN(f, 1) == ShiftN(1, 0);
  }

  lemma UnitReturns(d: nat)
    ensures ShiftN(1, d) == 1 <==> d % PERIOD == 0
  {
    hide Shift;
    LowestPower();
    ShiftNAdd(ONE, 15, d);
    ShiftNAdd(ONE, d, 15);
    OrderOfX(d);
    if ShiftN(1, d) == 1 { ShiftNInjective(PowerOfX(d), ONE, 15); }
  }

  lemma FeedOne(w: bv16, b: bool)
    ensures Feed(w, [b]) == Step(w, b)
  {
    assert [b][1..] == [];
  }

  lemma FeedAround(w: bv16, p: seq<bool>, b: bool, m: seq<bool>, c: bool, q: seq<bool>)
    ensures Feed(w, p + [b] + m + [c] + q) == Feed(Step(Feed(Step(Feed(w, p), b), m), c), q)
  {
    hide Step, Feed;
    FeedCat(w, p + [b] + m + [c], q);
    FeedCat(w, p + [b] + m, [c]);
    FeedCat(w, p + [b], m);
    FeedCat(w, p, [b]);
    FeedOne(Feed(w, p), b);
    FeedOne(Feed(Step(Feed(w, p), b), m), c);
  }

  lemma SplitAtFlips(x: seq<bool>, i: nat, j: nat)
    requires i < j < |x|
    ensures x == x[..i] + [x[i]] + x[i + 1..j] + [x[j]] + x[j + 1..]
  {}

  /** The two ways of passing through a flipped bit, equal bits and a flipped bit meet again after 32767k bits. */
  lemma FlipsMeet(s: bv16, b: bool, m: seq<bool>, c: bool)
    ensures Step(Feed(Step(s, b), m), c) == Step(Feed(Step(s, !b), m), !c) <==> (|m| + 1) % PERIOD == 0
  {
    hide Step, Shift, Xor, Feed;
    FirstFlip(s, b);
    DifferenceShifts(Step(s, b), Step(s, !b), m);
    assert ShiftN(Shift(1), |m|) == ShiftN(1, |m| + 1);
    SecondFlip(Feed(Step(s, b), m), Feed(Step(s, !b), m), c);
    UnitReturns(|m| + 1);
  }

  /** Two flipped bits leave the register unchanged exactly when their distance is a multiple of 32767. */
  lemma TwoFlips(w: bv16, x: seq<bool>, y: seq<bool>, i: nat, j: nat)
    requires |x| == |y| && i < j < |x|
    requires forall k :: 0 <= k < |x| ==> (x[k] != y[k] <==> k == i || k == j)
    ensures Feed(w, x) == Feed(w, y) <==> (j - i) % PERIOD == 0
  {
    hide Step, Feed;
    var p, m, q := x[..i], x[i + 1..j], x[j + 1..];
    SplitAtFlips(x, i, j);
    SplitAtFlips(y, i, j);
    assert p == y[..i] && m == y[i + 1..j] && q == y[j + 1..];
    FeedAround(w, p, x[i], m, x[j], q);
    FeedAround(w, p, y[i], m, y[j], q);
    var s := Feed(w, p);
    FlipsMeet(s, x[i], m, x[j]);
    if Feed(w, x) == Feed(w, y) {
      FeedInjective(Step(Feed(Step(s, x[i]), m), x[j]), Step(Feed(Step(s, y[i]), m), y[j]), q);
    }
  }

  lemma {:induction false} NoFlip(d: seq<bool>)
    requires Weight(d) == 0
    ensures forall k :: 0 <= k < |d| ==> !d[k]
    decreases |d|
  {
    if d != [] {
      NoFlip(d[1..]);
      forall k | 0 <= k < |d| ensures !d[k] { if k > 0 { assert d[k] == d[1..][k - 1]; } }
    }
  }

  lemma {:induction false} FirstFlipAt(d: seq<bool>) returns (i: nat)
    requires Weight(d) > 0
    ensures i < |d| && d[i] && Weight(d[i + 1..]) == Weight(d) - 1
    ensures forall k :: 0 <= k < i ==> !d[k]
    decreases |d|
  {
    if d[0] {
      i := 0;
    } else {
      var r := FirstFlipAt(d[1..]);
      i := r + 1;
      assert d[i + 1..] == d[1..][r + 1..];
      forall k | 0 <= k < i ensures !d[k] { if k > 0 { assert d[k] == d[1..][k - 1]; } }
    }
  }

  lemma TwoFlipsAt(d: seq<bool>) returns (i: nat, j: nat)
    requires Weight(d) == 2
    ensures i < j < |d|
    ensures forall k :: 0 <= k < |d| ==> (d[k] <==> k == i || k == j)
  {
    i := FirstFlipAt(d);
    var rest := d[i + 1..];
    var r := FirstFlipAt(rest);
    j := i + 1 + r;
    NoFlip(rest[r + 1..]);
    forall k | 0 <= k < |d| ensures d[k] <==> k == i || k == j {
      if k > j {
        assert d[k] == rest[r + 1..][k - j - 1];
      } else if k > i {
        assert d[k] == rest[k - i - 1];
      }
    }
  }

  /** Every change of one, two or three bits in a message of at most 4095 bytes changes the checksum. */
  lemma UpToThreeBitsDetected(m1: seq<byte>, m2: seq<byte>)
    requires |m1| == |m2| <= 4095 && 1 <= Distance(m1, m2) <= 3
    ensures Crc16(m1) != Crc16(m2)
  {
    if Distance(m1, m2) == 2 {
      var x, y := MessageBits(m1), MessageBits(m2);
      var i, j := TwoFlipsAt(Add(x, y));
      assert forall k :: 0 <= k < |x| ==> (x[k] != y[k] <==> Add(x, y)[k]);
      TwoFlips(0, x, y, i, j);
    } else {
      OddErrorDetected(m1, m2);
    }
  }
}
