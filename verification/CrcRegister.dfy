/** The 16-bit feedback register of CRC-16/ARC (polynomial x^16 + x^15 + x^2 + 1, reflected, start value 0). */
module Register {
  import opened Words

  /** A byte widened to 16 bits. */
  function Wide(b: byte): bv16 { (b as bv8) as bv16 }

  function Xor(x: bv16, y: bv16): bv16 { x ^ y }

  /** Multiplication by x of a reflected 16-bit remainder: 0xA001 is x^15 + x^2 + 1. */
  function Shift(w: bv16): bv16 {
    if w & 1 == 1 then Xor(w >> 1, 0xA001) else w >> 1
  }

  function Unit(bit: bool): bv16 { if bit then 1 else 0 }

  /** One bit enters the register. */
  function Step(w: bv16, bit: bool): bv16 { Shift(Xor(w, Unit(bit))) }

  function Feed(w: bv16, bits: seq<bool>): bv16
    decreases |bits|
  {
    if bits == [] then w else Feed(Step(w, bits[0]), bits[1..])
  }

  /** The n lowest bits of a word, least significant first. */
  function BitsFrom(v: bv16, n: nat): (r: seq<bool>)
    ensures |r| == n
  {
    if n == 0 then [] else [v & 1 == 1] + BitsFrom(v >> 1, n - 1)
  }

  /** The message as a bit string in the order the register takes it: each byte least significant bit first. */
  function MessageBits(m: seq<byte>): (r: seq<bool>)
    ensures |r| == 8 * |m|
  {
    if m == [] then [] else BitsFrom(Wide(m[0]), 8) + MessageBits(m[1..])
  }

  /** CRC-16/ARC: register 0, least significant bit first, no final inversion. */
  function Crc16(m: seq<byte>): bv16 { Feed(0, MessageBits(m)) }

  // ----- algebra -----


  lemma XorAssoc(x: bv16, y: bv16, z: bv16)
    ensures Xor(Xor(x, y), z) == Xor(x, Xor(y, z))
  {}

  lemma XorGroup(x: bv16, y: bv16)
    ensures Xor(x, y) == Xor(y, x)
    ensures Xor(x, 0) == x && Xor(0, x) == x && Xor(x, x) == 0
  {}

  lemma XorMiddle(x: bv16, y: bv16, z: bv16)
    ensures Xor(Xor(x, z), Xor(y, z)) == Xor(x, y)
  {
    XorAssoc(x, z, Xor(y, z));
    XorAssoc(z, z, y);
    XorGroup(y, z);
    XorGroup(z, z);
    hide Xor;
    XorGroup(y, 0);
  }

  lemma XorSwap(x: bv16, y: bv16, z: bv16)
    ensures Xor(Xor(x, z), y) == Xor(Xor(x, y), z)
  {
    XorAssoc(x, z, y);
    XorAssoc(x, y, z);
    XorGroup(y, z);
    hide Xor;
  }

  lemma XorCancel(x: bv16, y: bv16, z: bv16)
    requires Xor(x, z) == Xor(y, z) || Xor(z, x) == Xor(z, y)
    ensures x == y
  {
    XorMiddle(x, y, z);
    XorGroup(x, z);
    XorGroup(y, z);
    XorGroup(Xor(x, z), z);
    XorGroup(x, y);
    XorAssoc(x, z, z);
    XorAssoc(y, z, z);
    XorGroup(z, z);
    hide Xor;
  }

  lemma LowBit(x: bv16, y: bv16)
    ensures x & 1 == 0 || x & 1 == 1
    ensures Xor(x, y) & 1 == Xor(x & 1, y & 1)
  {}

  lemma HalfXor(x: bv16, y: bv16)
    ensures Xor(x, y) >> 1 == Xor(x >> 1, y >> 1)
  {}

  /** Multiplication by x distributes over addition of remainders. */
  lemma ShiftLinear(x: bv16, y: bv16)
    ensures Shift(Xor(x, y)) == Xor(Shift(x), Shift(y))
  {
    LowBit(x, y);
    LowBit(y, x);
    HalfXor(x, y);
    assert Xor(1, 1) == 0 && Xor(1, 0) == 1 && Xor(0, 1) == 1 && Xor(0, 0) == 0;
    XorMiddle(x >> 1, y >> 1, 0xA001);
    XorSwap(x >> 1, y >> 1, 0xA001);
    XorAssoc(x >> 1, y >> 1, 0xA001);
    hide Xor;
  }

  function ShiftN(w: bv16, n: nat): bv16
    decreases n
  {
    if n == 0 then w else ShiftN(Shift(w), n - 1)
  }

  /** What is left of a word after its n lowest bits are dropped. */
  function Halve(v: bv16, n: nat): bv16
    decreases n
  {
    if n == 0 then v else Halve(v >> 1, n - 1)
  }

  lemma FeedCat(w: bv16, a: seq<bool>, b: seq<bool>)
    ensures Feed(w, a + b) == Feed(Feed(w, a), b)
    decreases |a|
  {
    hide Step;
    if a == [] {
      assert a + b == b;
    } else {
      assert (a + b)[1..] == a[1..] + b;
      FeedCat(Step(w, a[0]), a[1..], b);
    }
  }

  lemma ShiftEven(c: bv16)
    ensures Unit(c & 1 == 1) == c & 1
    ensures Shift(Xor(c, c & 1)) == c >> 1
  {
    LowBit(c, c);
    if c & 1 == 1 {
      assert (c ^ 1) & 1 == 0;
      assert (c ^ 1) >> 1 == c >> 1;
    } else {
      XorGroup(c, 0);
    }
  }

  lemma StepTakesLowBit(w: bv16, c: bv16)
    ensures Xor(Step(w, c & 1 == 1), c >> 1) == Shift(Xor(w, c))
  {
    ShiftEven(c);
    XorMiddle(w, c, c & 1);
    ShiftLinear(Xor(w, c & 1), Xor(c, c & 1));
    hide Shift, Xor, Unit;
  }

  /** Feeding n bits one by one is xor-ing them in at once and shifting n times. */
  lemma FeedBits(w: bv16, c: bv16, n: nat)
    ensures ShiftN(Xor(w, c), n) == Xor(Feed(w, BitsFrom(c, n)), Halve(c, n))
    decreases n
  {
    if n > 0 {
      var bits := BitsFrom(c, n);
      assert bits[0] == (c & 1 == 1) && bits[1..] == BitsFrom(c >> 1, n - 1);
      StepTakesLowBit(w, c);
      FeedBits(Step(w, bits[0]), c >> 1, n - 1);
      hide Shift, Xor, Step;
    }
  }

  // ----- injectivity -----

  /** The register loses nothing: bit 15 of the result tells whether the polynomial was subtracted. */
  lemma ShiftInjective(x: bv16, y: bv16)
    requires Shift(x) == Shift(y)
    ensures x == y
  {}

  lemma ShiftNInjective(x: bv16, y: bv16, n: nat)
    requires ShiftN(x, n) == ShiftN(y, n)
    ensures x == y
    decreases n
  {
    if n > 0 {
      ShiftNInjective(Shift(x), Shift(y), n - 1);
      ShiftInjective(x, y);
    }
  }

  lemma FeedInjective(x: bv16, y: bv16, bits: seq<bool>)
    requires Feed(x, bits) == Feed(y, bits)
    ensures x == y
    decreases |bits|
  {
    if bits != [] {
      FeedInjective(Step(x, bits[0]), Step(y, bits[0]), bits[1..]);
      hide Xor, Shift, Unit;
      ShiftInjective(Xor(x, Unit(bits[0])), Xor(y, Unit(bits[0])));
      XorCancel(x, y, Unit(bits[0]));
    }
  }
}
