/** The multiplicative order of x modulo the generator of CRC-16/ARC: 32767. */
module CrcPeriod {
  import opened Register
  import opened CrcTable
  import opened Crc

  /** The polynomial 1 in reflected form: the coefficient of x^0 is bit 15. */
  const ONE: bv16 := 0x8000
  const PERIOD: nat := 32767

  /** x^n modulo the generator. */
  function PowerOfX(n: nat): bv16 { ShiftN(ONE, n) }

  /** One step of multiplication: the sum moves up, and y is added for a low bit of 1. */
  function Round(sum: bv16, c: bv16, y: bv16): bv16 {
    Xor(Shift(sum), if c & 1 == 1 then y else 0)
  }

  /** Multiply-and-add over the n lowest bits of c, lowest first: every bit moves the sum up and adds y. */
  function Horner(sum: bv16, c: bv16, n: nat, y: bv16): bv16
    decreases n
  {
    if n == 0 then sum else Horner(Round(sum, c, y), c >> 1, n - 1, y)
  }

  /** The product of two remainders. */
  function Mul(c: bv16, y: bv16): bv16 { Horner(0, c, 16, y) }

  lemma HornerIsFeed(w: bv16, c: bv16, n: nat)
    ensures Horner(w, c, n, 0xA001) == Feed(w, BitsFrom(c, n))
    decreases n
  {
    if n > 0 {
      var bits := BitsFrom(c, n);
      assert bits[0] == (c & 1 == 1) && bits[1..] == BitsFrom(c >> 1, n - 1);
      ShiftLinear(w, Unit(bits[0]));
      assert Shift(1) == 0xA001 && Shift(0) == 0;
      HornerIsFeed(Step(w, bits[0]), c >> 1, n - 1);
      hide Shift, Xor;
    }
  }

  lemma HornerShifts(sum: bv16, c: bv16, n: nat, y: bv16)
    ensures Horner(Shift(sum), c, n, Shift(y)) == Shift(Horner(sum, c, n, y))
    decreases n
  {
    hide Round, Shift;
    if n > 0 {
      RoundShifts(sum, c, y);
      HornerShifts(Round(sum, c, y), c >> 1, n - 1, y);
    }
  }

  lemma RoundShifts(sum: bv16, c: bv16, y: bv16)
    ensures Round(Shift(sum), c, Shift(y)) == Shift(Round(sum, c, y))
  {
    hide Xor, Shift;
    ShiftOfZero();
    ShiftLinear(Shift(sum), if c & 1 == 1 then y else 0);
  }

  lemma ShiftNSucc(w: bv16, n: nat)
    ensures ShiftN(w, n + 1) == Shift(ShiftN(w, n))
    decreases n
  {
    if n > 0 { ShiftNSucc(Shift(w), n - 1); }
  }

  lemma ShiftNAdd(w: bv16, m: nat, n: nat)
    ensures ShiftN(w, m + n) == ShiftN(ShiftN(w, m), n)
    decreases m
  {
    if m > 0 { ShiftNAdd(Shift(w), m - 1, n); }
  }

  lemma {:induction false} MulShifts(c: bv16, y: bv16, n: nat)
    ensures Mul(c, ShiftN(y, n)) == ShiftN(Mul(c, y), n)
    decreases n
  {
    hide Shift, Mul, ShiftN;
    if n > 0 {
      MulShifts(c, y, n - 1);
      ShiftNSucc(y, n - 1);
      ShiftNSucc(Mul(c, y), n - 1);
      MulShift(c, ShiftN(y, n - 1));
    } else {
      NoShift(y);
      NoShift(Mul(c, y));
    }
  }

  lemma MulShift(c: bv16, y: bv16)
    ensures Mul(c, Shift(y)) == Shift(Mul(c, y))
  {
    hide Shift, Horner;
    ShiftOfZero();
    HornerShifts(0, c, 16, y);
  }

  lemma NoShift(w: bv16)
    ensures ShiftN(w, 0) == w
  {}

  lemma ShiftOfZero()
    ensures Shift(0) == 0
  {}

  lemma HalveSkip(w: bv16, n: nat)
    ensures Halve(w, n + 4) == Halve(w >> 4, n)
  {
    assert (((w >> 1) >> 1) >> 1) >> 1 == w >> 4;
    assert Halve(w, n + 4) == Halve(w >> 1, n + 3);
    assert Halve(w >> 1, n + 3) == Halve((w >> 1) >> 1, n + 2);
    assert Halve((w >> 1) >> 1, n + 2) == Halve(((w >> 1) >> 1) >> 1, n + 1);
  }

  lemma NothingAbove16(w: bv16)
    ensures Halve(w, 16) == 0
  {
    HalveSkip(w, 12);
    HalveSkip(w >> 4, 8);
    HalveSkip((w >> 4) >> 4, 4);
    HalveSkip(((w >> 4) >> 4) >> 4, 0);
    assert (((w >> 4) >> 4) >> 4) >> 4 == 0;
  }

  lemma Eighth()
    ensures PowerOfX(8) == 0x80
  {
    ShiftN8(0x8000);
    assert Shift8(0x8000) == 0x80;
  }

  lemma Sixteenth()
    ensures PowerOfX(16) == 0xA001
  {
    ShiftNAdd(ONE, 8, 8);
    ShiftN8(0x8000);
    ShiftN8(0x80);
    assert Shift8(0x8000) == 0x80 && Shift8(0x80) == 0xA001;
  }

  lemma MulOne(c: bv16)
    ensures Mul(c, ONE) == c
  {
    Sixteenth();
    HornerIsFeed(0, c, 16);
    FeedBits(0, c, 16);
    NothingAbove16(c);
    XorGroup(Feed(0, BitsFrom(c, 16)), 0);
    XorGroup(c, 0);
    MulShifts(c, ONE, 16);
    ShiftNInjective(Mul(c, ONE), c, 16);
    hide Shift, Xor, Horner, Halve, Feed, ShiftN;
  }

  /** Exponents add: x^(m+n) is the product of x^m and x^n. */
  lemma PowersMultiply(m: nat, n: nat)
    ensures PowerOfX(m + n) == Mul(PowerOfX(m), PowerOfX(n))
  {
    hide Horner, ShiftN;
    ShiftNAdd(ONE, m, n);
    MulOne(PowerOfX(m));
    MulShifts(PowerOfX(m), ONE, n);
  }

  // ----- evaluation of powers by repeated squaring -----

  function Round4(sum: bv16, c: bv16, y: bv16): bv16 {
    Round(Round(Round(Round(sum, c, y), c >> 1, y), c >> 2, y), c >> 3, y)
  }

  lemma HornerRound4(sum: bv16, c: bv16, n: nat, y: bv16)
    ensures Horner(sum, c, n + 4, y) == Horner(Round4(sum, c, y), c >> 4, n, y)
  {
    hide Shift, Xor;
    assert (c >> 1) >> 1 == c >> 2 && (c >> 2) >> 1 == c >> 3 && (c >> 3) >> 1 == c >> 4;
    var s1 := Round(sum, c, y);
    var s2 := Round(s1, c >> 1, y);
    var s3 := Round(s2, c >> 2, y);
    assert Horner(sum, c, n + 4, y) == Horner(s1, c >> 1, n + 3, y);
    assert Horner(s1, c >> 1, n + 3, y) == Horner(s2, c >> 2, n + 2, y);
    assert Horner(s2, c >> 2, n + 2, y) == Horner(s3, c >> 3, n + 1, y);
  }

  function Square(c: bv16): bv16 {
    Round4(Round4(Round4(Round4(0, c, c), c >> 4, c), c >> 8, c), c >> 12, c)
  }

  lemma Nibbles(c: bv16)
    ensures (c >> 4) >> 4 == c >> 8 && (c >> 8) >> 4 == c >> 12
  {}

  lemma HornerDone(sum: bv16, c: bv16, y: bv16)
    ensures Horner(sum, c, 0, y) == sum
  {}

  lemma SquareIsMul(c: bv16)
    ensures Square(c) == Mul(c, c)
  {
    hide Round4, Horner;
    Nibbles(c);
    var s1 := Round4(0, c, c);
    var s2 := Round4(s1, c >> 4, c);
    var s3 := Round4(s2, c >> 8, c);
    HornerRound4(0, c, 12, c);
    HornerRound4(s1, c >> 4, 8, c);
    HornerRound4(s2, c >> 8, 4, c);
    HornerRound4(s3, c >> 12, 0, c);
    HornerDone(Round4(s3, c >> 12, c), (c >> 12) >> 4, c);
  }

  lemma SquareDoublesExponent(n: nat)
    ensures PowerOfX(2 * n) == Square(PowerOfX(n))
  {
    hide ShiftN, Square;
    PowersMultiply(n, n);
    SquareIsMul(PowerOfX(n));
  }

  lemma Double(n: nat, c: bv16, d: bv16)
    requires PowerOfX(n) == c && Square(c) == d
    ensures PowerOfX(2 * n) == d
  {
    SquareDoublesExponent(n);
  }

  lemma Next(n: nat, c: bv16, d: bv16)
    requires PowerOfX(n) == c && Shift(c) == d
    ensures PowerOfX(n + 1) == d
  {
    ShiftNSucc(ONE, n);
  }

  lemma PeriodReturns()
    ensures PowerOfX(PERIOD) == ONE
  {
    Sixteenth();
    hide PowerOfX;
    Double(16, 0xA001, 0xE801);
    Double(32, 0xE801, 0xC881);
    Double(64, 0xC881, 0x6080);
    Double(128, 0x6080, 0x8801);
    Double(256, 0x8801, 0xE081);
    Double(512, 0xE081, 0x6800);
    Double(1024, 0x6800, 0x2880);
    Double(2048, 0x2880, 0xA881);
    Double(4096, 0xA881, 0x4880);
    Double(8192, 0x4880, 0x8081);
    Double(16384, 0x8081, 0x4000);
    BackOne();
  }

  lemma BackOne()
    requires PowerOfX(PERIOD + 1) == 0x4000
    ensures PowerOfX(PERIOD) == ONE
  {
    ShiftNSucc(ONE, PERIOD);
    assert Shift(ONE) == 0x4000;
    hide ShiftN, Shift;
    ShiftInjective(PowerOfX(PERIOD), ONE);
  }

  lemma PowerOf4681()
    ensures PowerOfX(4681) == 0x8C69
  {
    Eighth();
    hide PowerOfX;
    Next(8, 0x0080, 0x0040);
    Double(9, 0x0040, 0xD801);
    Double(18, 0xD801, 0xC281);
    Double(36, 0xC281, 0x6008);
    Next(72, 0x6008, 0x3004);
    Double(73, 0x3004, 0xCA19);
    Double(146, 0xCA19, 0xC169);
    Double(292, 0xC169, 0x1E62);
    Next(584, 0x1E62, 0x0F31);
    Double(585, 0x0F31, 0x672B);
    Double(1170, 0x672B, 0x8E4C);
    Double(2340, 0x8E4C, 0x58D1);
    Next(4680, 0x58D1, 0x8C69);
  }

  lemma PowerOf1057()
    ensures PowerOfX(1057) == 0xCE41
  {
    Sixteenth();
    hide PowerOfX;
    Double(16, 0xA001, 0xE801);
    Next(32, 0xE801, 0xD401);
    Double(33, 0xD401, 0xC221);
    Double(66, 0xC221, 0x0608);
    Double(132, 0x0608, 0xC049);
    Double(264, 0xC049, 0xD861);
    Double(528, 0xD861, 0xDC81);
    Next(1056, 0xDC81, 0xCE41);
  }

  lemma PowerOf217()
    ensures PowerOfX(217) == 0x3E55
  {
    Eighth();
    hide PowerOfX;
    Next(8, 0x0080, 0x0040);
    Next(9, 0x0040, 0x0020);
    Next(10, 0x0020, 0x0010);
    Next(11, 0x0010, 0x0008);
    Next(12, 0x0008, 0x0004);
    Double(13, 0x0004, 0xC019);
    Next(26, 0xC019, 0xC00D);
    Double(27, 0xC00D, 0xC079);
    Double(54, 0xC079, 0xDFE1);
    Double(108, 0xDFE1, 0x7CAA);
    Next(216, 0x7CAA, 0x3E55);
  }

  // ----- the order of x -----

  lemma OrderSubtract(m: nat, n: nat)
    requires PowerOfX(m) == ONE && PowerOfX(n) == ONE && m <= n
    ensures PowerOfX(n - m) == ONE
  {
    ShiftNAdd(ONE, n - m, m);
    ShiftNInjective(PowerOfX(n - m), ONE, m);
  }

  lemma OrderMultiple(m: nat, k: nat)
    requires PowerOfX(m) == ONE
    ensures PowerOfX(m * k) == ONE
    decreases k
  {
    if k > 0 {
      OrderMultiple(m, k - 1);
      ShiftNAdd(ONE, m * (k - 1), m);
      assert m * (k - 1) + m == m * k;
    }
  }

  /** Euclid's algorithm on exponents: the multiples of c that give 1 are closed under common divisors. */
  lemma OrderGcd(c: nat, m: nat, n: nat) returns (g: nat, a: nat, b: nat)
    requires 0 < m && 0 < n && PowerOfX(c * m) == ONE && PowerOfX(c * n) == ONE
    ensures 0 < g && PowerOfX(c * g) == ONE && m == g * a && n == g * b
    decreases m + n
  {
    hide PowerOfX;
    if m == n {
      g, a, b := m, 1, 1;
    } else if m < n {
      assert c * n - c * m == c * (n - m) && 0 <= c * (n - m);
      OrderSubtract(c * m, c * n);
      g, a, b := OrderGcd(c, m, n - m);
      assert n == g * a + g * b == g * (a + b);
      b := a + b;
    } else {
      assert c * m - c * n == c * (m - n) && 0 <= c * (m - n);
      OrderSubtract(c * n, c * m);
      g, a, b := OrderGcd(c, m - n, n);
      assert m == g * a + g * b == g * (a + b);
      a := a + b;
    }
  }

  predicate PrimeFactor(p: nat) { p == 7 || p == 31 || p == 151 }

  lemma SmallDivisor(p: nat, x: nat, y: nat)
    requires PrimeFactor(p) && 1 < x <= 12 && x * y == p
    ensures x == p
  {
    if x == 2 {} else if x == 3 {} else if x == 4 {} else if x == 5 {} else if x == 6 {} else if x == 7 {}
    else if x == 8 {} else if x == 9 {} else if x == 10 {} else if x == 11 {} else {}
  }

  lemma ProductOfLarge(x: nat, y: nat)
    requires x > 12 && y > 12
    ensures x * y > 151
  {
    assert x * y >= 13 * y;
  }

  lemma Prime(p: nat, x: nat, y: nat)
    requires PrimeFactor(p) && x * y == p
    ensures x == 1 || x == p
  {
    if x > 12 && y > 12 {
      ProductOfLarge(x, y);
      assert false;
    } else if 1 < x <= 12 {
      SmallDivisor(p, x, y);
    } else if 1 < y <= 12 {
      SmallDivisor(p, y, x);
    }
  }

  /** If x^n = 1 and p does not divide n, then already x^(32767/p) = 1. */
  lemma OrderWithoutFactor(n: nat, p: nat, c: nat)
    requires PrimeFactor(p) && c * p == PERIOD && n % p != 0 && PowerOfX(n) == ONE
    ensures PowerOfX(c) == ONE
  {
    hide PowerOfX;
    PeriodReturns();
    OrderMultiple(n, c);
    assert n * c == c * n;
    var g, a, b := OrderGcd(c, n, p);
    Prime(p, g, b);
    if g == p { MultipleOf(p, a); }
    assert c * 1 == c;
  }

  lemma MultipleOf(p: nat, a: nat)
    requires PrimeFactor(p)
    ensures (p * a) % p == 0
  {
    if p == 7 {} else if p == 31 {} else {}
  }

  lemma AllFactors(n: nat)
    requires n % 7 == 0 && n % 31 == 0 && n % 151 == 0
    ensures n % PERIOD == 0
  {
    var a, b, c := n / 7, n / 31, n / 151;
    var d := 5 * a - 22 * b;
    assert n == 7 * a && n == 31 * b && n == 151 * c;
    assert b == 7 * d;
    var e := 23 * d - 16 * c;
    assert d == 151 * e;
    assert n == PERIOD * e;
  }

  /** x has order 32767: its powers return to 1 at the multiples of 32767 and nowhere else. */
  lemma OrderOfX(n: nat)
    ensures PowerOfX(n) == ONE <==> n % PERIOD == 0
  {
    hide PowerOfX;
    PeriodReturns();
    OrderMultiple(PERIOD, n / PERIOD);
    if PowerOfX(n) == ONE {
      PowerOf4681();
      PowerOf1057();
      PowerOf217();
      if n % 7 != 0 { OrderWithoutFactor(n, 7, 4681); }
      if n % 31 != 0 { OrderWithoutFactor(n, 31, 1057); }
      if n % 151 != 0 { OrderWithoutFactor(n, 151, 217); }
      AllFactors(n);
    }
  }
}
