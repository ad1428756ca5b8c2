/** Polynomials over GF(2) and the meaning of CRC-16/ARC as a remainder of polynomial division. */
module Gf2 {
  import opened Words
  import opened Register

  /** Coefficients, highest power first. */
  type Poly = seq<bool>

  /** x^16 + x^15 + x^2 + 1. */
  const GENERATOR: Poly :=
    [true, true, false, false, false, false, false, false, false, false, false, false, false, false, true, false, true]

  function Zeros(n: nat): (r: Poly)
    ensures |r| == n && forall i :: 0 <= i < n ==> !r[i]
  {
    seq(n, _ => false)
  }

  function Add(p: Poly, q: Poly): (r: Poly)
    requires |p| == |q|
    ensures |r| == |p| && forall i :: 0 <= i < |p| ==> r[i] == (p[i] != q[i])
  {
    seq(|p|, i requires 0 <= i < |p| => p[i] != q[i])
  }

  /** The product of a polynomial with the generator. */
  function TimesGenerator(q: Poly): (r: Poly)
    ensures |r| == |q| + 16
  {
    if q == [] then Zeros(16)
    else Add((if q[0] then GENERATOR else Zeros(17)) + Zeros(|q| - 1), [false] + TimesGenerator(q[1..]))
  }

  /** r is what is left of p when a multiple of the generator is taken away. */
  ghost predicate IsRemainder(p: Poly, r: Poly)
    requires |p| >= 16
  {
    |r| == 16 && exists q: Poly :: |q| == |p| - 16 && p == Add(TimesGenerator(q), Zeros(|q|) + r)
  }

  /** A 16-bit reflected remainder as a polynomial: bit 0 is the coefficient of x^15. */
  function ToPoly(w: bv16): (r: Poly)
    ensures |r| == 16
  {
    seq(16, i requires 0 <= i < 16 => BitAt(w, i))
  }

  function BitAt(w: bv16, i: nat): bool
    decreases i
  {
    if i == 0 then w & 1 == 1 else BitAt(w >> 1, i - 1)
  }

  lemma {:induction false} RemainderUniqueFor(q1: Poly, r1: Poly, q2: Poly, r2: Poly)
    requires |q1| == |q2| && |r1| == |r2| == 16
    requires Add(TimesGenerator(q1), Zeros(|q1|) + r1) == Add(TimesGenerator(q2), Zeros(|q2|) + r2)
    ensures r1 == r2
    decreases |q1|
  {
    var p1 := Add(TimesGenerator(q1), Zeros(|q1|) + r1);
    var p2 := Add(TimesGenerator(q2), Zeros(|q2|) + r2);
    if |q1| == 0 {
      assert forall i :: 0 <= i < 16 ==> p1[i] == r1[i] && p2[i] == r2[i];
    } else {
      assert p1[0] == q1[0] && p2[0] == q2[0];
      var s1 := Add(TimesGenerator(q1[1..]), Zeros(|q1| - 1) + r1);
      var s2 := Add(TimesGenerator(q2[1..]), Zeros(|q2| - 1) + r2);
      forall i | 0 <= i < |s1| ensures s1[i] == s2[i] {
        assert p1[i + 1] == p2[i + 1];
        assert (Zeros(|q1|) + r1)[i + 1] == (Zeros(|q1| - 1) + r1)[i];
        assert (Zeros(|q2|) + r2)[i + 1] == (Zeros(|q2| - 1) + r2)[i];
      }
      assert s1 == s2;
      RemainderUniqueFor(q1[1..], r1, q2[1..], r2);
    }
  }

  /** There is at most one remainder. */
  lemma RemainderUnique(p: Poly, r1: Poly, r2: Poly)
    requires |p| >= 16 && IsRemainder(p, r1) && IsRemainder(p, r2)
    ensures r1 == r2
  {
    var q1: Poly :| |q1| == |p| - 16 && p == Add(TimesGenerator(q1), Zeros(|q1|) + r1);
    var q2: Poly :| |q2| == |p| - 16 && p == Add(TimesGenerator(q2), Zeros(|q2|) + r2);
    RemainderUniqueFor(q1, r1, q2, r2);
  }

  // ----- the register divides -----

  lemma BitAtXor(x: bv16, y: bv16, i: nat)
    ensures BitAt(Xor(x, y), i) == (BitAt(x, i) != BitAt(y, i))
    decreases i
  {
    HalfXor(x, y);
    LowBit(x, y);
    LowBit(y, x);
    assert Xor(1, 1) == 0 && Xor(1, 0) == 1 && Xor(0, 1) == 1 && Xor(0, 0) == 0;
    hide Xor;
    if i > 0 { BitAtXor(x >> 1, y >> 1, i - 1); }
  }

  lemma BitAtZero(i: nat)
    ensures !BitAt(0, i)
    decreases i
  {
    if i > 0 { BitAtZero(i - 1); }
  }

  lemma BitAtSkip(w: bv16, i: nat)
    ensures BitAt(w, i + 4) == BitAt(w >> 4, i)
  {
    assert (((w >> 1) >> 1) >> 1) >> 1 == w >> 4;
    assert BitAt(w, i + 4) == BitAt(w >> 1, i + 3);
    assert BitAt(w >> 1, i + 3) == BitAt((w >> 1) >> 1, i + 2);
    assert BitAt((w >> 1) >> 1, i + 2) == BitAt(((w >> 1) >> 1) >> 1, i + 1);
  }

  lemma NoBit16(w: bv16)
    ensures !BitAt(w, 16)
  {
    BitAtSkip(w, 12);
    BitAtSkip(w >> 4, 8);
    BitAtSkip((w >> 4) >> 4, 4);
    BitAtSkip(((w >> 4) >> 4) >> 4, 0);
    assert (((w >> 4) >> 4) >> 4) >> 4 == 0;
  }

  lemma PolynomialBits(i: nat)
    requires i < 16
    ensures BitAt(0xA001, i) == GENERATOR[i + 1]
  {
    match i
    case 0 => case 1 => case 2 => case 3 => case 4 => case 5 => case 6 => case 7 =>
    case 8 => case 9 => case 10 => case 11 => case 12 => case 13 => case 14 => case 15 =>
  }

  lemma AddUnit(w: bv16, b: bool)
    ensures Xor(w, Unit(b)) >> 1 == w >> 1
    ensures (Xor(w, Unit(b)) & 1 == 1) == (b != (w & 1 == 1))
  {}

  /** One register step on coefficients: shift up, and subtract the generator if its leading power appears. */
  lemma StepOnCoefficients(w: bv16, b: bool, i: nat)
    requires i < 16
    ensures BitAt(Step(w, b), i) == (BitAt(w, i + 1) != ((b != BitAt(w, 0)) && GENERATOR[i + 1]))
  {
    AddUnit(w, b);
    PolynomialBits(i);
    BitAtXor(w >> 1, 0xA001, i);
    hide Xor, Unit;
  }

  ghost predicate DividesTo(w: bv16, bits: Poly, q: Poly, r: Poly) {
    |q| == |bits| && |r| == 16
    && Dividend(w, bits) == Add(TimesGenerator(q), Zeros(|q|) + r)
  }

  /** From register w, feeding `bits` leaves the remainder of (w on top of bits) * x^16. */
  lemma {:induction false} FeedDivides(w: bv16, bits: Poly) returns (q: Poly)
    ensures DividesTo(w, bits, q, ToPoly(Feed(w, bits)))
    decreases |bits|
  {
    if bits == [] {
      q := [];
      assert Add(bits + Zeros(16), ToPoly(w) + Zeros(0)) == ToPoly(w);
      assert Add(TimesGenerator([]), Zeros(0) + ToPoly(w)) == ToPoly(w);
    } else {
      var w', top := Step(w, bits[0]), bits[0] != BitAt(w, 0);
      var q' := FeedDivides(w', bits[1..]);
      q := [top] + q';
      DivisionStep(w, bits, q', ToPoly(Feed(w', bits[1..])));
    }
  }

  ghost function Dividend(w: bv16, bits: Poly): (r: Poly)
    ensures |r| == |bits| + 16
  {
    Add(bits + Zeros(16), ToPoly(w) + Zeros(|bits|))
  }

  lemma DividendCoefficient(w: bv16, bits: Poly, k: nat)
    requires k < |bits| + 16
    ensures Dividend(w, bits)[k] == ((k < |bits| && bits[k]) != (k < 16 && BitAt(w, k)))
  {}

  lemma DivisionCoefficient(w: bv16, bits: Poly, j: nat)
    requires bits != [] && 1 <= j < |bits| + 16
    ensures var top := bits[0] != BitAt(w, 0);
      Dividend(w, bits)[j] == (Dividend(Step(w, bits[0]), bits[1..])[j - 1] != (top && j < 17 && GENERATOR[j]))
  {
    hide Step, Dividend, BitAt;
    DividendCoefficient(w, bits, j);
    DividendCoefficient(Step(w, bits[0]), bits[1..], j - 1);
    if j < 17 {
      StepOnCoefficients(w, bits[0], j - 1);
      NoBit16(w);
    }
  }

  lemma DivisionStep(w: bv16, bits: Poly, q: Poly, r: Poly)
    requires bits != []
    requires DividesTo(Step(w, bits[0]), bits[1..], q, r)
    ensures DividesTo(w, bits, [bits[0] != BitAt(w, 0)] + q, r)
  {
    var n, top := |bits|, bits[0] != BitAt(w, 0);
    var p, p' := Dividend(w, bits), Dividend(Step(w, bits[0]), bits[1..]);
    var product := TimesGenerator([top] + q);
    assert ([top] + q)[1..] == q;
    var whole := Add(product, Zeros(n) + r);
    DividendCoefficient(w, bits, 0);
    hide Step, BitAt;
    forall j | 1 <= j < n + 16 ensures p[j] == whole[j] {
      DivisionCoefficient(w, bits, j);
      assert p'[j - 1] == Add(TimesGenerator(q), Zeros(n - 1) + r)[j - 1];
      assert (Zeros(n) + r)[j] == (Zeros(n - 1) + r)[j - 1];
    }
    assert p == whole;
  }

  /**
   * The checksum is the remainder of polynomial long division: a 16-coefficient polynomial is the remainder of
   * (message bits) * x^16 by the generator exactly when it is the checksum.
   */
  lemma Crc16IsRemainder(m: seq<byte>, r: Poly)
    ensures IsRemainder(MessageBits(m) + Zeros(16), r) <==> r == ToPoly(Crc16(m))
  {
    var bits := MessageBits(m);
    var p := bits + Zeros(16);
    var q := FeedDivides(0, bits);
    forall i | 0 <= i < 16 ensures !ToPoly(0)[i] { BitAtZero(i); }
    assert Add(p, ToPoly(0) + Zeros(|bits|)) == p;
    assert IsRemainder(p, ToPoly(Crc16(m)));
    if IsRemainder(p, r) { RemainderUnique(p, r, ToPoly(Crc16(m))); }
  }
}
