/** ksum: the table walk over a buffer, proved to compute CRC-16/ARC. */
module Crc {
  import opened Words
  import opened Register
  import opened CrcTable

  /** The 16-bit word ksum loads at each position: this byte, with the next one above it. */
  function Word(low: byte, high: byte): bv16 { Wide(low) | (Wide(high) << 8) }

  lemma LoadedWord(low: byte, high: byte, crc: bv16)
    ensures LowByte(Xor(crc, Word(low, high))) == LowByte(Xor(crc, Wide(low)))
    ensures HighByte(Xor(crc, Wide(low))) == HighByte(crc)
  {}

  lemma SplitWord(v: bv16)
    ensures v == Xor(LowByte(v) as bv16, (HighByte(v) as bv16) << 8)
  {}

  /** Eight steps move a high byte down unchanged. */
  lemma Shift8OfHigh(h: bv8)
    ensures Shift8((h as bv16) << 8) == h as bv16
  {}

  lemma ByteIsUsedUp(low: byte)
    ensures Halve(Wide(low), 8) == 0
  {}

  lemma ShiftN8(v: bv16)
    ensures ShiftN(v, 8) == Shift8(v)
  {
    hide Shift;
  }

  /** One table step feeds the eight bits of one byte; the byte loaded along with it has no effect. */
  lemma Bit16IsFeed(low: byte, high: byte, crc: bv16)
    ensures Bit16(Word(low, high), crc) == Feed(crc, BitsFrom(Wide(low), 8))
  {
    var v := Xor(crc, Wide(low));
    var lo, hi := LowByte(v) as bv16, (HighByte(v) as bv16) << 8;
    LoadedWord(low, high, crc);
    SplitWord(v);
    Shift8OfHigh(HighByte(v));
    EntryIsShift8(LowByte(v));
    Shift8Linear(lo, hi);
    FeedBits(crc, Wide(low), 8);
    ByteIsUsedUp(low);
    ShiftN8(v);
    XorGroup(Feed(crc, BitsFrom(Wide(low), 8)), 0);
    hide Shift8, Xor, Entry, Word, ShiftN, Halve, LowByte, HighByte, Wide, Feed, BitsFrom;
  }

  lemma MessageBitsCat(a: seq<byte>, b: seq<byte>)
    ensures MessageBits(a + b) == MessageBits(a) + MessageBits(b)
  {
    if a == [] {
      assert a + b == b;
    } else {
      MessageBitsCat(a[1..], b);
      assert (a + b)[1..] == a[1..] + b;
      assert (a + b)[0] == a[0];
    }
  }

  /** The checksum can be computed piecewise: the register after `a` is all that matters for what follows. */
  lemma Crc16Incremental(a: seq<byte>, b: seq<byte>)
    ensures Crc16(a + b) == Feed(Crc16(a), MessageBits(b))
  {
    MessageBitsCat(a, b);
    FeedCat(0, MessageBits(a), MessageBits(b));
  }

  lemma Crc16Next(a: seq<byte>, b: byte)
    ensures Crc16(a + [b]) == Feed(Crc16(a), BitsFrom(Wide(b), 8))
  {
    Crc16Incremental(a, [b]);
    var bits := BitsFrom(Wide(b), 8);
    assert MessageBits([b]) == bits by {
      hide BitsFrom;
      assert [b][1..] == [];
      assert MessageBits([]) == [];
      assert bits + [] == bits;
    }
  }

  /** The table loop over `len` bytes from `start`. Each load is 16 bits wide, so one byte past the end is read too. */
  method Ksum(uk: array<byte>, start: nat, len: int) returns (crc: bv16)
    requires len <= 0 || start + len < uk.Length
    ensures len <= 0 ==> crc == 0
    ensures len > 0 ==> crc == Crc16(uk[start..start + len])
  {
    crc := 0;
    var i := 0;
    while i < len
      invariant 0 <= i && (i <= len || i == 0)
      invariant len <= 0 ==> crc == 0
      invariant len > 0 ==> crc == Crc16(uk[start..start + i])
    {
      var slovo := Word(uk[start + i], uk[start + i + 1]);
      Bit16IsFeed(uk[start + i], uk[start + i + 1], crc);
      Crc16Next(uk[start..start + i], uk[start + i]);
      assert uk[start..start + i] + [uk[start + i]] == uk[start..start + i + 1];
      crc := Bit16(slovo, crc);
      i := i + 1;
    }
  }
}
