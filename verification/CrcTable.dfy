/** The 256-entry table of ksum, and the proof that each entry is eight register steps. */
module CrcTable {
  import opened Register

  // The look-up table, eight entries a row as the source lays it out.
  const ROW0: seq<bv16> := [0x0000, 0xC0C1, 0xC181, 0x0140, 0xC301, 0x03C0, 0x0280, 0xC241]
  const ROW1: seq<bv16> := [0xC601, 0x06C0, 0x0780, 0xC741, 0x0500, 0xC5C1, 0xC481, 0x0440]
  const ROW2: seq<bv16> := [0xCC01, 0x0CC0, 0x0D80, 0xCD41, 0x0F00, 0xCFC1, 0xCE81, 0x0E40]
  const ROW3: seq<bv16> := [0x0A00, 0xCAC1, 0xCB81, 0x0B40, 0xC901, 0x09C0, 0x0880, 0xC841]
  const ROW4: seq<bv16> := [0xD801, 0x18C0, 0x1980, 0xD941, 0x1B00, 0xDBC1, 0xDA81, 0x1A40]
  const ROW5: seq<bv16> := [0x1E00, 0xDEC1, 0xDF81, 0x1F40, 0xDD01, 0x1DC0, 0x1C80, 0xDC41]
  const ROW6: seq<bv16> := [0x1400, 0xD4C1, 0xD581, 0x1540, 0xD701, 0x17C0, 0x1680, 0xD641]
  const ROW7: seq<bv16> := [0xD201, 0x12C0, 0x1380, 0xD341, 0x1100, 0xD1C1, 0xD081, 0x1040]
  const ROW8: seq<bv16> := [0xF001, 0x30C0, 0x3180, 0xF141, 0x3300, 0xF3C1, 0xF281, 0x3240]
  const ROW9: seq<bv16> := [0x3600, 0xF6C1, 0xF781, 0x3740, 0xF501, 0x35C0, 0x3480, 0xF441]
  const ROW10: seq<bv16> := [0x3C00, 0xFCC1, 0xFD81, 0x3D40, 0xFF01, 0x3FC0, 0x3E80, 0xFE41]
  const ROW11: seq<bv16> := [0xFA01, 0x3AC0, 0x3B80, 0xFB41, 0x3900, 0xF9C1, 0xF881, 0x3840]
  const ROW12: seq<bv16> := [0x2800, 0xE8C1, 0xE981, 0x2940, 0xEB01, 0x2BC0, 0x2A80, 0xEA41]
  const ROW13: seq<bv16> := [0xEE01, 0x2EC0, 0x2F80, 0xEF41, 0x2D00, 0xEDC1, 0xEC81, 0x2C40]
  const ROW14: seq<bv16> := [0xE401, 0x24C0, 0x2580, 0xE541, 0x2700, 0xE7C1, 0xE681, 0x2640]
  const ROW15: seq<bv16> := [0x2200, 0xE2C1, 0xE381, 0x2340, 0xE101, 0x21C0, 0x2080, 0xE041]
  const ROW16: seq<bv16> := [0xA001, 0x60C0, 0x6180, 0xA141, 0x6300, 0xA3C1, 0xA281, 0x6240]
  const ROW17: seq<bv16> := [0x6600, 0xA6C1, 0xA781, 0x6740, 0xA501, 0x65C0, 0x6480, 0xA441]
  const ROW18: seq<bv16> := [0x6C00, 0xACC1, 0xAD81, 0x6D40, 0xAF01, 0x6FC0, 0x6E80, 0xAE41]
  const ROW19: seq<bv16> := [0xAA01, 0x6AC0, 0x6B80, 0xAB41, 0x6900, 0xA9C1, 0xA881, 0x6840]
  const ROW20: seq<bv16> := [0x7800, 0xB8C1, 0xB981, 0x7940, 0xBB01, 0x7BC0, 0x7A80, 0xBA41]
  const ROW21: seq<bv16> := [0xBE01, 0x7EC0, 0x7F80, 0xBF41, 0x7D00, 0xBDC1, 0xBC81, 0x7C40]
  const ROW22: seq<bv16> := [0xB401, 0x74C0, 0x7580, 0xB541, 0x7700, 0xB7C1, 0xB681, 0x7640]
  const ROW23: seq<bv16> := [0x7200, 0xB2C1, 0xB381, 0x7340, 0xB101, 0x71C0, 0x7080, 0xB041]
  const ROW24: seq<bv16> := [0x5000, 0x90C1, 0x9181, 0x5140, 0x9301, 0x53C0, 0x5280, 0x9241]
  const ROW25: seq<bv16> := [0x9601, 0x56C0, 0x5780, 0x9741, 0x5500, 0x95C1, 0x9481, 0x5440]
  const ROW26: seq<bv16> := [0x9C01, 0x5CC0, 0x5D80, 0x9D41, 0x5F00, 0x9FC1, 0x9E81, 0x5E40]
  const ROW27: seq<bv16> := [0x5A00, 0x9AC1, 0x9B81, 0x5B40, 0x9901, 0x59C0, 0x5880, 0x9841]
  const ROW28: seq<bv16> := [0x8801, 0x48C0, 0x4980, 0x8941, 0x4B00, 0x8BC1, 0x8A81, 0x4A40]
  const ROW29: seq<bv16> := [0x4E00, 0x8EC1, 0x8F81, 0x4F40, 0x8D01, 0x4DC0, 0x4C80, 0x8C41]
  const ROW30: seq<bv16> := [0x4400, 0x84C1, 0x8581, 0x4540, 0x8701, 0x47C0, 0x4680, 0x8641]
  const ROW31: seq<bv16> := [0x8201, 0x42C0, 0x4380, 0x8341, 0x4100, 0x81C1, 0x8081, 0x4040]

  function Row(i: nat): (r: seq<bv16>)
    requires i < 32
    ensures |r| == 8
  {
    match i
    case 0 => ROW0
    case 1 => ROW1
    case 2 => ROW2
    case 3 => ROW3
    case 4 => ROW4
    case 5 => ROW5
    case 6 => ROW6
    case 7 => ROW7
    case 8 => ROW8
    case 9 => ROW9
    case 10 => ROW10
    case 11 => ROW11
    case 12 => ROW12
    case 13 => ROW13
    case 14 => ROW14
    case 15 => ROW15
    case 16 => ROW16
    case 17 => ROW17
    case 18 => ROW18
    case 19 => ROW19
    case 20 => ROW20
    case 21 => ROW21
    case 22 => ROW22
    case 23 => ROW23
    case 24 => ROW24
    case 25 => ROW25
    case 26 => ROW26
    case 27 => ROW27
    case 28 => ROW28
    case 29 => ROW29
    case 30 => ROW30
    case _ => ROW31
  }

  function RowAt(y: bv8): (r: seq<bv16>)
    ensures |r| == 8
  {
    assert (y >> 3) as int < 32;
    Row((y >> 3) as int)
  }

  /** Entry `y` of the table. */
  function Entry(y: bv8): bv16 {
    assert (y & 7) as int < 8;
    RowAt(y)[(y & 7) as int]
  }

  function LowByte(w: bv16): bv8 { (w & 0xff) as bv8 }

  function HighByte(w: bv16): bv8 { (w >> 8) as bv8 }

  /** One table step. Both operands are 16 bits wide; only the low byte of their sum selects the entry. */
  function Bit16(ch: bv16, crc: bv16): bv16 {
    Xor(Entry(LowByte(Xor(crc, ch))), HighByte(crc) as bv16)
  }

  function Shift8(w: bv16): bv16 {
    Shift(Shift(Shift(Shift(Shift(Shift(Shift(Shift(w))))))))
  }

  lemma Shift8Linear(x: bv16, y: bv16)
    ensures Shift8(Xor(x, y)) == Xor(Shift8(x), Shift8(y))
  {
    hide Shift, Xor;
    ghost var x1, y1 := Shift(x), Shift(y);
    ShiftLinear(x, y);
    ghost var x2, y2 := Shift(x1), Shift(y1);
    ShiftLinear(x1, y1);
    ghost var x3, y3 := Shift(x2), Shift(y2);
    ShiftLinear(x2, y2);
    ghost var x4, y4 := Shift(x3), Shift(y3);
    ShiftLinear(x3, y3);
    ghost var x5, y5 := Shift(x4), Shift(y4);
    ShiftLinear(x4, y4);
    ghost var x6, y6 := Shift(x5), Shift(y5);
    ShiftLinear(x5, y5);
    ghost var x7, y7 := Shift(x6), Shift(y6);
    ShiftLinear(x6, y6);
    ShiftLinear(x7, y7);
  }

  /** The eight entries that start at a base entry: the base, changed by eight fixed patterns. */
  function Columns(base: bv16): (r: seq<bv16>)
    ensures |r| == 8
  {
    [base, Xor(base, 0xC0C1), Xor(base, 0xC181), Xor(base, 0x0140),
     Xor(base, 0xC301), Xor(base, 0x03C0), Xor(base, 0x0280), Xor(base, 0xC241)]
  }

  lemma RowsFrom0()
    ensures ROW0 == Columns(Shift8(0))
    ensures ROW1 == Columns(Shift8(8))
    ensures ROW2 == Columns(Shift8(16))
    ensures ROW3 == Columns(Shift8(24))
    ensures ROW4 == Columns(Shift8(32))
    ensures ROW5 == Columns(Shift8(40))
    ensures ROW6 == Columns(Shift8(48))
    ensures ROW7 == Columns(Shift8(56))
  {}

  lemma RowsFrom8()
    ensures ROW8 == Columns(Shift8(64))
    ensures ROW9 == Columns(Shift8(72))
    ensures ROW10 == Columns(Shift8(80))
    ensures ROW11 == Columns(Shift8(88))
    ensures ROW12 == Columns(Shift8(96))
    ensures ROW13 == Columns(Shift8(104))
    ensures ROW14 == Columns(Shift8(112))
    ensures ROW15 == Columns(Shift8(120))
  {}

  lemma RowsFrom16()
    ensures ROW16 == Columns(Shift8(128))
    ensures ROW17 == Columns(Shift8(136))
    ensures ROW18 == Columns(Shift8(144))
    ensures ROW19 == Columns(Shift8(152))
    ensures ROW20 == Columns(Shift8(160))
    ensures ROW21 == Columns(Shift8(168))
    ensures ROW22 == Columns(Shift8(176))
    ensures ROW23 == Columns(Shift8(184))
  {}

  lemma RowsFrom24()
    ensures ROW24 == Columns(Shift8(192))
    ensures ROW25 == Columns(Shift8(200))
    ensures ROW26 == Columns(Shift8(208))
    ensures ROW27 == Columns(Shift8(216))
    ensures ROW28 == Columns(Shift8(224))
    ensures ROW29 == Columns(Shift8(232))
    ensures ROW30 == Columns(Shift8(240))
    ensures ROW31 == Columns(Shift8(248))
  {}

  lemma QuarterFrom0(y: bv8)
    requires 0 <= y >> 3 < 8
    ensures RowAt(y) == Columns(Shift8((y as bv16) & 0xf8))
  {
    RowsFrom0();
    var k := (y as bv16) & 0xf8;
    hide Columns, Shift8;
    if y >> 3 == 0 { assert k == 0; }
    else if y >> 3 == 1 { assert k == 8; }
    else if y >> 3 == 2 { assert k == 16; }
    else if y >> 3 == 3 { assert k == 24; }
    else if y >> 3 == 4 { assert k == 32; }
    else if y >> 3 == 5 { assert k == 40; }
    else if y >> 3 == 6 { assert k == 48; }
    else if y >> 3 == 7 { assert k == 56; }
  }

  lemma QuarterFrom8(y: bv8)
    requires 8 <= y >> 3 < 16
    ensures RowAt(y) == Columns(Shift8((y as bv16) & 0xf8))
  {
    RowsFrom8();
    var k := (y as bv16) & 0xf8;
    hide Columns, Shift8;
    if y >> 3 == 8 { assert k == 64; }
    else if y >> 3 == 9 { assert k == 72; }
    else if y >> 3 == 10 { assert k == 80; }
    else if y >> 3 == 11 { assert k == 88; }
    else if y >> 3 == 12 { assert k == 96; }
    else if y >> 3 == 13 { assert k == 104; }
    else if y >> 3 == 14 { assert k == 112; }
    else if y >> 3 == 15 { assert k == 120; }
  }

  lemma QuarterFrom16(y: bv8)
    requires 16 <= y >> 3 < 24
    ensures RowAt(y) == Columns(Shift8((y as bv16) & 0xf8))
  {
    RowsFrom16();
    var k := (y as bv16) & 0xf8;
    hide Columns, Shift8;
    if y >> 3 == 16 { assert k == 128; }
    else if y >> 3 == 17 { assert k == 136; }
    else if y >> 3 == 18 { assert k == 144; }
    else if y >> 3 == 19 { assert k == 152; }
    else if y >> 3 == 20 { assert k == 160; }
    else if y >> 3 == 21 { assert k == 168; }
    else if y >> 3 == 22 { assert k == 176; }
    else if y >> 3 == 23 { assert k == 184; }
  }

  lemma QuarterFrom24(y: bv8)
    requires 24 <= y >> 3 < 32
    ensures RowAt(y) == Columns(Shift8((y as bv16) & 0xf8))
  {
    RowsFrom24();
    var k := (y as bv16) & 0xf8;
    hide Columns, Shift8;
    if y >> 3 == 24 { assert k == 192; }
    else if y >> 3 == 25 { assert k == 200; }
    else if y >> 3 == 26 { assert k == 208; }
    else if y >> 3 == 27 { assert k == 216; }
    else if y >> 3 == 28 { assert k == 224; }
    else if y >> 3 == 29 { assert k == 232; }
    else if y >> 3 == 30 { assert k == 240; }
    else if y >> 3 == 31 { assert k == 248; }
  }

  lemma EightShifts()
    ensures Shift8(0) == 0 && Shift8(1) == 0xC0C1 && Shift8(2) == 0xC181 && Shift8(3) == 0x0140
    ensures Shift8(4) == 0xC301 && Shift8(5) == 0x03C0 && Shift8(6) == 0x0280 && Shift8(7) == 0xC241
  {}

  lemma ColumnIsShift8(k: bv16, j: bv8)
    requires j < 8
    ensures (j as int) < 8 && Columns(Shift8(k))[j as int] == Shift8(Xor(k, j as bv16))
  {
    Shift8Linear(k, j as bv16);
    EightShifts();
    XorGroup(Shift8(k), 0);
    hide Shift8, Xor;
    if j == 0 {} else if j == 1 {} else if j == 2 {} else if j == 3 {}
    else if j == 4 {} else if j == 5 {} else if j == 6 {} else { assert j == 7; }
  }


  /** Every one of the 256 entries is eight register steps applied to its index. */
  lemma EntryIsShift8(y: bv8)
    ensures Entry(y) == Shift8(y as bv16)
  {
    var k := (y as bv16) & 0xf8;
    assert RowAt(y) == Columns(Shift8(k)) by {
      if y >> 3 < 8 { QuarterFrom0(y); } else if y >> 3 < 16 { QuarterFrom8(y); }
      else if y >> 3 < 24 { QuarterFrom16(y); } else { QuarterFrom24(y); }
    }
    ColumnIsShift8(k, y & 7);
    assert Xor(k, (y & 7) as bv16) == y as bv16;
    hide RowAt, Columns, Shift8, Xor;
  }
}
