/** The byte-at-a-time receiver of the session loop: it cuts a stream into acknowledgements and command frames. */
module Receiver {
  import opened Words
  import opened Wire
  import opened Mirror
  import opened Commands

  datatype Unit = Ack(bytes: seq<byte>) | Framed(bytes: seq<byte>)

  /** The size of a frame from its first eight bytes; the sum is kept in a signed 32-bit variable. */
  function SizeOf(head: seq<byte>): int
    requires |head| >= 8
  {
    Signed32(GetBe(head[4..8]) + 12)
  }

  /** The bytes kept after one more byte, and the unit it completes, if any. */
  function Accept(acc: seq<byte>, b: byte): (seq<byte>, Option<Unit>) {
    var a := acc + [b];
    if |a| == 4 && a[3] != 0 then ([], Some(Ack(a)))
    else if |acc| >= 8 && |a| == SizeOf(acc) then ([], Some(Framed(a)))
    else (a, None)
  }

  function Units(acc: seq<byte>, s: seq<byte>): (seq<byte>, seq<Unit>)
    decreases |s|
  {
    if s == [] then (acc, [])
    else
      var (a, u) := Accept(acc, s[0]);
      var (rest, us) := Units(a, s[1..]);
      (rest, (if u.Some? then [u.value] else []) + us)
  }

  // ----- the receiver in place -----

  class Receiver {
    const buf: array<byte>
    var ind: nat
    var lenr: nat
    var lenrWait: int

    ghost predicate Valid()
      reads this, buf
    {
      && buf.Length == BUF_SIZE && lenr == ind <= BUF_SIZE
      && (ind >= 4 ==> buf[3] == 0)
      && lenrWait == (if ind < 4 then 4 else if ind < 8 then 8 else SizeOf(buf[..ind]))
    }

    /** The bytes of the unit that is being received. */
    ghost function Kept(): seq<byte>
      requires Valid()
      reads this, buf
    {
      buf[..ind]
    }

    constructor ()
      ensures Valid() && Kept() == [] && fresh(buf)
    {
      buf := new byte[BUF_SIZE](_ => 0);
      ind, lenr, lenrWait := 0, 0, 4;
    }

    /** What a record send does to the receiver. */
    method Restart()
      requires Valid()
      modifies `ind, `lenr, `lenrWait
      ensures Valid() && Kept() == []
    {
      ind, lenr, lenrWait := 0, 0, 4;
    }

    method ClearAll()
      requires buf.Length == BUF_SIZE
      modifies this, buf
      ensures Valid() && Kept() == []
    {
      Clear(buf);
      ind, lenr, lenrWait := 0, 0, 4;
    }

    /** One byte from the socket. The source does not check for the end of its buffer: that is the caller's concern. */
    method Receive(b: byte) returns (unit: Option<Unit>)
      requires Valid() && ind < BUF_SIZE
      modifies this, buf
      ensures Valid() && (Kept(), unit) == Accept(old(Kept()), b)
    {
      hide SizeOf;
      ghost var before := buf[..ind];
      unit := None;
      buf[ind] := b;
      assert buf[..ind + 1] == before + [b];
      lenr := lenr + 1;
      ind := ind + 1;
      if lenr == lenrWait {
        if buf[3] == 0 {
          if lenr == 4 {
            lenrWait := lenrWait + 4;
          } else if lenr == 8 {
            HeadDecides(before + [b], buf[..ind]);
            lenrWait := Signed32(lenrWait + Wrap32(GetBe(buf[4..8]) + 4));
            SizeFromParts(buf[..ind]);
            assert buf[..ind][4..8] == buf[4..8];
          } else {
            unit := Some(Framed(buf[..lenr]));
            ClearAll();
          }
        } else {
          unit := Some(Ack(buf[..lenr]));
          ClearAll();
        }
      } else {
        if ind > 8 { HeadDecides(before, buf[..ind]); }
      }
    }
  }

  lemma HeadDecides(a: seq<byte>, b: seq<byte>)
    requires |a| >= 8 && |b| >= 8 && a[..8] == b[..8]
    ensures SizeOf(a) == SizeOf(b)
  {
    assert a[4..8] == a[..8][4..8] && b[4..8] == b[..8][4..8];
  }

  lemma SizeFromParts(a: seq<byte>)
    requires |a| >= 8
    ensures SizeOf(a) == Signed32(8 + Wrap32(GetBe(a[4..8]) + 4))
  {}
}
