/** The big-endian wire order, and the host-order conversions that produce it on a little-endian machine. */
module Wire {
  import opened Words

  function Power256(n: nat): (r: nat)
    ensures r > 0
  {
    if n == 0 then 1 else 256 * Power256(n - 1)
  }

  /** The value of a byte string, most significant byte first. */
  function GetBe(s: seq<byte>): (r: nat)
    ensures r < Power256(|s|)
  {
    if s == [] then 0 else GetBe(s[..|s| - 1]) * 256 + s[|s| - 1]
  }

  /** The n low bytes of x, most significant byte first. */
  function PutBe(x: nat, n: nat): (r: seq<byte>)
    ensures |r| == n
  {
    if n == 0 then [] else PutBe(x / 256, n - 1) + [x % 256]
  }

  /** The n low bytes of x in the order a little-endian machine stores them. */
  function PutLe(x: nat, n: nat): (r: seq<byte>)
    ensures |r| == n
    decreases n
  {
    if n == 0 then [] else [x % 256] + PutLe(x / 256, n - 1)
  }

  /** htons, htonl and htobe64: the value whose stored bytes are those of x in reverse. */
  function Hton(x: nat, n: nat): nat { GetBe(PutLe(x, n)) }

  lemma {:induction false} PutGet(x: nat, n: nat)
    requires x < Power256(n)
    ensures GetBe(PutBe(x, n)) == x
    decreases n
  {
    if n > 0 {
      assert PutBe(x, n)[..n - 1] == PutBe(x / 256, n - 1);
      PutGet(x / 256, n - 1);
    }
  }

  lemma {:induction false} GetPut(s: seq<byte>)
    ensures PutBe(GetBe(s), |s|) == s
    decreases |s|
  {
    if s != [] {
      var init, last := s[..|s| - 1], s[|s| - 1];
      GetPut(init);
      LastDigit(GetBe(init), last);
      assert PutBe(GetBe(s), |s|) == PutBe(GetBe(init), |init|) + [last];
      assert s == init + [last];
    }
  }

  lemma LastDigit(x: nat, b: byte)
    ensures (x * 256 + b) / 256 == x && (x * 256 + b) % 256 == b
  {}

  function Reversed(s: seq<byte>): (r: seq<byte>)
    ensures |r| == |s|
  {
    if s == [] then [] else Reversed(s[1..]) + [s[0]]
  }

  lemma PutLeReversed(x: nat, n: nat)
    ensures Reversed(PutLe(x, n)) == PutBe(x, n)
    decreases n
  {
    if n > 0 {
      PutLeReversed(x / 256, n - 1);
      assert PutLe(x, n)[1..] == PutLe(x / 256, n - 1);
    }
  }

  lemma {:induction false} ReversedSnoc(s: seq<byte>, b: byte)
    ensures Reversed(s + [b]) == [b] + Reversed(s)
    decreases |s|
  {
    if s == [] {
      assert [b][1..] == [];
    } else {
      assert (s + [b])[1..] == s[1..] + [b];
      ReversedSnoc(s[1..], b);
    }
  }

  lemma {:induction false} ReversedTwice(s: seq<byte>)
    ensures Reversed(Reversed(s)) == s
    decreases |s|
  {
    if s != [] {
      ReversedTwice(s[1..]);
      ReversedSnoc(Reversed(s[1..]), s[0]);
    }
  }

  /** A field converted by hton and stored little-endian lies in memory in wire order. */
  lemma StoredIsBigEndian(x: nat, n: nat)
    ensures PutLe(Hton(x, n), n) == PutBe(x, n)
  {
    var s := PutLe(x, n);
    GetPut(s);
    PutLeReversed(Hton(x, n), n);
    ReversedTwice(PutLe(Hton(x, n), n));
    PutLeReversed(x, n);
  }

  /** ntoh undoes hton, so the fields read back from the mirror are the host values stored. */
  lemma HtonInvolution(x: nat, n: nat)
    requires x < Power256(n)
    ensures Hton(Hton(x, n), n) == x
  {
    StoredIsBigEndian(x, n);
    PutGet(x, n);
  }
}
