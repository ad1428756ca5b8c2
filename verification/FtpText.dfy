/** Text over FTP: line ends on the wire (section 3.1.1.1 of RFC 959), line reading, and their round trip. */
module FtpText {
  import opened Words

  const CR: byte := 13
  const LF: byte := 10

  // ----- sending -----

  /** Every LF that does not follow a CR gets one. */
  function ToCrLf(t: seq<byte>): seq<byte> {
    if t == [] then [] else ToCrLf(t[..|t| - 1]) + Converted(t[..|t| - 1], t[|t| - 1])
  }

  /** What a character becomes after the text before it. */
  function Converted(before: seq<byte>, c: byte): seq<byte> {
    if c == LF && (before == [] || before[|before| - 1] != CR) then [CR, LF] else [c]
  }

  // ----- receiving -----

  /** The number of bytes up to and including the first LF, or all of them. */
  function LineEnd(s: seq<byte>): (n: nat)
    ensures n <= |s| && (s != [] ==> n > 0) && (n > 0 ==> LF !in s[..n - 1])
    ensures n > 0 && s[n - 1] != LF ==> n == |s|
  {
    if s == [] then 0 else if s[0] == LF then 1 else 1 + LineEnd(s[1..])
  }

  /** The first line, with CR LF at its end turned into LF. */
  function Line(s: seq<byte>): seq<byte> {
    var n := LineEnd(s);
    if n >= 2 && s[n - 2] == CR && s[n - 1] == LF then s[..n - 2] + [LF] else s[..n]
  }

  function Lines(s: seq<byte>): seq<byte> {
    if s == [] then [] else Line(s) + Lines(s[LineEnd(s)..])
  }

  /** The first line can be read into max bytes: not a bare LF, with room for the terminator, and two to spare at the end. */
  ghost predicate LineFits(s: seq<byte>, max: nat) {
    var n := LineEnd(s);
    s != [] ==> if s[n - 1] == LF then 2 <= n < max else n + 2 <= max
  }

  ghost predicate LinesFit(s: seq<byte>, max: nat) {
    s != [] ==> LineFits(s, max) && LinesFit(s[LineEnd(s)..], max)
  }

  // ----- lemmas on line ends -----

  lemma {:induction false} LineEndIs(p: seq<byte>, rest: seq<byte>)
    requires LF !in p
    ensures LineEnd(p + [LF] + rest) == |p| + 1
    ensures LineEnd(p) == |p|
    decreases |p|
  {
    var s := p + [LF] + rest;
    if p != [] {
      assert s[1..] == p[1..] + [LF] + rest;
      LineEndIs(p[1..], rest);
    }
  }

  lemma {:induction false} ToCrLfCat(a: seq<byte>, b: seq<byte>)
    requires !(a != [] && a[|a| - 1] == CR && b != [] && b[0] == LF)
    ensures ToCrLf(a + b) == ToCrLf(a) + ToCrLf(b)
    decreases |b|
  {
    hide Converted, ToCrLf;
    NothingConverted();
    if b == [] {
      assert a + b == a && ToCrLf(a) + [] == ToCrLf(a);
    } else {
      var init, c := b[..|b| - 1], b[|b| - 1];
      assert b == init + [c] && a + b == (a + init) + [c];
      ToCrLfCat(a, init);
      ToCrLfSnoc(a + init, c);
      ToCrLfSnoc(init, c);
      ConvertedAfter(a, init, c);
    }
  }

  lemma NothingConverted()
    ensures ToCrLf([]) == []
  {}

  lemma ToCrLfSnoc(t: seq<byte>, c: byte)
    ensures ToCrLf(t + [c]) == ToCrLf(t) + Converted(t, c)
  {
    assert (t + [c])[..|t|] == t;
  }

  lemma ConvertedAfter(a: seq<byte>, init: seq<byte>, c: byte)
    requires a != [] && a[|a| - 1] == CR && c == LF ==> init != []
    ensures Converted(a + init, c) == Converted(init, c)
  {
    if init == [] { assert a + init == a; }
  }

  /** Conversion can be done piecewise exactly when no CR LF is split between the pieces. */
  lemma PiecewiseConversion(a: seq<byte>, b: seq<byte>)
    ensures ToCrLf(a) + ToCrLf(b) == ToCrLf(a + b)
      <==> !(a != [] && a[|a| - 1] == CR && b != [] && b[0] == LF)
    ensures |ToCrLf(a + b)|
         == |ToCrLf(a)| + |ToCrLf(b)| - (if a != [] && a[|a| - 1] == CR && b != [] && b[0] == LF then 1 else 0)
  {
    if a != [] && a[|a| - 1] == CR && b != [] && b[0] == LF {
      var rest := b[1..];
      assert b == [LF] + rest && a + b == (a + [LF]) + rest;
      ToCrLfCat([LF], rest);
      ToCrLfCat(a + [LF], rest);
      assert (a + [LF])[..|a|] == a;
      assert ToCrLf(a + [LF]) == ToCrLf(a) + [LF];
      assert [LF][..0] == [];
      assert |ToCrLf(a) + ToCrLf(b)| == |ToCrLf(a + b)| + 1;
    } else {
      ToCrLfCat(a, b);
    }
  }

  // ----- round trip -----

  ghost predicate HasCrLf(t: seq<byte>) {
    exists i :: 0 <= i < |t| - 1 && t[i] == CR && t[i + 1] == LF
  }

  /** A text is its first line and the rest. */
  lemma FirstPiece(t: seq<byte>) returns (p: seq<byte>, rest: seq<byte>, whole: bool)
    requires t != []
    ensures LF !in p && t == (if whole then p + [LF] + rest else p)
    ensures LineEnd(t) == (if whole then |p| + 1 else |p|)
    ensures whole ==> rest == t[LineEnd(t)..]
  {
    var n := LineEnd(t);
    whole := t[n - 1] == LF;
    if whole {
      p, rest := t[..n - 1], t[n..];
      assert t == t[..n - 1] + [t[n - 1]] + t[n..];
    } else {
      p, rest := t, [];
      assert p == t[..n - 1] + [t[n - 1]];
    }
  }

  lemma LineOfConverted(p: seq<byte>, rest: seq<byte>)
    requires LF !in p
    ensures var s := p + [CR, LF] + rest;
      LineEnd(s) == |p| + 2 && Line(s) == p + [LF] && s[LineEnd(s)..] == rest && s[LineEnd(s) - 1] == LF
  {
    var s := p + [CR, LF] + rest;
    assert s == (p + [CR]) + [LF] + rest;
    LineEndIs(p + [CR], rest);
    assert s[..|p|] == p;
  }

  lemma LastLine(p: seq<byte>)
    requires LF !in p
    ensures LineEnd(p) == |p| && Line(p) == p && p[LineEnd(p)..] == []
  {
    LineEndIs(p, []);
  }

  /** Every LF gets a CR. */
  function Doubled(t: seq<byte>): seq<byte> {
    if t == [] then []
    else Doubled(t[..|t| - 1]) + (if t[|t| - 1] == LF then [CR, LF] else [t[|t| - 1]])
  }

  lemma {:induction false} DoubledCat(a: seq<byte>, b: seq<byte>)
    ensures Doubled(a + b) == Doubled(a) + Doubled(b)
    decreases |b|
  {
    if b == [] {
      assert a + b == a;
    } else {
      assert (a + b)[..|a + b| - 1] == a + b[..|b| - 1];
      DoubledCat(a, b[..|b| - 1]);
    }
  }

  lemma {:induction false} DoubledPiece(p: seq<byte>)
    requires LF !in p
    ensures Doubled(p) == p
    decreases |p|
  {
    if p != [] {
      DoubledPiece(p[..|p| - 1]);
      assert p == p[..|p| - 1] + [p[|p| - 1]];
    }
  }

  lemma DoubledLine(p: seq<byte>, rest: seq<byte>)
    requires LF !in p
    ensures Doubled(p + [LF] + rest) == p + [CR, LF] + Doubled(rest)
  {
    DoubledPiece(p);
    assert (p + [LF])[..|p|] == p;
    DoubledCat(p + [LF], rest);
  }

  /** Without CR LF in the text the conversion doubles every line end. */
  lemma {:induction false} ToCrLfIsDoubled(t: seq<byte>)
    requires !HasCrLf(t)
    ensures ToCrLf(t) == Doubled(t)
    decreases |t|
  {
    if t != [] {
      CrLfInPrefix(t);
      ToCrLfIsDoubled(t[..|t| - 1]);
    }
  }

  lemma CrLfInPrefix(t: seq<byte>)
    requires t != []
    ensures HasCrLf(t[..|t| - 1]) ==> HasCrLf(t)
  {
    var init := t[..|t| - 1];
    if i :| 0 <= i < |init| - 1 && init[i] == CR && init[i + 1] == LF {
      assert t[i] == CR && t[i + 1] == LF;
    }
  }

  /** Reading lines undoes doubling, for every text. */
  lemma {:induction false} DoubledComesBack(t: seq<byte>)
    ensures Lines(Doubled(t)) == t
    decreases |t|
  {
    if t != [] {
      var p, rest, whole := FirstPiece(t);
      if whole {
        DoubledLine(p, rest);
        LineOfConverted(p, Doubled(rest));
        DoubledComesBack(rest);
      } else {
        DoubledPiece(p);
        LastLine(p);
        assert Lines(p) == p + Lines([]);
      }
    }
  }

  /** The lines of the doubled text fit when those of the text leave room for the CR. */
  ghost predicate TextFits(t: seq<byte>, max: nat) {
    t != [] ==>
      && (if t[LineEnd(t) - 1] == LF then LineEnd(t) + 1 < max else LineEnd(t) + 2 <= max)
      && TextFits(t[LineEnd(t)..], max)
  }

  lemma {:induction false} DoubledFits(t: seq<byte>, max: nat)
    requires TextFits(t, max)
    ensures LinesFit(Doubled(t), max)
    decreases |t|
  {
    if t != [] {
      var p, rest, whole := FirstPiece(t);
      if whole {
        DoubledLine(p, rest);
        LineOfConverted(p, Doubled(rest));
        assert t[LineEnd(t) - 1] == LF;
        DoubledFits(rest, max);
      } else {
        DoubledPiece(p);
        LastLine(p);
        assert t[|p| - 1] in p;
      }
    }
  }

  // ----- counting, for the texts that do not come back -----

  function Lfs(s: seq<byte>): nat {
    if s == [] then 0 else Lfs(s[..|s| - 1]) + (if s[|s| - 1] == LF then 1 else 0)
  }

  function CrLfs(s: seq<byte>): nat {
    if |s| < 2 then 0
    else CrLfs(s[..|s| - 1]) + (if s[|s| - 2] == CR && s[|s| - 1] == LF then 1 else 0)
  }

  lemma {:induction false} LfsCat(a: seq<byte>, b: seq<byte>)
    ensures Lfs(a + b) == Lfs(a) + Lfs(b)
    decreases |b|
  {
    if b == [] {
      assert a + b == a;
    } else {
      assert (a + b)[..|a + b| - 1] == a + b[..|b| - 1];
      LfsCat(a, b[..|b| - 1]);
    }
  }

  lemma {:induction false} LfsOfPiece(p: seq<byte>)
    requires LF !in p
    ensures Lfs(p) == 0
    decreases |p|
  {
    if p != [] { LfsOfPiece(p[..|p| - 1]); }
  }

  ghost predicate NoBareLf(s: seq<byte>) {
    forall i :: 0 <= i < |s| && s[i] == LF ==> i > 0 && s[i - 1] == CR
  }

  lemma {:induction false} ConversionCounts(t: seq<byte>)
    ensures |ToCrLf(t)| == |t| + Lfs(t) - CrLfs(t) && Lfs(ToCrLf(t)) == Lfs(t) && NoBareLf(ToCrLf(t))
    ensures t != [] ==> ToCrLf(t) != [] && ToCrLf(t)[|ToCrLf(t)| - 1] == t[|t| - 1]
    decreases |t|
  {
    if t != [] {
      var init, c := t[..|t| - 1], t[|t| - 1];
      ConversionCounts(init);
      hide Converted, NoBareLf;
      ConvertedCounts(init, c, ToCrLf(init));
      LfsCat(ToCrLf(init), Converted(init, c));
    }
  }

  lemma ConvertedCounts(before: seq<byte>, c: byte, out: seq<byte>)
    requires NoBareLf(out) && (if before == [] then out == [] else out != [] && out[|out| - 1] == before[|before| - 1])
    ensures var more := Converted(before, c);
      && NoBareLf(out + more) && Lfs(more) == (if c == LF then 1 else 0) && more[|more| - 1] == c
      && |more| == 1 + (if c == LF then 1 else 0) - (if before != [] && before[|before| - 1] == CR && c == LF then 1 else 0)
  {
    LfsOfShort(c);
  }

  lemma LfsOfShort(c: byte)
    ensures Lfs([c]) == (if c == LF then 1 else 0) && Lfs([CR, LF]) == 1
  {
    assert [CR, LF][..1] == [CR] && [CR][..0] == [] && [c][..0] == [];
    assert Lfs([CR]) == 0;
  }

  lemma {:induction false} LinesCount(s: seq<byte>)
    requires NoBareLf(s)
    ensures |Lines(s)| + Lfs(s) == |s|
    decreases |s|
  {
    if s != [] {
      var p, rest, whole := FirstPiece(s);
      LfsOfPiece(p);
      if whole {
        assert s[|p|] == LF && s[|p| - 1] == CR;
        LfsCat(p + [LF], rest);
        LfsCat(p, [LF]);
        LfsOfShort(LF);
        forall i | 0 <= i < |rest| && rest[i] == LF ensures i > 0 && rest[i - 1] == CR {
          assert s[|p| + 1 + i] == LF;
        }
        LinesCount(rest);
      } else {
        LastLine(p);
      }
    }
  }

  lemma {:induction false} NoCrLfCounted(t: seq<byte>)
    ensures CrLfs(t) == 0 <==> !HasCrLf(t)
    decreases |t|
  {
    if |t| >= 2 {
      var init := t[..|t| - 1];
      NoCrLfCounted(init);
      if i :| 0 <= i < |t| - 1 && t[i] == CR && t[i + 1] == LF {
        if i < |init| - 1 { assert init[i] == CR && init[i + 1] == LF; }
      }
      if i :| 0 <= i < |init| - 1 && init[i] == CR && init[i + 1] == LF {
        assert t[i] == CR && t[i + 1] == LF;
      }
    }
  }

  /** A text survives being sent as lines and read back as lines exactly when it contains no CR LF. */
  lemma TextRoundTrip(t: seq<byte>)
    ensures Lines(ToCrLf(t)) == t <==> !HasCrLf(t)
  {
    if HasCrLf(t) {
      ConversionCounts(t);
      LinesCount(ToCrLf(t));
      NoCrLfCounted(t);
    } else {
      ToCrLfIsDoubled(t);
      DoubledComesBack(t);
    }
  }
}
