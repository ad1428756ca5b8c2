/** Whole files over the data connection: the upload and download loops, and what a file becomes by going both ways. */
module FtpTransfer {
  import opened Words
  import opened FtpText
  import opened NetBuf

  /** What an upload sends: the file is converted in chunks, each as if it were a text of its own. */
  function Chunked(t: seq<byte>): seq<byte> {
    if |t| <= BUFFER_SIZE then ToCrLf(t)
    else ToCrLf(t[..BUFFER_SIZE]) + Chunked(t[BUFFER_SIZE..])
  }

  /** What a download keeps: every line, but not the unterminated rest of a broken connection. */
  function Received(s: seq<byte>, broken: bool): seq<byte> {
    if s == [] || (s[LineEnd(s) - 1] != LF && broken) then []
    else Line(s) + Received(s[LineEnd(s)..], broken)
  }

  lemma {:induction false} ReceivedIsLines(s: seq<byte>)
    ensures Received(s, false) == Lines(s)
    decreases |s|
  {
    if s != [] { ReceivedIsLines(s[LineEnd(s)..]); }
  }

  /** The upload loop of xfer: chunks of 2048 bytes through writeLine until one is not written. */
  method Upload(file: seq<byte>, data: NetBuf) returns (rv: int)
    requires data.buf.Length == BUFFER_SIZE
    modifies data.buf, data.socket`sent, data.socket`room
    ensures var w := Chunked(file); var fits := |w| <= old(data.socket.room);
      && rv == (if fits then 1 else 0)
      && data.socket.sent == old(data.socket.sent) + (if fits then w else w[..old(data.socket.room)])
  {
    hide ToCrLf, Chunked;
    rv := 1;
    var at := 0;
    ghost var whole, done := Chunked(file), [];
    NoChunk();
    while at < |file|
      invariant at <= |file| && whole == done + Chunked(file[at..])
      invariant data.socket.sent == old(data.socket.sent) + done
      invariant data.socket.room + |done| == old(data.socket.room)
    {
      var l := if |file| - at < BUFFER_SIZE then |file| - at else BUFFER_SIZE;
      var chunk := file[at..at + l];
      FirstChunk(file[at..], l);
      assert file[at..][..l] == chunk && file[at..][l..] == file[at + l..];
      ghost var room := data.socket.room;
      var c := data.WriteLine(chunk);
      if c == -1 { c := 0; }
      if c < l {
        CutInside(whole, done, ToCrLf(chunk), Chunked(file[at + l..]), room);
        return 0;
      }
      done := done + ToCrLf(chunk);
      at := at + l;
    }
    assert file[at..] == [];
  }

  lemma CutInside(whole: seq<byte>, done: seq<byte>, w: seq<byte>, more: seq<byte>, room: nat)
    requires whole == done + (w + more) && room < |w|
    ensures |done| + room < |whole| && whole[..|done| + room] == done + w[..room]
  {}

  lemma NoChunk()
    ensures Chunked([]) == []
  {}

  lemma FirstChunk(t: seq<byte>, l: nat)
    requires l == if |t| < BUFFER_SIZE then |t| else BUFFER_SIZE
    ensures Chunked(t) == ToCrLf(t[..l]) + Chunked(t[l..])
  {
    if |t| <= BUFFER_SIZE {
      assert t[..l] == t && t[l..] == [];
      NoChunk();
    }
  }

  /** A line that readLine can only leave its buffer on, whatever the segmentation. */
  ghost predicate BareLf(s: seq<byte>) {
    LineEnd(s) == 1 && s[0] == LF
  }

  /**
   * What a download of any stream holds, as long as readLine stays inside its buffer: of a line that does not fit, pieces
   * of 2047 bytes, each with a NUL in place of its first byte, and then what is left of it as a line of its own.
   */
  ghost function Kept(s: seq<byte>, broken: bool): seq<byte> {
    if s == [] || BareLf(s) then []
    else if !LineFits(s, BUFFER_SIZE) then
      LongEnough(s, BUFFER_SIZE);
      [0] + s[1..BUFFER_SIZE - 1] + Kept(s[BUFFER_SIZE - 1..], broken)
    else if s[LineEnd(s) - 1] != LF && broken then []
    else Line(s) + Kept(s[LineEnd(s)..], broken)
  }

  lemma LongEnough(s: seq<byte>, max: nat)
    requires s != [] && !LineFits(s, max) && !BareLf(s)
    ensures |s| >= max - 1
  {}

  /** When all lines fit it is what is received. */
  lemma {:induction false} KeptIsReceived(s: seq<byte>, broken: bool)
    requires LinesFit(s, BUFFER_SIZE)
    ensures Kept(s, broken) == Received(s, broken)
    decreases |s|
  {
    if s != [] { KeptIsReceived(s[LineEnd(s)..], broken); }
  }

  /** readFtpClient on a text connection: the next line, 0 when there is none; whether readLine stayed in its buffer. */
  method ReadText(buffer: array<byte>, data: NetBuf) returns (i: nat, inside: bool)
    requires data.Valid() && buffer.Length == BUFFER_SIZE && buffer != data.buf
    modifies data, data.buf, data.socket`incoming, buffer
    ensures data.Valid() && i <= buffer.Length && (LinesFit(old(data.Pending()), BUFFER_SIZE) ==> inside)
    ensures inside ==> (LinesFit(old(data.Pending()), BUFFER_SIZE) ==> LinesFit(data.Pending(), BUFFER_SIZE))
    ensures var s, broken := old(data.Pending()), data.socket.broken;
      inside ==>
        if i == 0 then data.Pending() == [] && Kept(s, broken) == []
        else |data.Pending()| < |s| && Kept(s, broken) == buffer[..i] + Kept(data.Pending(), broken)
  {
    hide LineEnd, Line, Flat, LineFits, Kept;
    ghost var s := data.Pending();
    LineNotEmpty(s, BUFFER_SIZE);
    var n, outcome := data.ReadLine(buffer, BUFFER_SIZE);
    inside := outcome == Fine || outcome == Cut;
    i := if n == -1 then 0 else n;
    KeptStep(s, data.socket.broken);
  }

  lemma KeptStep(s: seq<byte>, broken: bool)
    ensures s == [] ==> Kept(s, broken) == []
    ensures s != [] && LineFits(s, BUFFER_SIZE) ==>
      Kept(s, broken) == if s[LineEnd(s) - 1] != LF && broken then [] else Line(s) + Kept(s[LineEnd(s)..], broken)
    ensures !LineFits(s, BUFFER_SIZE) && LineEnd(s) >= BUFFER_SIZE - 1 ==>
      |s| >= BUFFER_SIZE - 1 && Kept(s, broken) == [0] + s[1..BUFFER_SIZE - 1] + Kept(s[BUFFER_SIZE - 1..], broken)
  {}

  /**
   * The download loop of xfer: lines until none comes; success is reported whether the connection ended or broke, and
   * whether or not lines were cut.
   */
  method Download(data: NetBuf) returns (file: seq<byte>, rv: int, inside: bool)
    requires data.Valid()
    modifies data, data.buf, data.socket`incoming
    ensures data.Valid() && rv == 1
    ensures inside ==> data.Pending() == [] && file == Kept(old(data.Pending()), data.socket.broken)
    ensures LinesFit(old(data.Pending()), BUFFER_SIZE) ==> inside && file == Received(old(data.Pending()), data.socket.broken)
  {
    hide LineEnd, Line, Flat, LinesFit, Kept, Received, NetBuf.Pending, NetBuf.Valid;
    var dbuf := new byte[BUFFER_SIZE](_ => 0);
    ghost var s := data.Pending();
    ghost var whole := Kept(s, data.socket.broken);
    if LinesFit(s, BUFFER_SIZE) { KeptIsReceived(s, data.socket.broken); }
    file, rv, inside := [], 1, true;
    while true
      invariant data.Valid() && (LinesFit(s, BUFFER_SIZE) ==> LinesFit(data.Pending(), BUFFER_SIZE))
      invariant whole == file + Kept(data.Pending(), data.socket.broken)
      decreases |data.Pending()|
    {
      var l;
      l, inside := ReadText(dbuf, data);
      if !inside || l == 0 { return; }
      file := file + dbuf[..l];
    }
  }

  lemma LineNotEmpty(s: seq<byte>, max: nat)
    ensures LinesFit(s, max) ==> LineFits(s, max)
    ensures s != [] ==> 0 < LineEnd(s) <= |s| && (LinesFit(s, max) ==> LinesFit(s[LineEnd(s)..], max))
    ensures s != [] && LineFits(s, max) ==> Line(s) != []
  {}

  // ----- broken connections -----

  /**
   * Although it reports success, a download is incomplete exactly when the connection broke within a line: the lines
   * up to there are all that is kept.
   */
  lemma {:induction false} DownloadIsComplete(s: seq<byte>, broken: bool)
    ensures Received(s, broken) == Lines(s) <==> !broken || s == [] || s[|s| - 1] == LF
    ensures Received(s, broken) <= Lines(s)
    decreases |s|
  {
    if s != [] && !(s[LineEnd(s) - 1] != LF && broken) {
      var rest := s[LineEnd(s)..];
      assert rest != [] ==> rest[|rest| - 1] == s[|s| - 1];
      DownloadIsComplete(rest, broken);
      var line := Line(s);
      assert (line + Received(rest, broken))[|line|..] == Received(rest, broken);
      assert (line + Lines(rest))[|line|..] == Lines(rest);
    } else if s != [] {
      LineStays(s);
    }
  }

  lemma LineStays(s: seq<byte>)
    requires s != []
    ensures Lines(s) != []
  {}

  /** "A", line end, "B", and then the connection breaks: the file is "A", line end. */
  lemma BrokenDownload()
    ensures var s := [65, CR, LF, 66]; Received(s, true) == [65, LF] && Lines(s) == [65, LF, 66]
  {
    var s := [65, CR, LF, 66];
    LineOfConverted([65], [66]);
    assert s == [65] + [CR, LF] + [66] && [65] + [LF] == [65, LF];
    LastLine([66]);
    assert Lines([66]) == [66] + Lines([]);
    assert Received([66], true) == [];
    assert Received(s, true) == [65, LF] + [];
    assert Lines(s) == [65, LF] + [66];
  }

  // ----- there and back -----

  /** A CR LF that is not split between two chunks. */
  ghost predicate HasInnerCrLf(t: seq<byte>) {
    exists i :: 0 <= i < |t| - 1 && t[i] == CR && t[i + 1] == LF && (i + 1) % BUFFER_SIZE != 0
  }

  lemma InnerOfChunks(t: seq<byte>)
    requires |t| > BUFFER_SIZE
    ensures HasInnerCrLf(t) <==> HasCrLf(t[..BUFFER_SIZE]) || HasInnerCrLf(t[BUFFER_SIZE..])
  {
    var c, rest := t[..BUFFER_SIZE], t[BUFFER_SIZE..];
    if i :| 0 <= i < |t| - 1 && t[i] == CR && t[i + 1] == LF && (i + 1) % BUFFER_SIZE != 0 {
      if i + 1 < BUFFER_SIZE {
        assert c[i] == CR && c[i + 1] == LF;
      } else {
        var j := i - BUFFER_SIZE;
        assert rest[j] == CR && rest[j + 1] == LF && (j + 1) % BUFFER_SIZE != 0;
      }
    }
    if i :| 0 <= i < |c| - 1 && c[i] == CR && c[i + 1] == LF {
      assert t[i] == CR && t[i + 1] == LF && (i + 1) % BUFFER_SIZE != 0;
    }
    if j :| 0 <= j < |rest| - 1 && rest[j] == CR && rest[j + 1] == LF && (j + 1) % BUFFER_SIZE != 0 {
      var i := j + BUFFER_SIZE;
      assert t[i] == CR && t[i + 1] == LF && (i + 1) % BUFFER_SIZE != 0;
    }
  }

  lemma InnerOfOne(t: seq<byte>)
    requires |t| <= BUFFER_SIZE
    ensures HasInnerCrLf(t) <==> HasCrLf(t)
  {
    if i :| 0 <= i < |t| - 1 && t[i] == CR && t[i + 1] == LF {
      assert (i + 1) % BUFFER_SIZE != 0;
    }
  }

  lemma {:induction false} ChunkedIsDoubled(t: seq<byte>)
    requires !HasInnerCrLf(t)
    ensures Chunked(t) == Doubled(t)
    decreases |t|
  {
    hide HasInnerCrLf, HasCrLf, ToCrLf, Doubled;
    if |t| <= BUFFER_SIZE {
      InnerOfOne(t);
      ToCrLfIsDoubled(t);
    } else {
      InnerOfChunks(t);
      ToCrLfIsDoubled(t[..BUFFER_SIZE]);
      ChunkedIsDoubled(t[BUFFER_SIZE..]);
      DoubledCat(t[..BUFFER_SIZE], t[BUFFER_SIZE..]);
      assert t == t[..BUFFER_SIZE] + t[BUFFER_SIZE..];
    }
  }

  lemma NoBareLfCat(a: seq<byte>, b: seq<byte>)
    requires NoBareLf(a) && NoBareLf(b)
    ensures NoBareLf(a + b)
  {}

  lemma {:induction false} ChunkedCounts(t: seq<byte>)
    ensures Lfs(Chunked(t)) == Lfs(t) && NoBareLf(Chunked(t))
    ensures |Chunked(t)| <= |t| + Lfs(t)
    ensures HasInnerCrLf(t) ==> |Chunked(t)| < |t| + Lfs(t)
    decreases |t|
  {
    hide HasInnerCrLf, HasCrLf, ToCrLf, Lfs, CrLfs, NoBareLf;
    if |t| <= BUFFER_SIZE {
      InnerOfOne(t);
      ConversionCounts(t);
      NoCrLfCounted(t);
    } else {
      var c, rest := t[..BUFFER_SIZE], t[BUFFER_SIZE..];
      InnerOfChunks(t);
      ConversionCounts(c);
      NoCrLfCounted(c);
      ChunkedCounts(rest);
      NoBareLfCat(ToCrLf(c), Chunked(rest));
      LfsCat(ToCrLf(c), Chunked(rest));
      LfsCat(c, rest);
      assert t == c + rest;
    }
  }

  /** A file that is uploaded and downloaded again comes back exactly when chunks split every CR LF it contains. */
  lemma FileRoundTrip(t: seq<byte>)
    ensures Received(Chunked(t), false) == t <==> !HasInnerCrLf(t)
  {
    ReceivedIsLines(Chunked(t));
    if HasInnerCrLf(t) {
      ChunkedCounts(t);
      LinesCount(Chunked(t));
    } else {
      ChunkedIsDoubled(t);
      DoubledComesBack(t);
    }
  }

  /**
   * The whole way: a file is uploaded, and what was sent is downloaded again in whatever pieces the network makes of
   * it. The result does not depend on the pieces.
   */
  method ThereAndBack(file: seq<byte>, pieces: seq<seq<byte>>) returns (copy: seq<byte>)
    requires Flat(pieces) == Chunked(file) && LinesFit(Chunked(file), BUFFER_SIZE) && forall p :: p in pieces ==> p != []
    ensures copy == Lines(Chunked(file)) && (copy == file <==> !HasInnerCrLf(file))
  {
    hide Chunked, Flat, LinesFit, Received, Lines, HasInnerCrLf;
    ChunkedSize(file);
    var sender := new Socket([], false, 3 * |file|);
    var up := new NetBuf(sender);
    var rv := Upload(file, up);
    assert rv == 1 && up.socket.sent == Flat(pieces);
    var receiver := new Socket(pieces, false, 0);
    var down := new NetBuf(receiver);
    var inside;
    copy, rv, inside := Download(down);
    FileRoundTrip(file);
    ReceivedIsLines(Chunked(file));
  }

  lemma ChunkedSize(t: seq<byte>)
    ensures |Chunked(t)| <= 3 * |t|
  {
    ChunkedCounts(t);
    LfsAtMost(t);
  }

  lemma LfsAtMost(t: seq<byte>)
    ensures Lfs(t) <= |t|
  {}

  /** The lines of such a file can be read, when each leaves room for its CR. */
  lemma FileFits(t: seq<byte>)
    requires !HasInnerCrLf(t) && TextFits(t, BUFFER_SIZE)
    ensures LinesFit(Chunked(t), BUFFER_SIZE)
  {
    ChunkedIsDoubled(t);
    DoubledFits(t, BUFFER_SIZE);
  }

  /** A chunk ends between CR and LF. */
  ghost predicate HasSplitCrLf(t: seq<byte>) {
    exists k :: 0 < k < |t| && t[k - 1] == CR && t[k] == LF && k % BUFFER_SIZE == 0
  }

  lemma SplitOfChunks(c: seq<byte>, rest: seq<byte>)
    requires |c| == BUFFER_SIZE && rest != []
    ensures HasSplitCrLf(c + rest) <==> (c[|c| - 1] == CR && rest[0] == LF) || HasSplitCrLf(rest)
  {
    var t := c + rest;
    if k :| 0 < k < |t| && t[k - 1] == CR && t[k] == LF && k % BUFFER_SIZE == 0 {
      var j := k - BUFFER_SIZE;
      assert j % BUFFER_SIZE == 0 && j >= 0;
      assert rest[j] == LF;
      if j > 0 { assert rest[j - 1] == CR && 0 < j < |rest|; } else { assert t[BUFFER_SIZE - 1] == c[|c| - 1]; }
    }
    if c[|c| - 1] == CR && rest[0] == LF {
      assert t[BUFFER_SIZE - 1] == CR && t[BUFFER_SIZE] == LF;
    }
    if j :| 0 < j < |rest| && rest[j - 1] == CR && rest[j] == LF && j % BUFFER_SIZE == 0 {
      var k := j + BUFFER_SIZE;
      assert t[k - 1] == CR && t[k] == LF && k % BUFFER_SIZE == 0;
    }
  }

  /** An upload sends the file as one text would be sent exactly when no chunk ends between CR and LF. */
  lemma {:induction false} ChunkedIsWhole(t: seq<byte>)
    ensures |Chunked(t)| >= |ToCrLf(t)|
    ensures Chunked(t) == ToCrLf(t) <==> !HasSplitCrLf(t)
    decreases |t|
  {
    hide ToCrLf;
    if |t| > BUFFER_SIZE {
      hide HasSplitCrLf;
      var c, rest := t[..BUFFER_SIZE], t[BUFFER_SIZE..];
      assert t == c + rest;
      ChunkedIsWhole(rest);
      PiecewiseConversion(c, rest);
      SplitOfChunks(c, rest);
      var n := |ToCrLf(c)|;
      assert Chunked(t)[n..] == Chunked(rest) && (ToCrLf(c) + ToCrLf(rest))[n..] == ToCrLf(rest);
    }
  }
}
