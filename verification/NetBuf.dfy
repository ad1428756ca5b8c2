/** The buffered connection of the FTP client: reading and writing lines over a socket that splits data at will. */
module NetBuf {
  import opened Words
  import opened FtpText

  const BUFFER_SIZE: nat := 2048

  /** What the network still delivers, piece by piece. */
  function Flat(pieces: seq<seq<byte>>): seq<byte> {
    if pieces == [] then [] else pieces[0] + Flat(pieces[1..])
  }

  lemma {:induction false} FlatCat(a: seq<seq<byte>>, b: seq<seq<byte>>)
    ensures Flat(a + b) == Flat(a) + Flat(b)
    decreases |a|
  {
    if a == [] {
      assert a + b == b;
    } else {
      assert (a + b)[1..] == a[1..] + b;
      FlatCat(a[1..], b);
    }
  }

  lemma SplitPiece(p: seq<byte>, x: nat, more: seq<seq<byte>>)
    requires x <= |p|
    ensures Flat([p] + more) == p[..x] + Flat(if x == |p| then more else [p[x..]] + more)
  {
    assert ([p] + more)[1..] == more && ([p[x..]] + more)[1..] == more;
    assert p == p[..x] + p[x..];
    assert p + Flat(more) == p[..x] + (p[x..] + Flat(more));
    if x == |p| { assert p[..x] == p; }
  }

  class Socket {
    /** The pieces recv will see; after them the peer has closed, or the connection is broken. */
    var incoming: seq<seq<byte>>
    const broken: bool
    /** What has been sent, and how many bytes the connection still takes. */
    var sent: seq<byte>
    var room: nat

    ghost predicate Valid()
      reads this
    {
      forall p :: p in incoming ==> p != []
    }

    constructor (incoming: seq<seq<byte>>, broken: bool, room: nat)
      requires forall p :: p in incoming ==> p != []
      ensures Valid() && this.incoming == incoming && this.broken == broken && this.room == room && sent == []
    {
      this.incoming, this.broken, this.room, sent := incoming, broken, room, [];
    }

    /** recv: at most `len` bytes of the next piece; 0 at the end, -1 when broken. */
    method Recv(buf: array<byte>, at: nat, len: nat) returns (x: int)
      requires Valid() && at + len <= buf.Length && len > 0
      modifies `incoming, buf
      ensures Valid() && (x <= 0 <==> old(incoming) == []) && x <= len
      ensures x <= 0 ==> x == (if broken then -1 else 0) && incoming == [] && buf[..] == old(buf[..])
      ensures x > 0 ==> old(Flat(incoming)) == buf[at..at + x] + Flat(incoming)
      ensures x > 0 ==> |Flat(incoming)| < |old(Flat(incoming))|
      ensures buf[..at] == old(buf[..at])
    {
      if incoming == [] {
        x := if broken then -1 else 0;
      } else {
        var p, more := incoming[0], incoming[1..];
        assert p in incoming;
        x := if |p| < len then |p| else len;
        SplitPiece(p, x, more);
        assert forall r :: r in more ==> r in incoming;
        assert x < |p| ==> p[x..] != [];
        incoming := if x == |p| then more else [p[x..]] + more;
        Fill(buf, at, p[..x]);
      }
    }

    static method Fill(buf: array<byte>, at: nat, bytes: seq<byte>)
      requires at + |bytes| <= buf.Length
      modifies buf
      ensures buf[..at] == old(buf[..at]) && buf[at..at + |bytes|] == bytes
    {
      for k := 0 to |bytes|
        invariant buf[..at] == old(buf[..at]) && buf[at..at + k] == bytes[..k]
      {
        buf[at + k] := bytes[k];
      }
    }

    /** What the network will deliver later. */
    method Arrive(pieces: seq<seq<byte>>)
      requires Valid() && forall p :: p in pieces ==> p != []
      modifies `incoming
      ensures Valid() && Flat(incoming) == old(Flat(incoming)) + Flat(pieces)
    {
      FlatCat(incoming, pieces);
      incoming := incoming + pieces;
    }

    /** send: as many bytes as the connection takes. */
    method Send(bytes: seq<byte>) returns (w: nat)
      modifies `sent, `room
      ensures w == (if |bytes| < old(room) then |bytes| else old(room)) && room == old(room) - w
      ensures sent == old(sent) + bytes[..w]
    {
      w := if |bytes| < room then |bytes| else room;
      sent, room := sent + bytes[..w], room - w;
    }
  }

  lemma Regroup(s: seq<byte>, k: nat, a: seq<byte>, b: seq<byte>)
    requires k <= |s| && a + b == s[k..]
    ensures k + |a| <= |s| && b == s[k + |a|..] && s[..k + |a|] == s[..k] + a
  {
    assert s == s[..k] + (a + b);
  }

  ghost predicate NoLf(s: seq<byte>) {
    forall i :: 0 <= i < |s| ==> s[i] != LF
  }

  lemma NoLfCat(a: seq<byte>, b: seq<byte>)
    ensures NoLf(a + b) <==> NoLf(a) && NoLf(b)
  {
    if NoLf(a + b) {
      assert forall i :: 0 <= i < |a| ==> a[i] == (a + b)[i];
      assert forall i :: 0 <= i < |b| ==> b[i] == (a + b)[|a| + i];
    }
  }

  lemma NoLfMore(a: seq<byte>, n: nat)
    requires n < |a| && NoLf(a[..n]) && a[n] != LF
    ensures NoLf(a[..n + 1])
  {}

  lemma Front(a: seq<byte>, b: seq<byte>, n: nat)
    requires n <= |a|
    ensures (a + b)[..n] == a[..n]
  {}

  lemma NothingTaken(s: seq<byte>)
    ensures NoLf(s[..0]) && s[0..] == s
  {}

  /** Bytes taken after k bytes of a line, the last one an LF: they end the line. */
  lemma TakeEnd(s: seq<byte>, k: nat, a: seq<byte>, b: seq<byte>)
    requires k <= |s| && a + b == s[k..] && NoLf(s[..k])
    requires a != [] && a[|a| - 1] == LF && NoLf(a[..|a| - 1])
    ensures k + |a| <= |s| && b == s[k + |a|..] && s[..k + |a|] == s[..k] + a
    ensures LineEnd(s) == k + |a| && s[k + |a| - 1] == LF
  {
    hide NoLf, LineEnd;
    Regroup(s, k, a, b);
    ThreeParts(s, k, a, b);
    NoLfCat(s[..k], a[..|a| - 1]);
    LineEndAfter(s[..k] + a[..|a| - 1], b);
    assert s[k + |a| - 1] == (s[..k] + a)[k + |a| - 1] == LF;
  }

  lemma ThreeParts(s: seq<byte>, k: nat, a: seq<byte>, b: seq<byte>)
    requires k <= |s| && a + b == s[k..] && a != [] && a[|a| - 1] == LF
    ensures s == s[..k] + a[..|a| - 1] + [LF] + b
  {
    var p := a[..|a| - 1];
    assert a == p + [LF];
    assert s == s[..k] + s[k..];
    assert s[..k] + (p + [LF] + b) == s[..k] + p + [LF] + b;
  }

  lemma LineEndAfter(q: seq<byte>, b: seq<byte>)
    requires NoLf(q)
    ensures LineEnd(q + [LF] + b) == |q| + 1
  {
    assert LF !in q;
    LineEndIs(q, b);
  }

  /** Bytes taken after k bytes of a line, without an LF: the line goes on. */
  lemma TakeMiddle(s: seq<byte>, k: nat, a: seq<byte>, b: seq<byte>)
    requires k <= |s| && a + b == s[k..] && NoLf(s[..k]) && NoLf(a)
    ensures k + |a| <= |s| && b == s[k + |a|..] && s[..k + |a|] == s[..k] + a && NoLf(s[..k + |a|])
  {
    hide NoLf, LineEnd;
    Regroup(s, k, a, b);
    NoLfCat(s[..k], a);
  }

  /** At the end of the stream what has been taken is all of an unterminated last line. */
  lemma Unterminated(s: seq<byte>, k: nat, max: nat)
    requires k <= |s| && NoLf(s[..k])
    ensures k == |s| && s != [] ==> LineEnd(s) == |s| && s[LineEnd(s) - 1] != LF && Line(s) == s
    ensures k == |s| && k + 2 <= max ==> LineFits(s, max)
  {
    if k == |s| && s != [] {
      assert s[..k] == s;
      assert s[LineEnd(s) - 1] != LF;
    }
  }

  /** A line that is still going on when there is no room left but for the terminator does not fit. */
  lemma TooLong(s: seq<byte>, k: nat, max: nat)
    requires k <= |s| && NoLf(s[..k]) && k + 1 >= max && max >= 2
    ensures !LineFits(s, max) && LineEnd(s) >= k
  {
    var n := LineEnd(s);
    if n <= k {
      assert s[..k][n - 1] != LF;
    }
  }

  lemma CutPiece(s: seq<byte>, n: nat, piece: seq<byte>)
    requires 0 < n <= |s| && piece == s[..n]
    ensures piece[0 := 0] == [0] + s[1..n]
  {}

  lemma TerminatedFits(s: seq<byte>, max: nat)
    requires s != [] && s[LineEnd(s) - 1] == LF
    ensures LineFits(s, max) <==> 2 <= LineEnd(s) < max
  {}

  lemma Nothing()
    ensures ToCrLf([]) == []
  {}

  lemma OneMore(text: seq<byte>, x: nat)
    requires x < |text|
    ensures ToCrLf(text[..x + 1])
         == ToCrLf(text[..x]) + (if text[x] == LF && (x == 0 || text[x - 1] != CR) then [CR, LF] else [text[x]])
  {
    assert text[..x + 1][..x] == text[..x];
  }

  lemma {:induction false} PrefixConverted(text: seq<byte>, x: nat)
    requires x <= |text|
    ensures ToCrLf(text[..x]) <= ToCrLf(text)
    decreases |text| - x
  {
    if x < |text| {
      OneMore(text, x);
      PrefixConverted(text, x + 1);
    } else {
      assert text[..x] == text;
    }
  }

  /** How a line was read: as it should be, or past the end of the buffer, before its start, or cut and spoilt. */
  datatype Outcome = Fine | Overrun | Underrun | Cut

  class NetBuf {
    const socket: Socket
    const buf: array<byte>
    var cput: nat
    var cget: nat
    var cavail: nat
    var cleft: nat

    ghost predicate Valid()
      reads this, socket
    {
      && socket.Valid() && buf.Length == BUFFER_SIZE
      && cput == cget + cavail && cput + cleft <= BUFFER_SIZE
    }

    /** Everything that will still be read: the buffered bytes, then what the network delivers. */
    ghost function Pending(): seq<byte>
      requires Valid()
      reads this, buf, socket
    {
      buf[cget..cput] + Flat(socket.incoming)
    }

    constructor (socket: Socket)
      requires socket.Valid()
      ensures Valid() && this.socket == socket && Pending() == Flat(socket.incoming) && fresh(buf)
    {
      this.socket, buf := socket, new byte[BUFFER_SIZE](_ => 0);
      cput, cget, cavail, cleft := 0, 0, 0, 0;
    }

    /** memccpy: copy up to x buffered bytes, stopping after an LF. */
    method Memccpy(buffer: array<byte>, bp: nat, x: nat) returns (n: nat, found: bool)
      requires Valid() && x <= cavail && bp + x <= buffer.Length && buffer != buf
      modifies buffer
      ensures Valid() && n <= x <= |Pending()| && Pending() == old(Pending())
      ensures buffer[..bp + n] == old(buffer[..bp]) + Pending()[..n]
      ensures if found then n > 0 && Pending()[n - 1] == LF && NoLf(Pending()[..n - 1]) else n == x && NoLf(Pending()[..n])
    {
      hide Flat, NoLf;
      ghost var head, a := buffer[..bp], buf[cget..cput];
      n, found := 0, false;
      NothingTaken(a);
      while n < x
        invariant n <= x && buffer[..bp] == head && buffer[bp..bp + n] == a[..n]
        invariant NoLf(a[..n]) && !found
      {
        buffer[bp + n] := buf[cget + n];
        assert buffer[bp + n] == a[n];
        n := n + 1;
        if buffer[bp + n - 1] == LF {
          found := true;
          break;
        }
        NoLfMore(a, n - 1);
      }
      Front(a, Flat(socket.incoming), n);
      if found { Front(a, Flat(socket.incoming), n - 1); }
      assert buffer[..bp + n] == buffer[..bp] + buffer[bp..bp + n];
    }

    /** The first n buffered bytes are done with. */
    method Consume(n: nat)
      requires Valid() && n <= cavail
      modifies `cget, `cavail
      ensures Valid() && cavail == old(cavail) - n && n <= |old(Pending())| && Pending() == old(Pending())[n..]
    {
      cget := cget + n;
      cavail := cavail - n;
    }

    /**
     * The part of readLine that takes buffered bytes: up to the end of the line, if it is there and there is room. The
     * terminator goes behind them, unless that is no longer inside the buffer.
     */
    method TakeBuffered(buffer: array<byte>, bp: nat, max: nat, ghost s: seq<byte>) returns (n: nat, found: bool)
      requires Valid() && cavail > 0 && bp + 2 <= max <= buffer.Length && buffer != buf
      requires bp <= |s| && Pending() == s[bp..] && buffer[..bp] == s[..bp] && NoLf(s[..bp])
      modifies `cget, `cavail, buffer
      ensures Valid() && bp + n <= |s| && bp + n <= max && Pending() == s[bp + n..]
      ensures buffer[..bp + n] == s[..bp + n] && (bp + n < max ==> buffer[bp + n] == 0)
      ensures if found then 0 < LineEnd(s) == bp + n && s[bp + n - 1] == LF
              else NoLf(s[..bp + n]) && (cavail == 0 || bp + n + 1 == max)
    {
      hide LineEnd, Line, NoLf, Flat, Pending;
      var left := max - bp;
      var x := if left >= cavail then cavail else left - 1;
      n, found := Memccpy(buffer, bp, x);
      ghost var a, b := Pending()[..n], Pending()[n..];
      if found {
        assert a[..n - 1] == Pending()[..n - 1];
        TakeEnd(s, bp, a, b);
      } else {
        TakeMiddle(s, bp, a, b);
      }
      if bp + n < max { buffer[bp + n] := 0; }
      Consume(n);
    }

    /** Room for more: an exhausted buffer is used from its start again. */
    method Rewind()
      requires Valid()
      modifies `cput, `cget, `cavail, `cleft
      ensures Valid() && Pending() == old(Pending()) && cavail == old(cavail)
      ensures cavail == 0 ==> cput == 0 && cleft == BUFFER_SIZE
    {
      if cput == cget {
        cput, cget, cavail, cleft := 0, 0, 0, BUFFER_SIZE;
      }
    }

    /** The recv step of readLine: false on error, x = 0 at the end of the stream. */
    method Refill() returns (x: int)
      requires Valid() && cavail == 0 && cput == 0 && cleft == BUFFER_SIZE
      modifies `cput, `cavail, `cleft, buf, socket`incoming
      ensures Valid() && Pending() == old(Pending())
      ensures x <= 0 <==> old(socket.incoming) == []
      ensures x <= 0 ==> x == (if socket.broken then -1 else 0) && socket.incoming == [] && cavail == 0 && Pending() == []
      ensures x > 0 ==> |Flat(socket.incoming)| < |old(Flat(socket.incoming))|
    {
      assert buf[cget..cput] == [];
      x := socket.Recv(buf, cput, cleft);
      if x > 0 {
        cleft := cleft - x;
        cavail := cavail + x;
        cput := cput + x;
      }
    }

    /** The part of readLine that goes on reading, unless the end of the stream has been seen. */
    method More(eof: bool) returns (x: int)
      requires Valid() && cavail == 0 && (eof ==> socket.incoming == [] && Pending() == [])
      modifies `cput, `cget, `cavail, `cleft, buf, socket`incoming
      ensures Valid() && Pending() == old(Pending())
      ensures x <= 0 ==> socket.incoming == [] && cavail == 0 && Pending() == []
      ensures x <= 0 && !eof ==> x == if socket.broken then -1 else 0
      ensures x > 0 ==> |Flat(socket.incoming)| < |old(Flat(socket.incoming))|
      ensures eof ==> x == 0
    {
      hide Pending, Flat;
      Rewind();
      if eof { return 0; }
      x := Refill();
    }

    /** CR LF at the end of the line in the buffer becomes LF; the new length. */
    static method Chomp(buffer: array<byte>, n: nat, ghost s: seq<byte>) returns (retval: nat)
      requires 2 <= n < buffer.Length && buffer[n] == 0 && LineEnd(s) == n && buffer[..n] == s[..n]
      modifies buffer
      ensures retval == |Line(s)| <= n && buffer[..retval] == Line(s) && buffer[retval] == 0
    {
      hide LineEnd;
      assert buffer[n - 2] == s[n - 2] && buffer[n - 1] == s[n - 1];
      retval := n;
      var bp := n - 2;
      if buffer[bp] == CR && buffer[bp + 1] == LF {
        buffer[bp] := LF;
        buffer[bp + 1] := 0;
        retval := retval - 1;
        assert s[..n][..n - 2] == s[..n - 2];
        assert buffer[..retval] == s[..n - 2] + [LF];
      }
    }

    /** The part of readLine that ends a line of n bytes: nothing can be behind the buffer or before it. */
    static method EndLine(buffer: array<byte>, n: nat, max: nat, ghost s: seq<byte>) returns (retval: nat, outcome: Outcome)
      requires 0 < n <= max <= buffer.Length && LineEnd(s) == n && s[n - 1] == LF && buffer[..n] == s[..n]
      requires n < max ==> buffer[n] == 0
      modifies buffer
      ensures (outcome == Fine <==> LineFits(s, max)) && outcome != Cut && retval <= max
      ensures outcome == Fine ==>
        retval == |Line(s)| < buffer.Length && buffer[..retval] == Line(s) && buffer[retval] == 0
      ensures outcome == Overrun ==> n == max
    {
      hide LineEnd, Line, LineFits;
      TerminatedFits(s, max);
      if n == max { return max, Overrun; }
      if n == 1 { return 1, Underrun; }
      retval := Chomp(buffer, n, s);
      outcome := Fine;
    }

    /** In the middle of readLine: bp bytes of the line have been taken, no LF among them, and there is room for more. */
    ghost predicate Reading(buffer: array<byte>, bp: nat, max: nat, eof: bool, s: seq<byte>)
      reads this, buf, socket, buffer
    {
      && Valid() && buffer != buf && bp <= |s| && bp + 2 <= max <= buffer.Length
      && Pending() == s[bp..] && buffer[..bp] == s[..bp] && NoLf(s[..bp]) && (bp > 0 ==> buffer[bp] == 0)
      && (eof ==> socket.incoming == [] && Pending() == [] && !socket.broken)
    }

    /** What readLine may return. */
    ghost predicate HasRead(buffer: array<byte>, max: nat, s: seq<byte>, retval: int, outcome: Outcome)
      reads this, buf, socket, buffer
    {
      && Valid() && 2 <= max <= buffer.Length && -1 <= retval <= max && (outcome == Fine <==> LineFits(s, max))
      && (outcome == Fine ==>
            var n := LineEnd(s);
            if s == [] || (s[n - 1] != LF && socket.broken) then retval == -1 && Pending() == []
            else
              && retval == |Line(s)| < buffer.Length && Pending() == s[n..]
              && buffer[..retval] == Line(s) && buffer[retval] == 0)
      && (outcome == Overrun || outcome == Cut ==> LineEnd(s) >= max - 1)
      && (outcome == Cut ==>
            retval == max - 1 <= |s| && buffer[..max - 1] == [0] + s[1..max - 1] && Pending() == s[max - 1..])
    }

    /** One round of readLine's loop. */
    method Round(buffer: array<byte>, bp: nat, max: nat, eof: bool, ghost s: seq<byte>)
      returns (done: bool, at: nat, end: bool, retval: int, outcome: Outcome)
      requires Reading(buffer, bp, max, eof, s)
      modifies `cput, `cget, `cavail, `cleft, buf, socket`incoming, buffer
      ensures if done then HasRead(buffer, max, s, retval, outcome) else Reading(buffer, at, max, end, s)
      ensures !done ==> (|Flat(socket.incoming)| < |old(Flat(socket.incoming))| && !end) || (end && !eof)
      ensures eof ==> done
    {
      hide LineFits, LineEnd, NoLf, Line, Flat, Pending, Valid;
      at, end, done, retval, outcome := bp, eof, true, -1, Fine;
      if cavail > 0 {
        var n, found := TakeBuffered(buffer, at, max, s);
        at := at + n;
        if found {
          retval, outcome := EndLine(buffer, at, max, s);
          return;
        }
        if at + 1 >= max { TooLong(s, at, max); }
        if at == max { return true, at, eof, max, Overrun; }
      }
      if max - at == 1 {
        CutPiece(s, max - 1, buffer[..max - 1]);
        buffer[0] := 0;
        return true, at, eof, at, Cut;
      }
      var x := More(eof);
      if x <= 0 { Unterminated(s, at, max); }
      if eof { return true, at, eof, if at == 0 then -1 else at, Fine; }
      if x < 0 { return; }
      done, end := false, x == 0;
    }

    /**
     * readLine: the next line of the stream, however the network split it, if and only if the line fits: with its LF at
     * least 2 and less than max bytes, an unterminated rest at most max - 2. Otherwise the code writes behind its buffer,
     * reads before it, or returns the first max - 1 bytes with a NUL in place of the first of them.
     */
    method ReadLine(buffer: array<byte>, max: nat) returns (retval: int, outcome: Outcome)
      requires Valid() && 2 <= max <= buffer.Length && buffer != buf
      modifies `cput, `cget, `cavail, `cleft, buf, socket`incoming, buffer
      ensures HasRead(buffer, max, old(Pending()), retval, outcome)
    {
      hide HasRead;
      ghost var s := Pending();
      NothingTaken(s);
      retval, outcome := -1, Fine;
      var bp, eof, done := 0, false, false;
      while !done
        invariant if done then HasRead(buffer, max, s, retval, outcome) else Reading(buffer, bp, max, eof, s)
        decreases !done, if eof then 0 else 1, |Flat(socket.incoming)|
      {
        done, bp, eof, retval, outcome := Round(buffer, bp, max, eof, s);
      }
    }

    /**
     * nb bytes of the buffer wait to be sent; with them, w has been written since the connection had sent `base` and
     * had room for `limit` more bytes.
     */
    ghost predicate Written(nb: nat, w: seq<byte>, base: seq<byte>, limit: nat)
      reads this, buf, socket
    {
      && buf.Length == BUFFER_SIZE && nb <= BUFFER_SIZE
      && socket.sent + buf[..nb] == base + w
      && |socket.sent| + socket.room == |base| + limit
    }

    /** The send step of writeLine: all nb bytes, or as many as there is room for. */
    method Flush(nb: nat, ghost w: seq<byte>, ghost base: seq<byte>, ghost limit: nat) returns (ok: bool)
      requires Written(nb, w, base, limit)
      modifies socket`sent, socket`room
      ensures if ok then Written(0, w, base, limit) else limit < |w| && socket.sent == base + w[..limit] && socket.room == 0
    {
      assert |socket.sent| + nb == |base| + |w|;
      var old_sent := socket.sent;
      var n := socket.Send(buf[..nb]);
      ok := n == nb;
      if ok {
        assert buf[..0] == [];
      } else {
        assert socket.sent == (old_sent + buf[..nb])[..|base| + limit];
      }
    }

    /** One byte into the buffer, after making room. */
    method Put(nb: nat, c: byte, ghost w: seq<byte>, ghost base: seq<byte>, ghost limit: nat) returns (ok: bool, n: nat)
      requires Written(nb, w, base, limit)
      modifies buf, socket`sent, socket`room
      ensures if ok then Written(n, w + [c], base, limit)
              else limit < |w| && socket.sent == base + w[..limit] && socket.room == 0
    {
      ok, n := true, nb;
      if n == BUFFER_SIZE {
        ok := Flush(n, w, base, limit);
        n := 0;
        if !ok { return; }
      }
      ghost var before := buf[..n];
      buf[n] := c;
      assert buf[..n + 1] == before + [c];
      n := n + 1;
      assert socket.sent + buf[..n] == (socket.sent + before) + [c];
    }

    /** One byte of the text, after a CR if it is an LF that needs one. */
    method PutConverted(nb: nat, text: seq<byte>, x: nat, lc: byte, ghost base: seq<byte>, ghost limit: nat)
      returns (ok: bool, n: nat)
      requires x < |text| && Written(nb, ToCrLf(text[..x]), base, limit)
      requires lc == if x == 0 then 0 else text[x - 1]
      modifies buf, socket`sent, socket`room
      ensures ok ==> Written(n, ToCrLf(text[..x + 1]), base, limit)
      ensures !ok ==> var w := ToCrLf(text); limit < |w| && socket.sent == base + w[..limit] && socket.room == 0
    {
      hide ToCrLf, Written;
      ghost var w := ToCrLf(text[..x]);
      ghost var next := ToCrLf(text[..x + 1]);
      OneMore(text, x);
      PrefixConverted(text, x + 1);
      ok, n := true, nb;
      ghost var part := w;
      if text[x] == LF && lc != CR {
        ok, n := Put(n, CR, w, base, limit);
        part := if ok then w + [CR] else w;
      }
      if ok {
        ok, n := Put(n, text[x], part, base, limit);
        assert w + [CR] + [LF] == w + [CR, LF];
      }
      if !ok { assert part <= next; }
    }

    /** writeLine: the text with its line ends converted, in batches of the buffer's size; -1 when it was cut short. */
    method WriteLine(text: seq<byte>) returns (retval: int)
      requires buf.Length == BUFFER_SIZE
      modifies buf, socket`sent, socket`room
      ensures var w := ToCrLf(text); var fits := |w| <= old(socket.room);
        && retval == (if fits then |text| else -1)
        && socket.sent == old(socket.sent) + (if fits then w else w[..old(socket.room)])
        && socket.room == old(socket.room) - (if fits then |w| else old(socket.room))
    {
      hide ToCrLf;
      ghost var base, limit := socket.sent, socket.room;
      var nb, lc, ok := 0, 0 as byte, true;
      Nothing();
      assert text[..0] == [];
      assert Written(0, [], base, limit);
      for x := 0 to |text|
        invariant Written(nb, ToCrLf(text[..x]), base, limit)
        invariant lc == if x == 0 then 0 else text[x - 1]
      {
        ok, nb := PutConverted(nb, text, x, lc, base, limit);
        if !ok { return -1; }
        lc := text[x];
      }
      assert text[..|text|] == text;
      if nb > 0 {
        ok := Flush(nb, ToCrLf(text), base, limit);
        if !ok { return -1; }
      }
      assert socket.sent == base + ToCrLf(text);
      return |text|;
    }
  }
}
