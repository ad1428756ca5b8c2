/** The control connection: replies read from the byte stream, and the dialogue carried out on it. */
module FtpControl {
  import opened Words
  import opened FtpText
  import opened NetBuf
  import opened FtpReply
  import opened FtpDialogue

  /** Pieces in which the network delivers these replies. */
  ghost predicate Carries(pieces: seq<seq<byte>>, rs: seq<Reply>) {
    Flat(pieces) == EncodeAll(rs) && forall p :: p in pieces ==> p != []
  }

  ghost predicate Readable(rs: seq<Reply>) {
    forall r :: r in rs ==> r.Valid() && r.Unambiguous()
  }

  lemma {:induction false} EncodeCat(a: seq<Reply>, b: seq<Reply>)
    ensures EncodeAll(a + b) == EncodeAll(a) + EncodeAll(b)
    decreases |a|
  {
    if a == [] {
      assert a + b == b;
    } else {
      assert (a + b)[1..] == a[1..] + b;
      EncodeCat(a[1..], b);
    }
  }

  /** What the response buffer holds as a C string. */
  ghost predicate Holds(buffer: array<byte>, text: seq<byte>)
    reads buffer
  {
    |text| < buffer.Length && buffer[..|text|] == text && buffer[|text|] == 0
  }

  class Control {
    const net: NetBuf
    const response: array<byte>
    /** A reply was waited for that nobody sent. */
    ghost var starved: bool

    ghost predicate Valid()
      reads this, net, net.socket
    {
      net.Valid() && response.Length == RESPONSE_SIZE && response != net.buf
    }

    constructor (net: NetBuf)
      requires net.Valid()
      ensures Valid() && this.net == net && !starved && fresh(response)
    {
      this.net, response, starved := net, new byte[RESPONSE_SIZE](_ => 0), false;
    }

    /** readResponse: one reply, its last line left in the response buffer; whether it starts with c. */
    method ReadResponse(c: byte) returns (ok: bool)
      requires Valid() && ReplyFits(net.Pending())
      modifies `starved, response, net, net.buf, net.socket`incoming
      ensures Valid()
      ensures match ReadReply(old(net.Pending()), net.socket.broken)
        case Got(line, rest) =>
          Holds(response, line) && net.Pending() == rest && ok == (response[0] == c) && starved == old(starved)
        case Lost => !ok && starved && net.Pending() == []
    {
      hide LineEnd, Line, Flat, NetBuf.Valid, NetBuf.Pending, ReadUntil, UntilFits, LineFits;
      ghost var s := net.Pending();
      FitsFirst(s);
      var n, _ := net.ReadLine(response, RESPONSE_SIZE);
      if n < 0 {
        starved := true;
        return false;
      }
      ghost var line := Line(s);
      assert response[..3] == line[..3] && (response[3] == DASH <==> IsMulti(line));
      ok := true;
      if response[3] == DASH {
        var mark := response[..3] + [SP];
        ok := ReadRest(mark);
      }
      ok := ok && response[0] == c;
    }

    /** The loop of readResponse: lines until one starts with the mark. */
    method ReadRest(mark: seq<byte>) returns (found: bool)
      requires Valid() && UntilFits(net.Pending(), mark) && |mark| == 4 && 0 !in mark
      modifies `starved, response, net, net.buf, net.socket`incoming
      ensures Valid()
      ensures match ReadUntil(old(net.Pending()), mark, net.socket.broken)
        case Got(line, rest) => found && Holds(response, line) && net.Pending() == rest && starved == old(starved)
        case Lost => !found && starved && net.Pending() == []
    {
      hide LineEnd, Line, Flat, NetBuf.Valid, NetBuf.Pending, LineFits;
      ghost var target := ReadUntil(net.Pending(), mark, net.socket.broken);
      found := false;
      while !found
        invariant Valid() && starved == old(starved)
        invariant if found then target.Got? && Holds(response, target.line) && net.Pending() == target.rest
                  else UntilFits(net.Pending(), mark) && target == ReadUntil(net.Pending(), mark, net.socket.broken)
        decreases |net.Pending()|, !found
      {
        ghost var s := net.Pending();
        FitsUntil(s, mark);
        var n, _ := net.ReadLine(response, RESPONSE_SIZE);
        if n == -1 {
          starved := true;
          return false;
        }
        StartsWith(response, Line(s), mark);
        found := response[..4] == mark;
      }
    }

    /** The connection is where the dialogue says: the same replies to come, the same response, the same commands sent. */
    ghost predicate Tracks(t: Talk)
      reads this, net, net.buf, net.socket, response
    {
      && Valid() && starved == t.starved && net.socket.sent == t.said && Readable(t.pending)
      && net.Pending() == (if starved then [] else EncodeAll(t.pending))
      && (!starved ==> Holds(response, t.response))
    }

    /** readResponse reads the next reply of the dialogue. */
    method HearReply(c: byte, ghost t: Talk) returns (ok: bool)
      requires Tracks(t)
      modifies `starved, response, net, net.buf, net.socket`incoming
      ensures Tracks(Hear(t)) && ok == Hear(t).Says(c)
    {
      hide EncodeAll, ReadReply, ReplyFits, NetBuf.Valid, NetBuf.Pending;
      NextReply(t.pending, net.socket.broken);
      assert !starved && t.pending != [] ==> t.pending[0].Last() + [LF] != [];
      ok := ReadResponse(c);
    }

    /** sendCommand: a command that fits, and the reply to it; what the server answers arrives in any pieces. */
    method SendCommand(cmd: seq<byte>, c: byte, answer: seq<seq<byte>>, ghost t: Talk, ghost rs: seq<Reply>)
      returns (ok: bool)
      requires Tracks(t) && !t.starved && Carries(answer, rs) && Readable(rs) && net.socket.room >= TEMP_SIZE
      modifies `starved, response, net, net.buf, net.socket
      ensures Tracks(Ask(t, cmd, rs)) && ok == (Sendable(cmd) && Ask(t, cmd, rs).Says(c))
      ensures net.socket.room + TEMP_SIZE >= old(net.socket.room)
    {
      hide EncodeAll, Hear, Flat;
      if |cmd| + 3 > TEMP_SIZE { return false; }
      var _ := net.socket.Send(Terminated(cmd));
      ghost var s := net.Pending();
      net.socket.Arrive(answer);
      EncodeCat(t.pending, rs);
      assert net.Pending() == s + Flat(answer);
      ok := HearReply(c, t.(pending := t.pending + rs, said := t.said + Terminated(cmd)));
    }

    /** loginFtpClient: the user's name, and the password if it is asked for. */
    method Login(user: seq<byte>, pass: seq<byte>, named: Reply, admitted: Reply,
                 answers: seq<seq<seq<byte>>>, ghost t: Talk) returns (ok: bool)
      requires Tracks(t) && !t.starved && Readable([named]) && Readable([admitted]) && net.socket.room >= 2 * TEMP_SIZE
      requires |answers| == 2 && Carries(answers[0], [named]) && Carries(answers[1], [admitted])
      modifies `starved, response, net, net.buf, net.socket
      ensures var op := Op.Login(user, pass, named, admitted);
        Tracks(Do(t, op)) && (t.InStep() ==> ok == LoggedIn(op))
    {
      hide Readable, Carries, NetBuf.Valid, NetBuf.Pending;
      if |user| + 7 > LOGIN_SIZE || |pass| + 7 > LOGIN_SIZE { return false; }
      ghost var t1 := Ask(t, USER + user, [named]);
      if t.InStep() {
        ReadableIsValid(named);
        AskInStep(t, USER + user, named);
      }
      var asked := SendCommand(USER + user, THREE, answers[0], t, [named]);
      if !asked {
        return response[0] == TWO;
      }
      if t.InStep() {
        ReadableIsValid(admitted);
        AskInStep(t1, PASS + pass, admitted);
      }
      ok := SendCommand(PASS + pass, TWO, answers[1], t1, [admitted]);
    }

    /** openPort in passive mode, up to the connection, which `connects` says is made or not. */
    method OpenPort(passive: Reply, connects: bool, answer: seq<seq<byte>>, ghost t: Talk) returns (ok: bool)
      requires Tracks(t) && !t.starved && Carries(answer, [passive]) && Readable([passive]) && net.socket.room >= TEMP_SIZE
      modifies `starved, response, net, net.buf, net.socket
      ensures Tracks(Open(t, passive)) && ok == Opened(Open(t, passive), connects)
      ensures net.socket.room + TEMP_SIZE >= old(net.socket.room)
    {
      hide NetBuf.Valid, NetBuf.Pending, Carries, Hear;
      ok := SendCommand(PASV, TWO, answer, t, [passive]);
      if !ok { return; }
      HeardIsText(t.(pending := t.pending + [passive], said := t.said + Terminated(PASV)));
      ok := Contains(response, PAREN, Open(t, passive).response);
      ok := ok && connects;
    }

    /** strchr: whether the character is in the text. */
    static method Contains(buffer: array<byte>, c: byte, ghost text: seq<byte>) returns (found: bool)
      requires Holds(buffer, text) && 0 !in text && c != 0
      ensures found == (c in text)
    {
      var i := 0;
      while buffer[i] != 0 && buffer[i] != c
        invariant i <= |text| && c !in text[..i]
        decreases |text| - i
      {
        assert buffer[i] == text[i];
        i := i + 1;
      }
      if i < |text| { assert buffer[..|text|][i] == text[i]; }
      return buffer[i] == c;
    }

    /** closeFtpClient, as far as the control connection is concerned. */
    method CloseData(ghost t: Talk)
      requires Tracks(t)
      modifies `starved, response, net, net.buf, net.socket`incoming
      ensures Tracks(Close(t))
    {
      if response[0] != FOUR && response[0] != FIVE {
        var _ := HearReply(TWO, t);
      }
    }

    /** accessFtpClient: type, passive mode and transfer command, and closing again when the command is refused. */
    method OpenData(op: Op, answers: seq<seq<seq<byte>>>, ghost t: Talk) returns (ok: bool)
      requires op.Transfer? && Answers(answers, op.server) && Tracks(t) && !t.starved && net.socket.room >= 3 * TEMP_SIZE
      modifies `starved, response, net, net.buf, net.socket
      ensures Tracks(Access(t, op).0) && ok == Access(t, op).1
    {
      hide Readable, Carries, Tracks, Ask, Open, Server.Transferred, Close, Bytes;
      if op.path.NoPath? && (op.what == Stor || op.what == Retr) {
        Respond(Bytes(MISSING), t);
        return false;
      }
      var cmd := if op.image then TYPE_I else TYPE_A;
      ok := SendCommand(cmd, TWO, answers[0], t, [op.server.kind]);
      ghost var t1 := Ask(t, cmd, [op.server.kind]);
      if !ok { return; }
      cmd := Verb(op.what);
      if op.path.Path? {
        if |op.path.name| + |cmd| + 2 >= TEMP_SIZE { return false; }
        cmd := cmd + [SP] + op.path.name;
      }
      ok := OpenPort(op.server.passive, op.connects, answers[1], t1);
      ghost var t2 := Open(t1, op.server.passive);
      if !ok { return; }
      ok := SendCommand(cmd, ONE, answers[2], t2, op.server.Transferred());
      if !ok {
        CloseData(Ask(t2, cmd, op.server.Transferred()));
      }
    }

    /** A message of the client's own in the response buffer. */
    method Respond(text: seq<byte>, ghost t: Talk)
      requires Tracks(t) && |text| < RESPONSE_SIZE
      modifies response
      ensures Tracks(t.(response := text))
    {
      Socket.Fill(response, 0, text);
      response[|text|] := 0;
    }

    /** A transfer, as far as the control connection is concerned; the data flows between opening and closing. */
    method TransferFile(op: Op, answers: seq<seq<seq<byte>>>, ghost t: Talk) returns (ok: bool)
      requires op.Transfer? && Answers(answers, op.server) && OpValid(op)
      requires Tracks(t) && t.InStep() && net.socket.room >= 3 * TEMP_SIZE
      modifies `starved, response, net, net.buf, net.socket
      ensures Tracks(Do(t, op))
      ensures !starved && net.Pending() == [] <==> Clean(op)
    {
      hide Access, Close, Clean, Readable, Answers;
      ok := OpenData(op, answers, t);
      if ok { CloseData(Access(t, op).0); }
      TransferInStep(t, op);
      NothingEncoded(Do(t, op).pending);
    }
  }

  /** The server's answers to the commands of a transfer, in any pieces. */
  ghost predicate Answers(answers: seq<seq<seq<byte>>>, s: Server) {
    && |answers| == 3 && Readable([s.kind]) && Readable([s.passive]) && Readable(s.Transferred())
    && Carries(answers[0], [s.kind]) && Carries(answers[1], [s.passive]) && Carries(answers[2], s.Transferred())
  }

  lemma HeardIsText(t: Talk)
    requires Readable(t.pending) && !Hear(t).starved
    ensures 0 !in Hear(t).response
  {
    assert t.pending[0] in t.pending;
  }

  lemma ReadableIsValid(r: Reply)
    requires Readable([r])
    ensures r.Valid()
  {
    assert r in [r];
  }

  lemma NothingEncoded(rs: seq<Reply>)
    ensures EncodeAll(rs) == [] <==> rs == []
  {}

  lemma NextReply(rs: seq<Reply>, broken: bool)
    requires Readable(rs)
    ensures ReplyFits(EncodeAll(rs)) && ReplyFits([]) && ReadReply([], broken) == Lost
    ensures rs == [] ==> EncodeAll(rs) == []
    ensures rs != [] ==> ReadReply(EncodeAll(rs), broken) == Got(rs[0].Last() + [LF], EncodeAll(rs[1..]))
  {
    hide Encode, ReadReply;
    if rs != [] { OneReplyIsRead(rs[0], EncodeAll(rs[1..]), broken); }
    EmptyIsLost(broken);
  }

  lemma EmptyIsLost(broken: bool)
    ensures ReadReply([], broken) == Lost && ReplyFits([])
  {}

  lemma FitsFirst(s: seq<byte>)
    requires ReplyFits(s)
    ensures LineFits(s, RESPONSE_SIZE) && (s != [] ==> |Line(s)| >= 3)
  {}

  lemma FitsUntil(s: seq<byte>, mark: seq<byte>)
    requires UntilFits(s, mark)
    ensures LineFits(s, RESPONSE_SIZE) && (s != [] ==> LineEnd(s) > 0)
  {}

  /** Comparing the first four characters of a C string. */
  lemma StartsWith(buffer: array<byte>, text: seq<byte>, mark: seq<byte>)
    requires Holds(buffer, text) && |mark| == 4 && 0 !in mark && buffer.Length >= 4
    ensures buffer[..4] == mark <==> mark <= text
  {
    if |text| < 4 { assert buffer[..4][|text|] == 0; }
    if |text| >= 4 { assert buffer[..4] == text[..4]; }
  }
}
