/** The control dialogue of the FTP client (section 5.4 of RFC 959, passive mode): which replies are read when. */
module FtpDialogue {
  import opened Words
  import opened FtpText
  import opened FtpReply

  const TEMP_SIZE: nat := 1024
  const LOGIN_SIZE: nat := 64

  const ONE: byte := 49
  const TWO: byte := 50
  const THREE: byte := 51
  const FOUR: byte := 52
  const FIVE: byte := 53
  const PAREN: byte := 40

  /**
   * Replies sent and not yet read, the response buffer, whether the client waits for a reply nobody will send, and the
   * commands it has sent.
   */
  datatype Talk = Talk(pending: seq<Reply>, response: seq<byte>, starved: bool, said: seq<byte>)
  {
    predicate InStep() {
      pending == [] && !starved
    }

    predicate Says(c: byte) {
      !starved && |response| > 0 && response[0] == c
    }
  }

  function Hear(t: Talk): Talk {
    if t.starved || t.pending == [] then t.(starved := true)
    else t.(pending := t.pending[1..], response := t.pending[0].Last() + [LF])
  }

  function Ask(t: Talk, cmd: seq<byte>, answer: seq<Reply>): Talk {
    if Sendable(cmd) then Hear(t.(pending := t.pending + answer, said := t.said + Terminated(cmd))) else t
  }

  predicate Sendable(cmd: seq<byte>) {
    |cmd| + 3 <= TEMP_SIZE
  }

  // ----- operations -----

  datatype Kind = Nlst | List | Retr | Stor | Mlsd

  datatype Path = NoPath | Path(name: seq<byte>)

  /** What a server answers to TYPE, PASV and the transfer command; markers and the final reply follow a 1yz answer. */
  datatype Server = Server(kind: Reply, passive: Reply, transfer: Reply, markers: seq<Reply>, final: Reply)
  {
    predicate Starts() {
      transfer.Last()[0] == ONE
    }

    function Transferred(): seq<Reply> {
      [transfer] + if Starts() then markers + [final] else []
    }
  }

  datatype Op =
    | Simple(cmd: seq<byte>, answer: Reply)
    | Login(user: seq<byte>, pass: seq<byte>, named: Reply, admitted: Reply)
    | Transfer(what: Kind, path: Path, image: bool, connects: bool, server: Server)

  function Verb(k: Kind): seq<byte> {
    match k
    case Nlst => [78, 76, 83, 84]
    case List => [76, 73, 83, 84]
    case Retr => [82, 69, 84, 82]
    case Stor => [83, 84, 79, 82]
    case Mlsd => [77, 76, 83, 68]
  }

  const TYPE_A: seq<byte> := [84, 89, 80, 69, 32, 65]
  const TYPE_I: seq<byte> := [84, 89, 80, 69, 32, 73]
  const PASV: seq<byte> := [80, 65, 83, 86]
  const USER: seq<byte> := [85, 83, 69, 82, 32]
  const PASS: seq<byte> := [80, 65, 83, 83, 32]

  const MISSING: string := "Missing path argument for file transfer\n"

  function Bytes(s: string): (b: seq<byte>)
    ensures |b| == |s|
  {
    seq(|s|, i requires 0 <= i < |s| => (s[i] as int % 256) as byte)
  }

  function TransferCommand(k: Kind, path: Path): seq<byte> {
    if path.NoPath? then Verb(k) else Verb(k) + [SP] + path.name
  }

  predicate PathMissing(k: Kind, path: Path) {
    path.NoPath? && (k.Stor? || k.Retr?)
  }

  predicate PathFits(path: Path) {
    path.Path? ==> |path.name| + 6 < TEMP_SIZE
  }

  /** closeFtpClient: a last reply is read unless the previous one was a refusal. */
  function Close(t: Talk): Talk {
    if t.Says(FOUR) || t.Says(FIVE) then t else Hear(t)
  }

  /** openPort in passive mode. */
  function Open(t: Talk, passive: Reply): Talk {
    Ask(t, PASV, [passive])
  }

  predicate Opened(t: Talk, connects: bool) {
    t.Says(TWO) && PAREN in t.response && connects
  }

  /** accessFtpClient: the talk up to the answer to the transfer command, the closing after a failure, and success. */
  function Access(t: Talk, op: Op): (Talk, bool)
    requires op.Transfer?
  {
    if PathMissing(op.what, op.path) then (t.(response := Bytes(MISSING)), false)
    else
      var t1 := Ask(t, if op.image then TYPE_I else TYPE_A, [op.server.kind]);
      if !t1.Says(TWO) || !PathFits(op.path) then (t1, false)
      else
        var t2 := Open(t1, op.server.passive);
        if !Opened(t2, op.connects) then (t2, false)
        else
          var cmd := TransferCommand(op.what, op.path);
          var t3 := Ask(t2, cmd, op.server.Transferred());
          if Sendable(cmd) && t3.Says(ONE) then (t3, true) else (Close(t3), false)
  }

  /** A whole operation: logging in, one command, or a transfer with the closing of its data connection. */
  function Do(t: Talk, op: Op): Talk {
    match op
    case Simple(cmd, answer) => Ask(t, cmd, [answer])
    case Login(user, pass, named, admitted) =>
      if |user| + 7 > LOGIN_SIZE || |pass| + 7 > LOGIN_SIZE then t
      else
        var t1 := Ask(t, USER + user, [named]);
        if t1.Says(THREE) then Ask(t1, PASS + pass, [admitted]) else t1
    case Transfer(_, _, _, _, _) =>
      var (t1, ok) := Access(t, op);
      if ok then Close(t1) else t1
  }

  /** Who gets in: a user who needs no password, or whose password is accepted. */
  predicate LoggedIn(op: Op)
    requires op.Login?
  {
    && |op.user| + 7 <= LOGIN_SIZE && |op.pass| + 7 <= LOGIN_SIZE
    && var c := op.named.Last()[0]; c == TWO || (c == THREE && op.admitted.Last()[0] == TWO)
  }

  function Run(t: Talk, ops: seq<Op>): Talk {
    if ops == [] then t else Do(Run(t, ops[..|ops| - 1]), ops[|ops| - 1])
  }

  // ----- staying in step -----

  /** The operation gets as far as its transfer command. */
  predicate Reaches(op: Op) {
    && op.Transfer? && !PathMissing(op.what, op.path) && PathFits(op.path) && op.connects
    && op.server.kind.Last()[0] == TWO && op.server.passive.Last()[0] == TWO && PAREN in op.server.passive.Last()
  }

  const LONGEST: nat := 1017

  /**
   * What a transfer needs of path and server: a name one byte too long for its command is noticed too late, and
   * exactly one reply must follow a preliminary one and none any other.
   */
  predicate Clean(op: Op) {
    Reaches(op) ==>
      && !(op.path.Path? && |op.path.name| == LONGEST)
      && var c := op.server.transfer.Last()[0]; c == FOUR || c == FIVE || (c == ONE && op.server.markers == [])
  }

  lemma AskInStep(t: Talk, cmd: seq<byte>, r: Reply)
    requires t.InStep() && Sendable(cmd) && r.Valid()
    ensures Ask(t, cmd, [r]) == Talk([], r.Last() + [LF], false, t.said + Terminated(cmd)) && Ask(t, cmd, [r]).InStep()
    ensures forall c: byte :: Ask(t, cmd, [r]).Says(c) <==> r.Last()[0] == c
  {
    assert t.pending + [r] == [r];
  }

  predicate OpValid(op: Op) {
    match op
    case Simple(_, answer) => answer.Valid()
    case Login(_, _, named, admitted) => named.Valid() && admitted.Valid()
    case Transfer(_, _, _, _, s) =>
      s.kind.Valid() && s.passive.Valid() && s.transfer.Valid() && s.final.Valid() && forall m :: m in s.markers ==> m.Valid()
  }

  lemma TransferInStep(t: Talk, op: Op)
    requires t.InStep() && op.Transfer? && OpValid(op)
    ensures Do(t, op).InStep() <==> Clean(op)
  {
    if !PathMissing(op.what, op.path) {
      var kind := if op.image then TYPE_I else TYPE_A;
      AskInStep(t, kind, op.server.kind);
      var t1 := Ask(t, kind, [op.server.kind]);
      AskInStep(t1, PASV, op.server.passive);
      if Reaches(op) {
        var t2 := Open(t1, op.server.passive);
        assert Opened(t2, op.connects);
        AfterTransferCommand(t2, TransferCommand(op.what, op.path), op.server);
      }
    }
  }

  /** The rest of a transfer whose data connection is open. */
  function Finish(t: Talk, cmd: seq<byte>, s: Server): Talk {
    Close(Ask(t, cmd, s.Transferred()))
  }

  lemma AfterTransferCommand(t: Talk, cmd: seq<byte>, s: Server)
    requires t.InStep() && t.Says(TWO) && s.transfer.Valid()
    ensures Finish(t, cmd, s).InStep() <==>
      Sendable(cmd) && var c := s.transfer.Last()[0]; c == FOUR || c == FIVE || (c == ONE && s.markers == [])
  {
    if Sendable(cmd) {
      var rs := s.Transferred();
      assert t.pending + rs == rs && rs[0] == s.transfer;
      assert rs[1..] == if s.Starts() then s.markers + [s.final] else [];
    }
  }

  /** Every operation but an unclean transfer leaves client and server in step, and an unclean transfer never does. */
  lemma OneOperation(t: Talk, op: Op)
    requires t.InStep() && OpValid(op)
    ensures Do(t, op).InStep() <==> Clean(op)
  {
    match op
    case Simple(cmd, answer) =>
      if Sendable(cmd) { AskInStep(t, cmd, answer); }
    case Login(user, pass, named, admitted) =>
      if |user| + 7 <= LOGIN_SIZE && |pass| + 7 <= LOGIN_SIZE {
        AskInStep(t, USER + user, named);
        AskInStep(Ask(t, USER + user, [named]), PASS + pass, admitted);
      }
    case Transfer(_, _, _, _, _) => TransferInStep(t, op);
  }

  predicate StaysInStep(t: Talk, ops: seq<Op>) {
    forall n :: 0 <= n <= |ops| ==> Run(t, ops[..n]).InStep()
  }

  /** A session stays in step throughout exactly when all its operations are clean. */
  lemma {:induction false} SessionInStep(t: Talk, ops: seq<Op>)
    requires t.InStep() && forall op :: op in ops ==> OpValid(op)
    ensures StaysInStep(t, ops) <==> forall op :: op in ops ==> Clean(op)
    decreases |ops|
  {
    if ops == [] {
      assert forall n :: 0 <= n <= |ops| ==> ops[..n] == [];
    } else {
      var init, op := ops[..|ops| - 1], ops[|ops| - 1];
      assert ops == init + [op] && ops[..|ops|] == ops;
      assert forall n :: 0 <= n <= |init| ==> init[..n] == ops[..n];
      assert init[..|init|] == init;
      SessionInStep(t, init);
      if StaysInStep(t, ops) {
        assert Run(t, ops[..|init|]).InStep() && Run(t, ops[..|ops|]).InStep();
        assert StaysInStep(t, init);
        OneOperation(Run(t, init), op);
      }
      if forall o :: o in ops ==> Clean(o) {
        assert Run(t, init[..|init|]).InStep();
        OneOperation(Run(t, init), op);
        forall n | 0 <= n <= |ops| ensures Run(t, ops[..n]).InStep() {
          if n < |ops| { assert Run(t, init[..n]).InStep(); }
        }
      }
    }
  }

  // ----- out of step -----

  /** Restart markers leave as many replies unread as there are markers. */
  lemma MarkersLag(t: Talk, op: Op)
    requires t.InStep() && OpValid(op) && Reaches(op) && !(op.path.Path? && |op.path.name| == LONGEST)
    requires op.server.Starts() && op.server.markers != []
    ensures !Do(t, op).starved && Do(t, op).pending == op.server.markers[1..] + [op.server.final]
  {
    var s, kind := op.server, if op.image then TYPE_I else TYPE_A;
    AskInStep(t, kind, s.kind);
    var t1 := Ask(t, kind, [s.kind]);
    AskInStep(t1, PASV, s.passive);
    var t2 := Open(t1, s.passive);
    assert Opened(t2, op.connects);
    assert s.markers[0] in s.markers;
    assert t2.pending + s.Transferred() == s.Transferred() && s.Transferred()[1..] == s.markers + [s.final];
    assert (s.markers + [s.final])[1..] == s.markers[1..] + [s.final];
  }

  ghost predicate Commands(ops: seq<Op>) {
    forall op :: op in ops ==> op.Simple? && Sendable(op.cmd)
  }

  function Replies(ops: seq<Op>): (rs: seq<Reply>)
    requires Commands(ops)
    ensures |rs| == |ops|
  {
    if ops == [] then [] else Replies(ops[..|ops| - 1]) + [ops[|ops| - 1].answer]
  }

  /** From then on every command is given a reply that many replies too early. */
  lemma {:induction false} LagIsKept(t: Talk, ops: seq<Op>)
    requires !t.starved && Commands(ops)
    ensures var all := t.pending + Replies(ops); var t1 := Run(t, ops);
      && !t1.starved && t1.pending == all[|ops|..] && |t1.pending| == |t.pending|
      && (ops != [] ==> t1.response == all[|ops| - 1].Last() + [LF])
    decreases |ops|
  {
    if ops != [] {
      var init, op := ops[..|ops| - 1], ops[|ops| - 1];
      assert op in ops;
      LagIsKept(t, init);
      var all := t.pending + Replies(init);
      assert t.pending + Replies(ops) == all + [op.answer];
      assert all[|init|..] + [op.answer] == (all + [op.answer])[|init|..];
    }
  }

  // ----- what is said -----

  /** A line as it goes out: a word, and after it, if anything follows, a blank and that. */
  function SaidLine(word: string, path: Path): seq<byte> {
    Bytes(word) + (if path.NoPath? then [] else [32] + path.name) + [13, 10]
  }

  /** The transfer commands of section 4.1.3 of RFC 959, and MLSD. */
  function Word(k: Kind): string {
    match k
    case Nlst => "NLST"
    case List => "LIST"
    case Retr => "RETR"
    case Stor => "STOR"
    case Mlsd => "MLSD"
  }

  lemma BytesAre(s: string, b: seq<byte>)
    requires |s| == |b| && forall i :: 0 <= i < |s| ==> s[i] as int == b[i]
    ensures Bytes(s) == b
  {}

  lemma WordBytes(k: Kind)
    ensures Bytes(Word(k)) == Verb(k)
  {
    hide Bytes;
    BytesAre("NLST", [78, 76, 83, 84]);
    BytesAre("LIST", [76, 73, 83, 84]);
    BytesAre("RETR", [82, 69, 84, 82]);
    BytesAre("STOR", [83, 84, 79, 82]);
    BytesAre("MLSD", [77, 76, 83, 68]);
  }

  lemma OtherBytes()
    ensures Bytes("TYPE A") == TYPE_A && Bytes("TYPE I") == TYPE_I && Bytes("PASV") == PASV
    ensures Bytes("USER ") == USER && Bytes("PASS ") == PASS
  {
    hide Bytes;
    BytesAre("TYPE A", [84, 89, 80, 69, 32, 65]);
    BytesAre("TYPE I", [84, 89, 80, 69, 32, 73]);
    BytesAre("PASV", [80, 65, 83, 86]);
    BytesAre("USER ", [85, 83, 69, 82, 32]);
    BytesAre("PASS ", [80, 65, 83, 83, 32]);
  }

  /** A transfer that reaches its command sends three lines: the type, passive mode, and the command with its path. */
  lemma TransferSays(t: Talk, op: Op)
    requires t.InStep() && OpValid(op) && Reaches(op) && !(op.path.Path? && |op.path.name| == LONGEST)
    ensures Do(t, op).said
      == t.said + SaidLine(if op.image then "TYPE I" else "TYPE A", NoPath) + SaidLine("PASV", NoPath)
         + SaidLine(Word(op.what), op.path)
  {
    hide Bytes;
    OtherBytes();
    WordBytes(op.what);
    var kind, cmd := if op.image then TYPE_I else TYPE_A, TransferCommand(op.what, op.path);
    var t1 := Ask(t, kind, [op.server.kind]);
    AskInStep(t, kind, op.server.kind);
    AskInStep(t1, PASV, op.server.passive);
    var t2 := Open(t1, op.server.passive);
    assert Opened(t2, op.connects);
    LineIs(kind, NoPath, kind);
    LineIs(PASV, NoPath, PASV);
    LineIs(Verb(op.what), op.path, cmd);
    FinishSays(t2, cmd, op.server);
  }

  lemma LineIs(word: seq<byte>, path: Path, cmd: seq<byte>)
    requires cmd == if path.NoPath? then word else word + [SP] + path.name
    ensures Terminated(cmd) == word + (if path.NoPath? then [] else [32] + path.name) + [13, 10]
  {
    if path.Path? { assert word + [SP] + path.name == word + ([32] + path.name); } else { assert word + [] == word; }
  }

  lemma FinishSays(t: Talk, cmd: seq<byte>, s: Server)
    requires Sendable(cmd)
    ensures Finish(t, cmd, s).said == Ask(t, cmd, s.Transferred()).said == t.said + Terminated(cmd)
  {}

  /** A login says the user's name, and the password if and only if the answer to the name begins with 3. */
  lemma LoginSays(t: Talk, op: Op)
    requires t.InStep() && op.Login? && OpValid(op) && |op.user| <= 57 && |op.pass| <= 57
    ensures Do(t, op).said
      == t.said + Bytes("USER ") + op.user + [13, 10]
         + (if op.named.Last()[0] == 51 then Bytes("PASS ") + op.pass + [13, 10] else [])
  {
    hide Bytes;
    OtherBytes();
    AskInStep(t, USER + op.user, op.named);
    var t1 := Ask(t, USER + op.user, [op.named]);
    AskInStep(t1, PASS + op.pass, op.admitted);
    assert t.said + USER + op.user + [13, 10] == t.said + Terminated(USER + op.user);
    var u := t.said + Terminated(USER + op.user);
    assert u + Terminated(PASS + op.pass) == u + (PASS + op.pass + [13, 10]);
    assert u + [] == u;
  }

  /** What an operation that does not get so far, or a single command, says. */
  lemma OthersSay(t: Talk, op: Op)
    requires t.InStep() && OpValid(op)
    ensures op.Simple? && |op.cmd| <= 1021 ==> Do(t, op).said == t.said + op.cmd + [13, 10]
    ensures op.Simple? && |op.cmd| > 1021 ==> Do(t, op) == t
    ensures op.Login? && (|op.user| > 57 || |op.pass| > 57) ==> Do(t, op) == t
    ensures op.Transfer? && op.path.NoPath? && (op.what.Retr? || op.what.Stor?) ==> Do(t, op).said == t.said
  {
    match op
    case Simple(cmd, _) => assert t.said + cmd + [13, 10] == t.said + Terminated(cmd);
    case _ =>
  }

  /** The limits and the digits the dialogue goes by. */
  lemma Limits(t: Talk, path: Path, cmd: seq<byte>, c: char)
    ensures PathFits(path) <==> path.NoPath? || |path.name| <= 1017
    ensures Sendable(cmd) <==> |cmd| <= 1021
    ensures [ONE, TWO, THREE, FOUR, FIVE] == Bytes("12345") && PAREN as int == '(' as int
    ensures PathMissing(Retr, NoPath) && PathMissing(Stor, NoPath) && !PathMissing(List, NoPath) && !PathMissing(Nlst, NoPath)
      && !PathMissing(Mlsd, NoPath) && (path.Path? ==> !PathMissing(Retr, path) && !PathMissing(Stor, path))
  {
    hide Bytes;
    BytesAre("12345", [49, 50, 51, 52, 53]);
    assert '(' as int == 40;
  }
}
