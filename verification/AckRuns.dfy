/** Whose acknowledgements a session hears: the server's, unless a record is sent into a command. */
module AckRuns {
  import opened Words
  import opened Clock
  import opened Commands
  import opened Codec8
  import opened Replies
  import opened Receiver
  import opened Framing
  import opened Session
  import opened SessionRuns

  // ----- undisturbed sessions -----

  /**
   * When no record is sent while a unit is partly received, everything a session takes for an acknowledgement or a
   * command is one the server sent, in the server's order: the first units of its stream, as many as have come in full.
   */
  lemma AcksAreTheServers(s: State, es: seq<Env>, us: seq<Unit>, waitSec: u32)
    requires Undisturbed(s, es, waitSec) && s.kept == []
    requires (forall u :: u in us ==> WellFormed(u)) && Bytes(es) <= Stream(us)
    ensures var n := |Units([], Bytes(es)).1|; n <= |us| && Hearings(Run(s, es, waitSec).1) == Heard(us[..n])
  {
    hide Run, Undisturbed, Hearings, Heard;
    SessionHearsStream(s, es, waitSec);
    PrefixIsCut(us, Bytes(es));
    var heard := Units([], Bytes(es)).1;
    assert us[..|heard|] == heard;
  }

  // ----- a server that withholds the acknowledgement -----

  /** A pass of a waiting session logs an acknowledgement exactly when its byte completes one. */
  lemma WaitingPass(s: State, e: Env, waitSec: u32)
    requires Inv(s) && Waiting(s) && s.faza == 2
    ensures var (t, log) := Step(s, e, waitSec);
      && Granted !in log
      && (GotAck in log <==> e.recv.Byte? && var u := Accept(s.kept, e.recv.b).1; u.Some? && u.value.Ack?)
      && t.kept == (if e.recv.Byte? then Accept(s.kept, e.recv.b).0 else s.kept)
  {
    hide Accept;
  }

  /** Without an acknowledgement among the units it receives a waiting session hears none. */
  lemma {:induction false} NoAckHeard(s: State, es: seq<Env>, waitSec: u32)
    requires Inv(s) && Waiting(s) && s.faza == 2
    requires forall u :: u in Units(s.kept, Bytes(es)).1 ==> !u.Ack?
    ensures GotAck !in Run(s, es, waitSec).1 && Granted !in Run(s, es, waitSec).1
    decreases |es|
  {
    hide Step, Inv, Waiting, Accept;
    if es != [] {
      var (t, log) := Step(s, es[0], waitSec);
      WaitingPass(s, es[0], waitSec);
      var more := Bytes(es[1..]);
      if es[0].recv.Byte? {
        var b := es[0].recv.b;
        assert ([b] + more)[0] == b && ([b] + more)[1..] == more;
        UnitsStep(s.kept, [b] + more);
        var u, us := Accept(s.kept, b).1, Units(t.kept, more).1;
        FirstAndRest(u, us, Units(s.kept, Bytes(es)).1);
      } else {
        assert [] + more == more;
      }
      WithheldStep(s, es[0], waitSec);
      StepKeepsInv(s, es[0], waitSec);
      if t.vixod { EndedLogsNothing(t, es[1..], waitSec); } else { NoAckHeard(t, es[1..], waitSec); }
    }
  }

  lemma FirstAndRest(u: Option<Unit>, us: seq<Unit>, all: seq<Unit>)
    requires all == (if u.Some? then [u.value] else []) + us && forall v :: v in all ==> !v.Ack?
    ensures (u.Some? ==> !u.value.Ack?) && forall v :: v in us ==> !v.Ack?
  {
    assert u.Some? ==> u.value in all;
    assert forall v :: v in us ==> v in all;
  }

  /**
   * A server that after a record sends only commands, in whole or in part: the wait goes on with its deadline, or a pass
   * has ended the session, the first to reach the deadline or an earlier one with another error.
   */
  lemma ServerWithholds(s: State, es: seq<Env>, us: seq<Unit>, waitSec: u32)
    requires Inv(s) && Waiting(s) && s.faza == 2 && s.kept == []
    requires (forall u :: u in us ==> WellFormed(u) && u.Framed?) && Bytes(es) <= Stream(us)
    ensures var t := Run(s, es, waitSec).0;
      if t.vixod then exists i :: EndsAt(s, es, waitSec, i, t.err)
      else t.waitAck && t.tmrAck == s.tmrAck && forall i :: 0 <= i < |es| ==> es[i].later < s.tmrAck
  {
    hide Run, Inv, EndsAt, WellFormed;
    PrefixIsCut(us, Bytes(es));
    assert forall u :: u in Units([], Bytes(es)).1 ==> u in us;
    NoAckHeard(s, es, waitSec);
    AckWithheld(s, es, waitSec);
  }

  // ----- a record sent into a command -----

  /** Four passes before the deadline, with a byte each, the first of which sends a record. */
  ghost predicate SendsAndHears(s: State, es: seq<Env>, bytes: seq<byte>, waitSec: u32) {
    && |es| == |bytes| == 4 && (forall i :: 0 <= i < 4 ==> es[i].recv == Byte(bytes[i]))
    && CheckTmr(es[0].now, s.tmrSend) && es[0].built && es[0].recordSent
    && forall i :: 0 <= i < 4 ==> es[i].later < GetTmr(es[0].now, waitSec)
  }

  /** Whatever was being received: the next four bytes acknowledge the record, if the last of them is not 0. */
  lemma FalseAck(s: State, es: seq<Env>, bytes: seq<byte>, waitSec: u32)
    requires Inv(s) && s.faza == 2 && !s.vixod && !s.waitAck && SendsAndHears(s, es, bytes, waitSec) && bytes[3] != 0
    ensures var (t, log) := Run(s, es, waitSec);
      !t.waitAck && !t.vixod && |log| == 2 && log[0].SentRecord? && log[1] == GotAck
  {
    var (s1, log1) := Step(s, es[0], waitSec);
    SendingPass(s, es[0], waitSec);
    var (s2, log2) := Step(s1, es[1], waitSec);
    HearingPass(s1, es[1], waitSec);
    var (s3, log3) := Step(s2, es[2], waitSec);
    HearingPass(s2, es[2], waitSec);
    var (s4, log4) := Step(s3, es[3], waitSec);
    HearingPass(s3, es[3], waitSec);
    assert [bytes[0]] + [bytes[1]] + [bytes[2]] + [bytes[3]] == bytes;
    hide Step, SendsAndHears, Inv;
    FourPasses(s, es, waitSec);
  }

  lemma SendingPass(s: State, e: Env, waitSec: u32)
    requires s.faza == 2 && !s.vixod && !s.waitAck && CheckTmr(e.now, s.tmrSend) && e.built && e.recordSent
    requires e.recv.Byte? && e.later < GetTmr(e.now, waitSec)
    ensures var (t, log) := Step(s, e, waitSec);
      && |log| == 1 && log[0].SentRecord? && t.faza == 2 && !t.vixod && t.waitAck && t.kept == [e.recv.b]
      && t.tmrAck == GetTmr(e.now, waitSec)
  {
    hide SizeOf, GetTmr;
    assert [] + [e.recv.b] == [e.recv.b];
  }

  /** Up to four bytes after a restart. */
  lemma HearingPass(s: State, e: Env, waitSec: u32)
    requires s.faza == 2 && !s.vixod && s.waitAck && e.recv.Byte? && e.later < s.tmrAck && |s.kept| < 4
    ensures var (t, log) := Step(s, e, waitSec);
      && t.faza == 2 && !t.vixod
      && if |s.kept| == 3 && e.recv.b != 0 then log == [GotAck] && !t.waitAck
         else log == [] && t.waitAck && t.tmrAck == s.tmrAck && t.kept == s.kept + [e.recv.b]
  {
    hide SizeOf;
  }

  lemma FourPasses(s: State, es: seq<Env>, waitSec: u32)
    requires |es| == 4
    ensures var (s1, log1) := Step(s, es[0], waitSec); var (s2, log2) := Step(s1, es[1], waitSec);
      var (s3, log3) := Step(s2, es[2], waitSec); var (s4, log4) := Step(s3, es[3], waitSec);
      Run(s, es, waitSec) == (s4, log1 + log2 + log3 + log4)
  {
    hide Step;
    var (s1, log1) := Step(s, es[0], waitSec);
    var (s2, log2) := Step(s1, es[1], waitSec);
    var (s3, log3) := Step(s2, es[2], waitSec);
    var (s4, log4) := Step(s3, es[3], waitSec);
    assert Run(s4, es[4..], waitSec) == (s4, []);
    assert es[3..][0] == es[3] && es[3..][1..] == es[4..];
    assert Run(s3, es[3..], waitSec) == (s4, log4 + []);
    assert es[2..][0] == es[2] && es[2..][1..] == es[3..];
    assert Run(s2, es[2..], waitSec) == (s4, log3 + (log4 + []));
    assert es[1..][0] == es[1] && es[1..][1..] == es[2..];
    assert Run(s1, es[1..], waitSec) == (s4, log2 + (log3 + (log4 + [])));
    assert log1 + (log2 + (log3 + (log4 + []))) == log1 + log2 + log3 + log4;
  }

  /**
   * A server sends one framed GET_STAT and nothing else. When the record goes out after the first 15 bytes of the frame,
   * the first four characters of its text are taken as the acknowledgement of the record.
   */
  lemma CommandAsAck(s: State, es: seq<Env>, ct: byte, text: string, waitSec: u32)
    requires text == "GET_STAT" && var f := Frame(Message(12, ct, 0, CharBytes(text)));
      |f| == 28 && s.kept == f[..15] && SendsAndHears(s, es, f[15..19], waitSec)
    requires Inv(s) && s.faza == 2 && !s.vixod && !s.waitAck
    ensures GotAck in Run(s, es, waitSec).1 && !Run(s, es, waitSec).0.waitAck
    ensures var f := Frame(Message(12, ct, 0, CharBytes(text))); Units([], f) == ([], [Framed(f)])
  {
    hide Run, Inv, SendsAndHears, Frame, Message, Units, WellFormed;
    var data := Message(12, ct, 0, CharBytes(text));
    var f := Frame(data);
    TextFrame(text, ct);
    assert f[15..23][..4] == f[15..19];
    assert CharBytes(text)[3] == 95 by { assert text[3] == '_'; }
    assert f[15..19][3] == f[15..23][3] == 95;
    FalseAck(s, es, f[15..19], waitSec);
    FrameIsUnit(data);
    StreamOfOne(Framed(f));
    StreamIsCut([Framed(f)]);
  }
}
