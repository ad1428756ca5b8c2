/** Theorems about whole sessions. */
module SessionRuns {
  import opened Words
  import opened Clock
  import opened Commands
  import opened Mirror
  import opened Receiver
  import opened Session

  // ----- the state invariant -----

  ghost predicate Inv(s: State) {
    && s.faza <= 2
    && s.grant == (s.faza >= 1)
    && s.vixod == (s.err != {})
    && InternalError !in s.err
    && (s.faza == 1 ==> !s.waitAck)
    && (s.faza < 2 ==> s.kept == [])
    && (s.faza == 0 && s.first ==> !s.waitAck)
    && 1 <= s.kolPack <= MAX_PK
  }

  lemma LoginKeepsInv(s: State, e: Env, waitSec: u32)
    requires Inv(s) && s.faza == 0 && !s.vixod
    ensures Inv(Login(s, e, waitSec).0)
  {}

  lemma InitKeepsInv(s: State, e: Env)
    requires Inv(s) && s.faza == 1 && !s.vixod
    ensures Inv(Init(s, e).0) && Init(s, e).0.faza == 2
  {}

  lemma SendPartKeepsInv(s: State, e: Env, waitSec: u32)
    requires Inv(s) && s.faza == 2 && !s.vixod
    ensures Inv(SendPart(s, e, waitSec).0) && SendPart(s, e, waitSec).0.faza == 2
  {}

  lemma ReceivePartKeepsInv(s: State, e: Env)
    requires Inv(s) && s.faza == 2 && !s.vixod
    ensures Inv(ReceivePart(s, e).0) && ReceivePart(s, e).0.faza == 2
  {
    hide Accept;
  }

  lemma DataKeepsInv(s: State, e: Env, waitSec: u32)
    requires Inv(s) && s.faza == 2 && !s.vixod
    ensures Inv(Data(s, e, waitSec).0) && Data(s, e, waitSec).0.faza == 2
  {
    hide SendPart, ReceivePart;
    SendPartKeepsInv(s, e, waitSec);
    var t := SendPart(s, e, waitSec).0;
    if !t.vixod { ReceivePartKeepsInv(t, e); }
  }

  /** In every reachable state: granted iff past login, ended iff an error is recorded, and never the internal error. */
  lemma StepKeepsInv(s: State, e: Env, waitSec: u32)
    requires Inv(s)
    ensures Inv(Step(s, e, waitSec).0) && s.faza <= Step(s, e, waitSec).0.faza <= s.faza + 1
    ensures s.err <= Step(s, e, waitSec).0.err
  {
    hide Data, Login, Init;
    if !s.vixod {
      if s.faza == 0 { LoginKeepsInv(s, e, waitSec); LoginGrows(s, e, waitSec); }
      else if s.faza == 1 { InitKeepsInv(s, e); InitGrows(s, e); }
      else { DataKeepsInv(s, e, waitSec); }
    }
  }

  lemma LoginGrows(s: State, e: Env, waitSec: u32)
    requires Inv(s) && s.faza == 0
    ensures Login(s, e, waitSec).0.faza <= 1
  {}

  lemma InitGrows(s: State, e: Env)
    ensures Inv(s) && s.faza == 1 ==> s.err <= Init(s, e).0.err
  {}

  lemma {:induction false} RunKeepsInv(s: State, es: seq<Env>, waitSec: u32)
    requires Inv(s)
    ensures var t := Run(s, es, waitSec).0; Inv(t) && s.faza <= t.faza && s.err <= t.err
    decreases |es|
  {
    hide Inv, Step;
    if es != [] {
      StepKeepsInv(s, es[0], waitSec);
      RunKeepsInv(Step(s, es[0], waitSec).0, es[1..], waitSec);
    }
  }

  /** From its start a session keeps the invariant, never goes back a phase and never forgets an error. */
  lemma SessionKeepsInv(now: u32, es: seq<Env>, more: seq<Env>, waitSec: u32)
    ensures var t := Run(Start(now, waitSec), es, waitSec).0; var u := Run(Start(now, waitSec), es + more, waitSec).0;
      Inv(t) && Inv(u) && t.faza <= u.faza && t.err <= u.err
  {
    hide Run;
    RunKeepsInv(Start(now, waitSec), es, waitSec);
    RunKeepsInv(Run(Start(now, waitSec), es, waitSec).0, more, waitSec);
    RunCat(Start(now, waitSec), es, more, waitSec);
  }

  lemma {:induction false} RunCat(s: State, a: seq<Env>, b: seq<Env>, waitSec: u32)
    ensures Run(s, a + b, waitSec).0 == Run(Run(s, a, waitSec).0, b, waitSec).0
    decreases |a|
  {
    hide Step;
    if a == [] {
      assert a + b == b;
    } else {
      assert (a + b)[0] == a[0] && (a + b)[1..] == a[1..] + b;
      RunCat(Step(s, a[0], waitSec).0, a[1..], b, waitSec);
    }
  }

  // ----- what a session says and hears -----

  /** An observer of the conversation: logged in, accepted, a record not yet acknowledged. */
  datatype Monitor = Monitor(login: bool, granted: bool, outstanding: bool)

  /** None if the act breaks the rules: one login, nothing but login before acceptance, one record at a time. */
  function Observe(m: Monitor, a: Act): Option<Monitor> {
    match a
    case SentLogin => if m.login then None else Some(m.(login := true))
    case Granted => if !m.login || m.granted then None else Some(m.(granted := true))
    case SentRecord(n) => if !m.granted || m.outstanding || !(1 <= n <= MAX_PK) then None else Some(m.(outstanding := true))
    case GotAck => if !m.granted then None else Some(m.(outstanding := false))
    case GotCommand(_) => if !m.granted then None else Some(m)
    case SentReply => if !m.granted then None else Some(m)
  }

  function ObserveAll(m: Monitor, log: seq<Act>): Option<Monitor>
    decreases |log|
  {
    if log == [] then Some(m)
    else
      var n := Observe(m, log[0]);
      if n.None? then None else ObserveAll(n.value, log[1..])
  }

  lemma {:induction false} ObserveCat(m: Monitor, a: seq<Act>, b: seq<Act>)
    ensures ObserveAll(m, a + b)
      == (var n := ObserveAll(m, a); if n.None? then None else ObserveAll(n.value, b))
    decreases |a|
  {
    hide Observe;
    if a == [] {
      assert a + b == b;
    } else {
      assert (a + b)[0] == a[0] && (a + b)[1..] == a[1..] + b;
      var n := Observe(m, a[0]);
      if n.Some? { ObserveCat(n.value, a[1..], b); }
    }
  }

  lemma ObserveShort(m: Monitor, a: Act, b: Act)
    ensures ObserveAll(m, []) == Some(m)
    ensures ObserveAll(m, [a]) == Observe(m, a)
    ensures ObserveAll(m, [a, b]) == (var n := Observe(m, a); if n.None? then None else Observe(n.value, b))
  {
    hide Observe;
    assert [a][1..] == [] && [a, b][1..] == [b] && [b][1..] == [];
  }

  /** What the observer knows agrees with the session's state. */
  ghost predicate Agrees(m: Monitor, s: State) {
    && m.granted == s.grant
    && (s.first && s.faza == 0 ==> !m.login)
    && (s.faza == 0 && !s.first && !s.vixod ==> m.login)
    && (s.faza == 2 && !s.vixod ==> m.outstanding == s.waitAck)
    && (m.outstanding ==> s.faza == 2)
  }

  ghost predicate Follows(m: Monitor, s: State, log: seq<Act>) {
    var n := ObserveAll(m, log);
    n.Some? && Agrees(n.value, s)
  }

  lemma LoginFollows(m: Monitor, s: State, e: Env, waitSec: u32)
    requires Inv(s) && Agrees(m, s) && s.faza == 0 && !s.vixod
    ensures var (t, log) := Login(s, e, waitSec); Follows(m, t, log)
  {
    hide ObserveAll;
    ObserveShort(m, SentLogin, Granted);
    ObserveShort(m, Granted, Granted);
    assert [SentLogin] + [Granted] == [SentLogin, Granted] && [] + [Granted] == [Granted];
  }

  lemma SendPartFollows(m: Monitor, s: State, e: Env, waitSec: u32)
    requires Inv(s) && Agrees(m, s) && s.faza == 2 && !s.vixod
    ensures var (t, log) := SendPart(s, e, waitSec); Follows(m, t, log)
  {
    hide ObserveAll;
    var (t, log) := SendPart(s, e, waitSec);
    ObserveShort(m, SentRecord(t.kolPack), GotAck);
  }

  lemma ReceivePartFollows(m: Monitor, s: State, e: Env)
    requires Inv(s) && Agrees(m, s) && s.faza == 2 && !s.vixod
    ensures var (t, log) := ReceivePart(s, e); Follows(m, t, log)
  {
    hide ObserveAll, Accept;
    ObserveShort(m, GotAck, GotAck);
    if e.recv.Byte? {
      var u := Accept(s.kept, e.recv.b).1;
      if u.Some? && u.value.Framed? { ObserveShort(m, GotCommand(u.value.bytes), SentReply); }
    }
  }

  lemma DataFollows(m: Monitor, s: State, e: Env, waitSec: u32)
    requires Inv(s) && Agrees(m, s) && s.faza == 2 && !s.vixod
    ensures var (t, log) := Data(s, e, waitSec); Follows(m, t, log)
  {
    hide SendPart, ReceivePart, ObserveAll, Agrees;
    SendPartFollows(m, s, e, waitSec);
    SendPartKeepsInv(s, e, waitSec);
    var (t, log) := SendPart(s, e, waitSec);
    if !t.vixod {
      var n := ObserveAll(m, log).value;
      ReceivePartFollows(n, t, e);
      ObserveCat(m, log, ReceivePart(t, e).1);
    }
  }

  lemma StepFollows(m: Monitor, s: State, e: Env, waitSec: u32)
    requires Inv(s) && Agrees(m, s)
    ensures var (t, log) := Step(s, e, waitSec); Follows(m, t, log)
  {
    hide Login, Data, ObserveAll;
    ObserveShort(m, GotAck, GotAck);
    if !s.vixod {
      if s.faza == 0 { LoginFollows(m, s, e, waitSec); } else if s.faza == 2 { DataFollows(m, s, e, waitSec); }
    }
  }

  lemma {:induction false} RunFollows(m: Monitor, s: State, es: seq<Env>, waitSec: u32)
    requires Inv(s) && Agrees(m, s)
    ensures var (t, log) := Run(s, es, waitSec); Follows(m, t, log)
    decreases |es|
  {
    hide Step, Inv, Agrees, ObserveAll;
    if es == [] {
      ObserveShort(m, GotAck, GotAck);
    } else {
      var (t, log) := Step(s, es[0], waitSec);
      StepFollows(m, s, es[0], waitSec);
      StepKeepsInv(s, es[0], waitSec);
      var n := ObserveAll(m, log).value;
      RunFollows(n, t, es[1..], waitSec);
      ObserveCat(m, log, Run(t, es[1..], waitSec).1);
    }
  }

  const NOBODY: Monitor := Monitor(false, false, false)

  // ----- what an accepted conversation looks like -----

  lemma {:induction false} ObservePrefix(m: Monitor, log: seq<Act>, k: nat)
    requires k <= |log| && ObserveAll(m, log).Some?
    ensures ObserveAll(m, log[..k]).Some? && ObserveAll(ObserveAll(m, log[..k]).value, log[k..]).Some?
  {
    assert log[..k] + log[k..] == log;
    ObserveCat(m, log[..k], log[k..]);
  }

  lemma {:induction false} StaysOutstanding(m: Monitor, log: seq<Act>)
    requires ObserveAll(m, log).Some? && m.outstanding && GotAck !in log
    ensures ObserveAll(m, log).value.outstanding
    decreases |log|
  {
    if log != [] { StaysOutstanding(Observe(m, log[0]).value, log[1..]); }
  }

  lemma {:induction false} GrantedNeedsGrant(m: Monitor, log: seq<Act>)
    requires ObserveAll(m, log).Some? && !m.granted && Granted !in log
    ensures !ObserveAll(m, log).value.granted
    decreases |log|
  {
    if log != [] { GrantedNeedsGrant(Observe(m, log[0]).value, log[1..]); }
  }

  lemma NextAct(m: Monitor, log: seq<Act>, k: nat)
    requires k < |log| && ObserveAll(m, log).Some?
    ensures ObserveAll(m, log[..k]).Some? && Observe(ObserveAll(m, log[..k]).value, log[k]).Some?
    ensures ObserveAll(m, log[..k + 1]) == Observe(ObserveAll(m, log[..k]).value, log[k])
  {
    hide Observe;
    ObservePrefix(m, log, k);
    assert log[..k + 1] == log[..k] + [log[k]];
    ObserveCat(m, log[..k], [log[k]]);
    ObserveShort(ObserveAll(m, log[..k]).value, log[k], log[k]);
    ObservePrefix(m, log, k + 1);
  }

  /** Stop and wait: between any two records a session sends lies an acknowledgement. */
  lemma AckBetweenRecords(now: u32, es: seq<Env>, waitSec: u32, i: nat, j: nat)
    requires var log := Run(Start(now, waitSec), es, waitSec).1; i < j < |log| && log[i].SentRecord? && log[j].SentRecord?
    ensures var log := Run(Start(now, waitSec), es, waitSec).1; exists k :: i < k < j && log[k] == GotAck
  {
    hide Run, Observe;
    var log := Run(Start(now, waitSec), es, waitSec).1;
    RunFollows(NOBODY, Start(now, waitSec), es, waitSec);
    NextAct(NOBODY, log, i);
    NextAct(NOBODY, log, j);
    SentMeansOutstanding(ObserveAll(NOBODY, log[..i]).value, log[i]);
    SendNeedsQuiet(ObserveAll(NOBODY, log[..j]).value, log[j]);
    var m := ObserveAll(NOBODY, log[..i + 1]).value;
    var between := log[i + 1..j];
    assert log[..j] == log[..i + 1] + between;
    ObserveCat(NOBODY, log[..i + 1], between);
    if GotAck !in between { StaysOutstanding(m, between); }
    var k :| 0 <= k < |between| && between[k] == GotAck;
    assert log[i + 1 + k] == GotAck;
  }

  lemma SentMeansOutstanding(m: Monitor, a: Act)
    requires a.SentRecord? && Observe(m, a).Some?
    ensures Observe(m, a).value.outstanding
  {}

  lemma SendNeedsQuiet(m: Monitor, a: Act)
    requires a.SentRecord? && Observe(m, a).Some?
    ensures !m.outstanding && m.granted
  {}

  /** No record is sent before the server has accepted the login, and every record has 1 to 3 samples. */
  lemma NoRecordBeforeGrant(now: u32, es: seq<Env>, waitSec: u32, j: nat)
    requires var log := Run(Start(now, waitSec), es, waitSec).1; j < |log| && log[j].SentRecord?
    ensures var log := Run(Start(now, waitSec), es, waitSec).1;
      (exists i :: 0 <= i < j && log[i] == Granted) && 1 <= log[j].samples <= MAX_PK
  {
    hide Run;
    var log := Run(Start(now, waitSec), es, waitSec).1;
    RunFollows(NOBODY, Start(now, waitSec), es, waitSec);
    NextAct(NOBODY, log, j);
    SendNeedsQuiet(ObserveAll(NOBODY, log[..j]).value, log[j]);
    if Granted !in log[..j] { GrantedNeedsGrant(NOBODY, log[..j]); }
    var i :| 0 <= i < j && log[..j][i] == Granted;
    assert log[i] == Granted;
  }

  function Count(log: seq<Act>, record: bool): nat {
    if log == [] then 0
    else (if (record && log[0].SentRecord?) || (!record && log[0].GotAck?) then 1 else 0) + Count(log[1..], record)
  }

  lemma {:induction false} CountsBalance(m: Monitor, log: seq<Act>)
    requires ObserveAll(m, log).Some?
    ensures Count(log, true) + (if m.outstanding then 1 else 0)
      <= Count(log, false) + (if ObserveAll(m, log).value.outstanding then 1 else 0)
    decreases |log|
  {
    if log != [] { CountsBalance(Observe(m, log[0]).value, log[1..]); }
  }

  /** In a live data phase the records sent exceed the acknowledgements by at most one, and only while waiting. */
  lemma RecordsMinusAcks(now: u32, es: seq<Env>, waitSec: u32)
    ensures var (t, log) := Run(Start(now, waitSec), es, waitSec);
      t.faza == 2 && !t.vixod ==> Count(log, true) <= Count(log, false) + (if t.waitAck then 1 else 0)
  {
    hide Run;
    RunFollows(NOBODY, Start(now, waitSec), es, waitSec);
    CountsBalance(NOBODY, Run(Start(now, waitSec), es, waitSec).1);
  }

  // ----- time-outs -----

  ghost predicate Waiting(s: State) {
    !s.vixod && s.waitAck && (s.faza == 2 || (s.faza == 0 && !s.first))
  }

  /** Over any run, from any state: a session that still waits saw every deadline of its last pass ahead of it. */
  lemma WaitingIsInTime(s: State, es: seq<Env>, waitSec: u32)
    requires es != []
    ensures var t := Run(s, es, waitSec).0; !t.vixod && t.waitAck ==> es[|es| - 1].later < t.tmrAck
  {
    hide Switch;
    var init, e := es[..|es| - 1], es[|es| - 1];
    assert es == init + [e];
    RunCat(s, init, [e], waitSec);
    assert [e][1..] == [];
    assert Run(Run(s, init, waitSec).0, [e], waitSec).0 == Step(Run(s, init, waitSec).0, e, waitSec).0;
  }

  /** What goes wrong in a pass of a waiting session, the clock apart. */
  function Mishap(s: State, e: Env): set<Error> {
    match e.recv
    case Nothing => {}
    case Closed => {ClosedError}
    case Byte(b) =>
      if s.faza == 0 then {RejectedError}
      else
        var unit := Accept(s.kept, b).1;
        if unit.None? || unit.value.Ack? then {}
        else if e.reset then {ResetError}
        else if !e.replySent then {SendError}
        else {}
  }

  /** A refused login no longer waits, so it is not late. */
  function Late(s: State, e: Env): set<Error> {
    if e.later >= s.tmrAck && !(s.faza == 0 && e.recv.Byte?) then {TimeoutError} else {}
  }

  /** One pass without the awaited byte: the wait goes on with the same deadline, or ends with exactly these errors. */
  lemma WithheldStep(s: State, e: Env, waitSec: u32)
    requires Inv(s) && Waiting(s) && GotAck !in Step(s, e, waitSec).1 && Granted !in Step(s, e, waitSec).1
    ensures var t := Step(s, e, waitSec).0;
      && t.err == Mishap(s, e) + Late(s, e) && t.vixod == (t.err != {})
      && (!t.vixod ==> Waiting(t) && t.tmrAck == s.tmrAck && t.faza == s.faza)
  {
    hide Accept;
    assert GotAck in [GotAck] && Granted in [Granted];
  }

  /** The pass at which a wait ended, no earlier one having reached the deadline, with the errors it left. */
  ghost predicate EndsAt(s: State, es: seq<Env>, waitSec: u32, i: nat, err: set<Error>) {
    i < |es| && var u := Run(s, es[..i], waitSec).0;
      && Waiting(u) && u.faza == s.faza && u.tmrAck == s.tmrAck
      && (forall j :: 0 <= j < i ==> es[j].later < s.tmrAck)
      && err == Mishap(u, es[i]) + Late(u, es[i]) && err != {}
  }

  /**
   * Whatever else a server sends: as long as it withholds the awaited byte the wait goes on with the deadline it was
   * given, and every pass is before it; or a pass has ended the session, the first one whose clock reached the deadline
   * or an earlier one with another error.
   */
  lemma {:induction false} AckWithheld(s: State, es: seq<Env>, waitSec: u32)
    requires Inv(s) && Waiting(s)
    requires var log := Run(s, es, waitSec).1; GotAck !in log && Granted !in log
    ensures var t := Run(s, es, waitSec).0;
      if t.vixod then exists i :: EndsAt(s, es, waitSec, i, t.err)
      else
        && Waiting(t) && t.faza == s.faza && t.tmrAck == s.tmrAck
        && forall i :: 0 <= i < |es| ==> es[i].later < s.tmrAck
    decreases |es|
  {
    hide Step, Inv, Waiting, Mishap, Late, EndsAt;
    if es == [] {
      NotEnded(s);
    } else {
      var (t, log) := Step(s, es[0], waitSec);
      var rest := es[1..];
      assert forall a :: a in log ==> a in Run(s, es, waitSec).1;
      assert forall a :: a in Run(t, rest, waitSec).1 ==> a in Run(s, es, waitSec).1;
      WithheldStep(s, es[0], waitSec);
      StepKeepsInv(s, es[0], waitSec);
      if t.vixod {
        EndedStays(t, rest, waitSec);
        EndsNow(s, es, waitSec);
      } else {
        if es[0].later >= s.tmrAck { LateIsSeen(s, es[0]); }
        AckWithheld(t, rest, waitSec);
        if Run(t, rest, waitSec).0.vixod {
          var i :| EndsAt(t, rest, waitSec, i, Run(t, rest, waitSec).0.err);
          EndsLater(s, es, waitSec, i, Run(t, rest, waitSec).0.err);
        } else {
          assert forall i :: 0 <= i < |es| ==> es[i] == if i == 0 then es[0] else rest[i - 1];
        }
      }
    }
  }

  lemma NotEnded(s: State)
    requires Waiting(s)
    ensures !s.vixod
  {}

  lemma LateIsSeen(s: State, e: Env)
    requires e.later >= s.tmrAck
    ensures Mishap(s, e) + Late(s, e) != {}
  {
    hide Accept;
    if s.faza == 0 && e.recv.Byte? {
      assert RejectedError in Mishap(s, e);
    } else {
      assert TimeoutError in Late(s, e);
    }
  }

  lemma EndsNow(s: State, es: seq<Env>, waitSec: u32)
    requires es != [] && Waiting(s)
    requires Mishap(s, es[0]) + Late(s, es[0]) != {}
    ensures EndsAt(s, es, waitSec, 0, Mishap(s, es[0]) + Late(s, es[0]))
  {
    assert es[..0] == [];
  }

  lemma EndsLater(s: State, es: seq<Env>, waitSec: u32, i: nat, err: set<Error>)
    requires es != [] && var t := Step(s, es[0], waitSec).0;
      EndsAt(t, es[1..], waitSec, i, err) && t.tmrAck == s.tmrAck && t.faza == s.faza && es[0].later < s.tmrAck
    ensures EndsAt(s, es, waitSec, i + 1, err)
  {
    hide Step, Mishap, Late, Waiting;
    assert es[..i + 1][0] == es[0] && es[..i + 1][1..] == es[1..][..i];
    forall j | 0 <= j < i + 1 ensures es[j].later < s.tmrAck {
      if j > 0 { assert es[1..][j - 1] == es[j]; }
    }
  }

  lemma {:induction false} EndedStays(s: State, es: seq<Env>, waitSec: u32)
    requires s.vixod
    ensures Run(s, es, waitSec).0 == s
    decreases |es|
  {
    if es != [] { EndedStays(s, es[1..], waitSec); }
  }

  // ----- the pace of records -----

  /** The pass sends a record. */
  predicate Sends(s: State, e: Env, waitSec: u32) {
    !s.vixod && s.faza == 2 && SendPart(s, e, waitSec).1 != []
  }

  /** The pass answers a report request. */
  predicate AnswersReport(s: State, e: Env, waitSec: u32) {
    var t := SendPart(s, e, waitSec).0;
    && !s.vixod && s.faza == 2 && !t.vixod && e.recv.Byte? && e.report && e.replySent && !e.reset
    && var u := Accept(t.kept, e.recv.b).1; u.Some? && u.value.Framed?
  }

  /** In no pass of the run is a report request answered, and the clock never goes back. */
  ghost predicate NoReport(s: State, es: seq<Env>, waitSec: u32)
    decreases |es|
  {
    es != [] ==>
      && !AnswersReport(s, es[0], waitSec) && (forall i :: 0 <= i < |es| ==> es[0].now <= es[i].now)
      && NoReport(Step(s, es[0], waitSec).0, es[1..], waitSec)
  }

  /** One pass moves the time of the next record only when that time has come, or when it answers a report request. */
  lemma PaceStep(s: State, e: Env, waitSec: u32)
    requires s.faza == 2
    ensures var t := Step(s, e, waitSec).0;
      && (Sends(s, e, waitSec) ==> e.now >= s.tmrSend)
      && (!AnswersReport(s, e, waitSec) ==> t.tmrSend == s.tmrSend || e.now >= s.tmrSend)
      && (Sends(s, e, waitSec) && !AnswersReport(s, e, waitSec) ==> t.tmrSend == GetTmr(e.now, e.period))
      && t.faza == 2
  {
    hide Accept, SendPart, ReceivePart, AnswersReport;
    PaceOfSending(s, e, waitSec);
    if !s.vixod && !SendPart(s, e, waitSec).0.vixod { PaceOfReceiving(s, e, waitSec); }
  }

  lemma PaceOfSending(s: State, e: Env, waitSec: u32)
    ensures var (t, log) := SendPart(s, e, waitSec);
      && t.faza == s.faza && (log != [] ==> t.tmrSend == GetTmr(e.now, e.period) && t.vixod == s.vixod)
      && (log != [] || t.tmrSend != s.tmrSend ==> e.now >= s.tmrSend)
  {}

  lemma PaceOfReceiving(s: State, e: Env, waitSec: u32)
    requires s.faza == 2 && !s.vixod && !SendPart(s, e, waitSec).0.vixod
    ensures var t := SendPart(s, e, waitSec).0; var u := ReceivePart(t, e).0;
      u.faza == t.faza && (!AnswersReport(s, e, waitSec) ==> u.tmrSend == t.tmrSend)
  {
    hide Accept, SendPart;
  }

  lemma {:induction false} PaceKept(s: State, es: seq<Env>, due: u32, i: nat, waitSec: u32)
    requires s.faza == 2 && NoReport(s, es, waitSec) && i < |es|
    requires s.tmrSend == due || forall j :: 0 <= j < |es| ==> es[j].now >= due
    requires Sends(Run(s, es[..i], waitSec).0, es[i], waitSec)
    ensures es[i].now >= due
    decreases |es|
  {
    hide Step, Sends, AnswersReport;
    PaceStep(s, es[0], waitSec);
    if i == 0 {
      assert es[..0] == [];
    } else {
      var t, rest := Step(s, es[0], waitSec).0, es[1..];
      assert es[..i][0] == es[0] && es[..i][1..] == rest[..i - 1] && rest[i - 1] == es[i];
      assert forall j :: 0 <= j < |rest| ==> rest[j] == es[j + 1];
      PaceKept(t, rest, due, i - 1, waitSec);
    }
  }

  /**
   * Between a record and any later one lies at least the send period, if the clock does not go back or wrap and no report
   * request was answered from the one record on.
   */
  lemma RecordsAreSpaced(s: State, e: Env, es: seq<Env>, i: nat, waitSec: u32)
    requires Sends(s, e, waitSec) && !AnswersReport(s, e, waitSec) && e.now + e.period < 0x1_0000_0000
    requires i < |es| && NoReport(Step(s, e, waitSec).0, es, waitSec)
    requires Sends(Run(Step(s, e, waitSec).0, es[..i], waitSec).0, es[i], waitSec)
    ensures es[i].now >= e.now + e.period
  {
    hide Step, AnswersReport, NoReport, Run;
    PaceStep(s, e, waitSec);
    SendsInData(s, e, waitSec);
    PaceKept(Step(s, e, waitSec).0, es, e.now + e.period, i, waitSec);
  }

  lemma SendsInData(s: State, e: Env, waitSec: u32)
    requires Sends(s, e, waitSec)
    ensures s.faza == 2 && e.now + e.period < 0x1_0000_0000 ==> GetTmr(e.now, e.period) == e.now + e.period
  {}

  // ----- the login -----

  /** A session before its first byte: nothing sent, or waiting for the answer. */
  ghost predicate BeforeAnswer(s: State) {
    s.faza == 0 && !s.grant && (s.first || s.waitAck)
  }

  /** What a pass before the answer can say, and what it must have heard to grant. */
  lemma LoginPass(s: State, e: Env, waitSec: u32)
    requires BeforeAnswer(s) && !s.vixod
    ensures var (t, log) := Step(s, e, waitSec);
      && (e.recv.Byte? && e.recv.b == 1 && (s.first ==> e.loginSent) ==>
            log == (if s.first then [SentLogin] else []) + [Granted] && t.faza == 1 && t.grant && !t.vixod && t.err == s.err)
      && (!(e.recv.Byte? && e.recv.b == 1) || (s.first && !e.loginSent) ==>
            log == (if s.first && e.loginSent then [SentLogin] else []) && !t.grant && t.faza == 0
            && (t.vixod || (BeforeAnswer(t) && !e.recv.Byte?)))
      && !t.first && (s.first && !e.loginSent ==> t.vixod)
  {
    assert [] + [Granted] == [Granted] && [SentLogin] + [Granted] == [SentLogin, Granted];
  }

  lemma {:induction false} AnswerIsFirst(s: State, es: seq<Env>, waitSec: u32)
    requires BeforeAnswer(s)
    ensures var log := Run(s, es, waitSec).1; var k := if s.first then 1 else 0;
      && (s.first && log != [] ==> log[0] == SentLogin)
      && (|log| > k ==> log[k] == Granted && Bytes(es) != [] && Bytes(es)[0] == 1)
    decreases |es|
  {
    hide Step, BeforeAnswer;
    if s.vixod {
      EndedLogsNothing(s, es, waitSec);
    } else if es != [] {
      var (t, log) := Step(s, es[0], waitSec);
      LoginPass(s, es[0], waitSec);
      if !t.grant {
        if t.vixod { EndedLogsNothing(t, es[1..], waitSec); } else { AnswerIsFirst(t, es[1..], waitSec); }
      }
    }
  }

  lemma {:induction false} EndedLogsNothing(s: State, es: seq<Env>, waitSec: u32)
    requires s.vixod
    ensures Run(s, es, waitSec) == (s, [])
    decreases |es|
  {
    if es != [] {
      EndedLogsNothing(s, es[1..], waitSec);
      var nothing: seq<Act> := [];
      assert nothing + nothing == nothing;
    }
  }

  /**
   * Everything a session says begins with its login, and whatever more it says or does, any record included, comes after
   * the server's first byte, and that byte is 1.
   */
  lemma GrantedByOne(now: u32, es: seq<Env>, waitSec: u32)
    ensures var log := Run(Start(now, waitSec), es, waitSec).1;
      && (log != [] ==> log[0] == SentLogin)
      && (|log| > 1 ==> log[1] == Granted && Bytes(es) != [] && Bytes(es)[0] == 1)
  {
    hide Run;
    AnswerIsFirst(Start(now, waitSec), es, waitSec);
  }

  lemma {:induction false} AnswerDecides(s: State, es: seq<Env>, b: byte, waitSec: u32)
    requires s.faza == 0 && !s.grant && !s.first && s.waitAck && !s.vixod && s.err == {} && es != []
    requires forall i :: 0 <= i < |es| - 1 ==> es[i].recv.Nothing? && es[i].later < s.tmrAck
    requires es[|es| - 1].recv == Byte(b)
    ensures var (t, log) := Run(s, es, waitSec);
      if b == 1 then log == [Granted] && t.faza == 1 && t.grant && t.err == {} && !t.vixod
      else log == [] && t.faza == 0 && !t.grant && t.err == {RejectedError} && t.vixod
    decreases |es|
  {
    if |es| == 1 {
      assert es[1..] == [];
      assert [] + [Granted] == [Granted] && [Granted] + [] == [Granted];
    } else {
      assert Step(s, es[0], waitSec) == (s, []);
      hide Step;
      assert forall i :: 0 <= i < |es[1..]| ==> es[1..][i] == es[i + 1];
      AnswerDecides(s, es[1..], b, waitSec);
      var log := Run(s, es[1..], waitSec).1;
      assert [] + log == log;
    }
  }

  /**
   * Once the IMEI has gone out, the server's first byte, if it comes before the deadline, decides: 1 takes the session to
   * phase 1, anything else ends it with the rejection as its only error.
   */
  lemma ServerDecides(now: u32, es: seq<Env>, b: byte, waitSec: u32)
    requires |es| >= 2 && es[0].loginSent && es[|es| - 1].recv == Byte(b)
    requires forall i :: 0 <= i < |es| - 1 ==> es[i].recv.Nothing? && es[i].later < GetTmr(es[0].now, waitSec)
    ensures var (t, log) := Run(Start(now, waitSec), es, waitSec);
      if b == 1 then log == [SentLogin, Granted] && t.faza == 1 && t.grant && t.err == {} && !t.vixod
      else log == [SentLogin] && t.faza == 0 && t.err == {RejectedError} && t.vixod
  {
    var s := Start(now, waitSec);
    var (t, log) := Step(s, es[0], waitSec);
    SendsLogin(s, es[0], waitSec);
    assert forall i :: 0 <= i < |es[1..]| ==> es[1..][i] == es[i + 1];
    hide Step;
    AnswerDecides(t, es[1..], b, waitSec);
  }

  lemma SendsLogin(s: State, e: Env, waitSec: u32)
    requires s.faza == 0 && s.first && !s.vixod && e.loginSent && e.recv.Nothing? && e.later < GetTmr(e.now, waitSec)
    ensures Step(s, e, waitSec) == (s.(first := false, waitAck := true, tmrAck := GetTmr(e.now, waitSec)), [SentLogin])
  {
    hide GetTmr;
  }

  /** A login that could not be sent, and a record that could not be sent, end the session with just that error. */
  lemma FailedSends(s: State, e: Env, waitSec: u32)
    requires Inv(s) && !s.vixod
    ensures s.faza == 0 && s.first && !e.loginSent && e.later < GetTmr(e.now, waitSec) ==>
      var (t, log) := Step(s, e, waitSec); t.vixod && t.err == {ImeiError} && log == []
    ensures s.faza == 2 && !s.waitAck && e.now >= s.tmrSend && e.built && !e.recordSent ==>
      var (t, log) := Step(s, e, waitSec); t.vixod && t.err == {SendError} && log == []
  {
    hide GetTmr, Accept;
  }

  /** The first pass of the data phase after the grant sends a record at once, if it can be built and sent. */
  lemma FirstRecord(s: State, e1: Env, e2: Env, waitSec: u32)
    requires Inv(s) && s.faza == 1 && !s.vixod && e2.now >= e1.now && e2.built && e2.recordSent
    ensures var t := Step(s, e1, waitSec).0; t.faza == 2 && Sends(t, e2, waitSec)
  {}

  /** How many samples: one more every 600 ticks, and one again after three. */
  lemma SampleCount(s: State, e: Env, waitSec: u32)
    requires Sends(s, e, waitSec) && 1 <= s.kolPack <= 3
    ensures var (t, log) := SendPart(s, e, waitSec); var n := if e.now < s.tmrTwo then s.kolPack else s.kolPack % 3 + 1;
      && log == [SentRecord(n)] && t.kolPack == n && t.tmrTwo == (if e.now < s.tmrTwo then s.tmrTwo else GetTmr(e.now, 600))
  {}

  /** An answered report request makes the next record due 20 ticks later, if the clock does not wrap. */
  lemma ReportBringsRecord(s: State, e: Env, later: Env, waitSec: u32)
    requires AnswersReport(s, e, waitSec) && e.now + 20 < 0x1_0000_0000
    ensures var t := Step(s, e, waitSec).0; t.tmrSend == e.now + 20 && t.faza == 2
    ensures var t := Step(s, e, waitSec).0; !t.vixod && !t.waitAck && later.built && later.recordSent ==>
      (Sends(t, later, waitSec) <==> later.now >= e.now + 20)
  {
    hide Accept;
  }

  // ----- what a session hears -----

  function Bytes(es: seq<Env>): seq<byte> {
    if es == [] then [] else (if es[0].recv.Byte? then [es[0].recv.b] else []) + Bytes(es[1..])
  }

  /** What the session logs for a unit it receives. */
  function Heard(us: seq<Unit>): seq<Act> {
    if us == [] then []
    else [if us[0].Ack? then GotAck else GotCommand(us[0].bytes)] + Heard(us[1..])
  }

  function Hearing(a: Act): seq<Act> { if a.GotAck? || a.GotCommand? then [a] else [] }

  function Hearings(log: seq<Act>): seq<Act> {
    if log == [] then [] else Hearing(log[0]) + Hearings(log[1..])
  }

  /** Every iteration is a live data iteration, and no record is sent while a unit is partly received. */
  ghost predicate Undisturbed(s: State, es: seq<Env>, waitSec: u32)
    decreases |es|
  {
    es != [] ==>
      && s.faza == 2 && !s.vixod
      && (SendPart(s, es[0], waitSec).1 != [] ==> s.kept == [])
      && !SendPart(s, es[0], waitSec).0.vixod
      && Undisturbed(Step(s, es[0], waitSec).0, es[1..], waitSec)
  }

  lemma {:induction false} HearingsCat(a: seq<Act>, b: seq<Act>)
    ensures Hearings(a + b) == Hearings(a) + Hearings(b)
    decreases |a|
  {
    hide Hearing;
    if a == [] {
      assert a + b == b;
    } else {
      assert (a + b)[0] == a[0] && (a + b)[1..] == a[1..] + b;
      HearingsCat(a[1..], b);
    }
  }

  lemma {:induction false} HeardCat(a: seq<Unit>, b: seq<Unit>)
    ensures Heard(a + b) == Heard(a) + Heard(b)
    decreases |a|
  {
    if a == [] {
      assert a + b == b;
    } else {
      assert (a + b)[0] == a[0] && (a + b)[1..] == a[1..] + b;
      HeardCat(a[1..], b);
    }
  }

  lemma HearingsShort(a: Act, b: Act)
    ensures Hearings([]) == []
    ensures Hearings([a]) == (if a.GotAck? || a.GotCommand? then [a] else [])
    ensures a.GotCommand? && b.SentReply? ==> Hearings([a, b]) == [a]
  {
    assert [a][1..] == [] && [a, b][1..] == [b] && [b][1..] == [];
  }

  lemma HeardShort(u: Unit)
    ensures Heard([]) == []
    ensures Heard([u]) == [if u.Ack? then GotAck else GotCommand(u.bytes)]
  {
    assert [u][1..] == [];
  }

  lemma SendPartIsQuiet(s: State, e: Env, waitSec: u32)
    requires SendPart(s, e, waitSec).1 != [] ==> s.kept == []
    ensures SendPart(s, e, waitSec).0.kept == s.kept && Hearings(SendPart(s, e, waitSec).1) == []
  {
    hide Hearings;
    HearingsShort(SentRecord(SendPart(s, e, waitSec).0.kolPack), GotAck);
  }

  lemma ReceivePartHears(s: State, e: Env)
    ensures var (t, log) := ReceivePart(s, e);
      if e.recv.Byte? then
        var (kept, u) := Accept(s.kept, e.recv.b);
        t.kept == kept && Hearings(log) == if u.None? then [] else Heard([u.value])
      else t.kept == s.kept && Hearings(log) == []
  {
    hide Hearings, Heard, Accept;
    HearingsShort(GotAck, GotAck);
    if e.recv.Byte? {
      var u := Accept(s.kept, e.recv.b).1;
      if u.Some? {
        HeardShort(u.value);
        HearingsShort(GotCommand(u.value.bytes), SentReply);
      }
    }
  }

  lemma StepHears(s: State, e: Env, waitSec: u32)
    requires s.faza == 2 && !s.vixod && !SendPart(s, e, waitSec).0.vixod
    requires SendPart(s, e, waitSec).1 != [] ==> s.kept == []
    ensures var (t, log) := Step(s, e, waitSec);
      if e.recv.Byte? then
        var (kept, u) := Accept(s.kept, e.recv.b);
        t.kept == kept && Hearings(log) == if u.None? then [] else Heard([u.value])
      else t.kept == s.kept && Hearings(log) == []
  {
    hide SendPart, ReceivePart, Hearings, Heard, Accept;
    SendPartIsQuiet(s, e, waitSec);
    var (t, log) := SendPart(s, e, waitSec);
    ReceivePartHears(t, e);
    HearingsCat(log, ReceivePart(t, e).1);
  }

  /** The acknowledgements and commands a session acts on are exactly the units in the bytes it received. */
  lemma {:induction false} SessionHearsStream(s: State, es: seq<Env>, waitSec: u32)
    requires Undisturbed(s, es, waitSec)
    ensures var (t, log) := Run(s, es, waitSec); var (rest, us) := Units(s.kept, Bytes(es));
      t.kept == rest && Hearings(log) == Heard(us)
    decreases |es|
  {
    hide Step, SendPart, Accept, Hearings, Heard;
    HearingsShort(GotAck, GotAck);
    HeardShort(Ack([]));
    if es != [] {
      var e := es[0];
      var (t, log) := Step(s, e, waitSec);
      StepHears(s, e, waitSec);
      SessionHearsStream(t, es[1..], waitSec);
      HearingsCat(log, Run(t, es[1..], waitSec).1);
      var more := Bytes(es[1..]);
      var us := Units(t.kept, more).1;
      if e.recv.Byte? {
        var b := e.recv.b;
        assert ([b] + more)[0] == b && ([b] + more)[1..] == more;
        var u := Accept(s.kept, b).1;
        if u.Some? { HeardCat([u.value], us); } else { assert [] + us == us && [] + Heard(us) == Heard(us); }
      } else {
        assert [] + more == more && [] + Heard(us) == Heard(us);
      }
    }
  }

  /** A session starts with one sample, the next count 600 ticks away, and nothing sent, heard or wrong. */
  lemma StartState(now: u32, waitSec: u32)
    ensures var s := Start(now, waitSec);
      && s.faza == 0 && s.first && !s.grant && !s.vixod && !s.waitAck && s.err == {} && s.kept == []
      && s.kolPack == 1 && s.tmrTwo == GetTmr(now, 600) && s.tmrAck == GetTmr(now, waitSec)
  {}
}
