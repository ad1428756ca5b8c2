/** Server replies (section 4.2 of RFC 959) and the client's way of reading one. */
module FtpReply {
  import opened Words
  import opened FtpText

  const RESPONSE_SIZE: nat := 1024
  const SP: byte := 32
  const DASH: byte := 45

  // ----- the client's reading -----

  datatype Read = Got(line: seq<byte>, rest: seq<byte>) | Lost

  predicate HasLine(s: seq<byte>, broken: bool) {
    s != [] && (s[LineEnd(s) - 1] == LF || !broken)
  }

  predicate IsMulti(line: seq<byte>) {
    |line| > 3 && line[3] == DASH
  }

  /** One line, or, when its fourth character is a dash, all lines up to one that starts with the same code and a space. */
  function ReadReply(s: seq<byte>, broken: bool): Read {
    if !HasLine(s, broken) then Lost
    else
      var line, rest := Line(s), s[LineEnd(s)..];
      if IsMulti(line) then ReadUntil(rest, line[..3] + [SP], broken) else Got(line, rest)
  }

  function ReadUntil(s: seq<byte>, mark: seq<byte>, broken: bool): Read {
    if !HasLine(s, broken) then Lost
    else
      var line, rest := Line(s), s[LineEnd(s)..];
      if mark <= line then Got(line, rest) else ReadUntil(rest, mark, broken)
  }

  /** The lines that make the reply fit the response buffer, and the first is long enough to hold a code. */
  ghost predicate ReplyFits(s: seq<byte>) {
    s != [] ==>
      && LineFits(s, RESPONSE_SIZE) && |Line(s)| >= 3
      && (IsMulti(Line(s)) ==> 0 !in Line(s)[..3] && UntilFits(s[LineEnd(s)..], Line(s)[..3] + [SP]))
  }

  ghost predicate UntilFits(s: seq<byte>, mark: seq<byte>) {
    s != [] ==> LineFits(s, RESPONSE_SIZE) && (mark <= Line(s) || UntilFits(s[LineEnd(s)..], mark))
  }

  // ----- the server's writing -----

  datatype Reply =
    | Single(code: seq<byte>, text: seq<byte>)
    | Multi(code: seq<byte>, head: seq<byte>, middle: seq<seq<byte>>, text: seq<byte>)
  {
    /** The line that ends the reply, as the client keeps it. */
    function Last(): seq<byte> {
      code + [SP] + text
    }

    predicate Valid() {
      && |code| == 3 && TextOk(Last())
      && (Multi? ==> TextOk(code + [DASH] + head) && forall m :: m in middle ==> TextOk(m))
    }

    /** No line in the middle of the reply looks like its end. */
    predicate Unambiguous() {
      Multi? ==> forall m :: m in middle ==> !(code + [SP] <= m)
    }
  }

  predicate TextOk(t: seq<byte>) {
    LF !in t && 0 !in t && |t| + 2 < RESPONSE_SIZE
  }

  function Terminated(t: seq<byte>): seq<byte> {
    t + [CR, LF]
  }

  function Encode(r: Reply): seq<byte> {
    match r
    case Single(_, _) => Terminated(r.Last())
    case Multi(code, head, middle, _) =>
      Terminated(code + [DASH] + head) + EncodeLines(middle) + Terminated(r.Last())
  }

  function EncodeLines(ls: seq<seq<byte>>): seq<byte> {
    if ls == [] then [] else Terminated(ls[0]) + EncodeLines(ls[1..])
  }

  function EncodeAll(rs: seq<Reply>): seq<byte> {
    if rs == [] then [] else Encode(rs[0]) + EncodeAll(rs[1..])
  }

  // ----- the client reads what the server wrote -----

  lemma TerminatedLine(t: seq<byte>, rest: seq<byte>, broken: bool)
    requires TextOk(t)
    ensures var s := Terminated(t) + rest;
      && HasLine(s, broken) && Line(s) == t + [LF] && s[LineEnd(s)..] == rest && LineFits(s, RESPONSE_SIZE)
  {
    LineOfConverted(t, rest);
  }

  /** The position of the first line that a reply's reader takes for its end. */
  function FirstMark(ls: seq<seq<byte>>, mark: seq<byte>): (i: nat)
    ensures i <= |ls|
    ensures i < |ls| ==> mark <= ls[i]
    ensures forall j :: 0 <= j < i ==> !(mark <= ls[j])
  {
    if ls == [] || mark <= ls[0] then 0 else 1 + FirstMark(ls[1..], mark)
  }

  lemma MarkInLine(mark: seq<byte>, t: seq<byte>)
    requires mark != [] && mark[|mark| - 1] != LF
    ensures mark <= t + [LF] <==> mark <= t
  {
    if mark <= t + [LF] {
      assert mark[|mark| - 1] == (t + [LF])[|mark| - 1];
      assert t == (t + [LF])[..|t|];
    }
  }

  /** Reading stops at the first marked line, or at the line after all of them. */
  lemma {:induction false} ReadUntilMark(ls: seq<seq<byte>>, last: seq<byte>, mark: seq<byte>, rest: seq<byte>, broken: bool)
    requires mark != [] && mark[|mark| - 1] != LF && mark <= last && TextOk(last) && forall m :: m in ls ==> TextOk(m)
    ensures var s := EncodeLines(ls) + Terminated(last) + rest;
      var i := FirstMark(ls, mark);
      && UntilFits(s, mark)
      && ReadUntil(s, mark, broken)
         == if i == |ls| then Got(last + [LF], rest)
            else Got(ls[i] + [LF], EncodeLines(ls[i + 1..]) + Terminated(last) + rest)
    decreases |ls|
  {
    hide LineFits, LineEnd, Line, HasLine, TextOk, Terminated, ReadUntil, UntilFits;
    var s := EncodeLines(ls) + Terminated(last) + rest;
    if ls == [] {
      assert s == Terminated(last) + rest;
      ReadOneLine(last, rest, mark, broken);
    } else {
      var tail := EncodeLines(ls[1..]) + Terminated(last) + rest;
      assert s == Terminated(ls[0]) + tail;
      assert ls[0] in ls && forall m :: m in ls[1..] ==> m in ls;
      ReadUntilMark(ls[1..], last, mark, rest, broken);
      ReadOneLine(ls[0], tail, mark, broken);
      var i := FirstMark(ls[1..], mark);
      if i < |ls[1..]| { assert ls[1..][i + 1..] == ls[i + 2..]; }
    }
  }

  lemma ReadOneLine(t: seq<byte>, rest: seq<byte>, mark: seq<byte>, broken: bool)
    requires TextOk(t) && mark != [] && mark[|mark| - 1] != LF
    ensures var s := Terminated(t) + rest;
      && (UntilFits(s, mark) <==> mark <= t || UntilFits(rest, mark))
      && ReadUntil(s, mark, broken) == if mark <= t then Got(t + [LF], rest) else ReadUntil(rest, mark, broken)
  {
    TerminatedLine(t, rest, broken);
    NonEmptyLine(t, rest);
    MarkInLine(mark, t);
  }

  lemma NonEmptyLine(t: seq<byte>, rest: seq<byte>)
    ensures Terminated(t) + rest != []
  {}

  /** Where the client stops reading a reply: at its end, unless a line in its middle looks like the end. */
  lemma ReadEncoded(r: Reply, rest: seq<byte>, broken: bool)
    requires r.Valid()
    ensures var s := Encode(r) + rest;
      && ReplyFits(s)
      && ReadReply(s, broken) ==
         if r.Single? || FirstMark(r.middle, r.code + [SP]) == |r.middle| then Got(r.Last() + [LF], rest)
         else
           var i := FirstMark(r.middle, r.code + [SP]);
           Got(r.middle[i] + [LF], EncodeLines(r.middle[i + 1..]) + Terminated(r.Last()) + rest)
  {
    hide LineFits, LineEnd, Line, HasLine, Terminated, FirstMark, UntilFits, ReadUntil, EncodeLines;
    if r.Single? {
      TerminatedLine(r.Last(), rest, broken);
      assert !IsMulti(r.Last() + [LF]);
    } else {
      var first, mark := r.code + [DASH] + r.head, r.code + [SP];
      var tail := EncodeLines(r.middle) + Terminated(r.Last()) + rest;
      assert Encode(r) + rest == Terminated(first) + tail;
      TerminatedLine(first, tail, broken);
      assert IsMulti(first + [LF]) && (first + [LF])[..3] == r.code;
      ReadUntilMark(r.middle, r.Last(), mark, rest, broken);
    }
  }

  /** Exactly the reply is read, and its last line kept, if and only if no line in its middle starts with code and space. */
  lemma OneReplyIsRead(r: Reply, rest: seq<byte>, broken: bool)
    requires r.Valid()
    ensures ReadReply(Encode(r) + rest, broken) == Got(r.Last() + [LF], rest) <==> r.Unambiguous()
    ensures ReplyFits(Encode(r) + rest)
  {
    hide Reply.Valid, ReadReply, Encode, Terminated, EncodeLines, FirstMark, ReplyFits, Reply.Unambiguous;
    ReadEncoded(r, rest, broken);
    NoFirstMark(r);
    if !r.Unambiguous() {
      var i := FirstMark(r.middle, r.code + [SP]);
      TerminatedLength(r.Last());
      assert |EncodeLines(r.middle[i + 1..]) + Terminated(r.Last()) + rest| > |rest|;
    }
  }

  lemma TerminatedLength(t: seq<byte>)
    ensures |Terminated(t)| == |t| + 2
  {}

  lemma NoFirstMark(r: Reply)
    ensures r.Unambiguous() <==> r.Single? || FirstMark(r.middle, r.code + [SP]) == |r.middle|
  {
    if r.Multi? {
      var i := FirstMark(r.middle, r.code + [SP]);
      if i < |r.middle| { assert r.middle[i] in r.middle; }
    }
  }
}
