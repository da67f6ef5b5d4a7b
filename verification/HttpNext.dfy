/** Whole messages from their first line on, and what a connection does behind one. */
module HttpNext {
  import opened Bytes
  import opened HttpTypes
  import opened HttpStep
  import opened HttpRun
  import opened HttpFeed
  import opened HttpMatchers
  import opened HttpSplit
  import opened HttpBody
  import opened HttpLength
  import opened HttpValues
  import opened HttpHead
  import opened HttpFirst
  import opened HttpUrlText

  /** What follows the headers: nothing, a body of known length, or chunks with their trailer lines */
  datatype Tail = Nothing | Sized(body: seq<Byte>) | Chunks(chunks: seq<Chunk>, last: Chunk, trailers: seq<Line>)
  {
    function Text(): seq<Byte> {
      match this
      case Nothing => []
      case Sized(body) => body
      case Chunks(chunks, last, trailers) => EncodeAll(chunks) + Ending(last, trailers)
    }
  }

  datatype Message = Message(first: FirstLine, lines: seq<Line>, tail: Tail)
  {
    function Text(): seq<Byte> {
      first.Text() + (LinesText(lines) + [CR] + ([LF] + tail.Text()))
    }
  }

  /** A response with this status code has no body. */
  predicate Bodiless(code: int) { 100 <= code < 200 || code == 204 || code == 304 }

  /** A message that tells where it ends, and asks for no other protocol */
  ghost predicate MessageOk(m: Message) {
    && FirstOk(m.first) && LinesOk(m.lines)
    && (m.first.RequestLine? ==> !m.first.mthd.CONNECT?)
    && var f, n := LinesFlags(NO_FLAGS, m.lines), LinesLength(NO_LENGTH, m.lines);
       && !(f.upgrade && f.connUpgrade)
       && match m.tail
          case Nothing => !f.chunked && n == NO_LENGTH && (m.first.RequestLine? || Bodiless(DecValue(0, m.first.code)))
          case Sized(body) => !f.chunked && n == |body| <= MAX_CONTENT
          case Chunks(chunks, last, trailers) =>
            f.chunked && DataChunks(chunks) && WellFormed(last) && last.payload == [] && LinesOk(trailers)
  }

  /** The flags at the end of a message that had flags f at the end of its headers */
  ghost function EndFlags(m: Message, f: Flags): Flags
    requires MessageOk(m)
  {
    if m.tail.Chunks? then LinesFlags(f.(trailing := true), m.tail.trailers) else f
  }

  /** The flags that all header and trailer lines of a message together set */
  ghost function AllFlags(m: Message): Flags
    requires MessageOk(m)
  {
    EndFlags(m, LinesFlags(NO_FLAGS, m.lines))
  }

  /** The connection persists behind the message: from version 1.1 on unless its lines say "close", before only if they
      say "keep-alive". */
  ghost predicate Stays(m: Message)
    requires MessageOk(m)
  {
    if DecValue(0, m.first.major) > 0 && DecValue(0, m.first.minor) > 0 then !AllFlags(m).close else AllFlags(m).keepAlive
  }

  function MessageTrace(t: seq<Event>, m: Message, c: Core): seq<Event> {
    var b := FirstTrace(t, m.first);
    match m.tail
    case Nothing => LengthTrace(b, m.lines, c, [])
    case Sized(body) => LengthTrace(b, m.lines, c, body)
    case Chunks(chunks, _, trailers) => HttpHead.ChunkedTrace(b, m.lines, c, chunks, trailers)
  }

  /** The user takes every message with its body. */
  ghost predicate Obliging(hc: HeadersCallback) { forall c :: hc(c) == 0 }

  /** Ready for this message */
  predicate Ready(s: Sys, m: Message) {
    Live(s) && StartsWith(s.core, m.first) && !s.core.mthd.CONNECT?
  }

  /** The end of headers without a length: the message is over if it tells where it ends, and otherwise goes on until the
      connection ends. */
  lemma PlainEnd(hc: HeadersCallback, u: Sys)
    requires Live(u) && u.core.state == Hdr(HeadersAlmostDone) && Ordinary(hc, u.core) && u.core.contentLength == NO_LENGTH
    requires u.obs.pending.Idle?
    ensures var t, c := StepSys(hc, u, LF), Headed(u.core);
            if OwnEnd(c)
            then t.obs == Obs(Push(Push(u.obs.trace, HeadersComplete(c)), MessageComplete), Idle) && t.used == u.used + 1 &&
                 !t.halted && t.core.errno == OK && Over(t.core, c)
            else t == Sys(c.(state := Msg(BodyIdentityEof)), Obs(Push(u.obs.trace, HeadersComplete(c)), Idle), false, u.used + 1)
  {
    var c := Headed(u.core);
    InvIndexed(u.core);
    assert StepHeader(hc, u.core, LF) == EndHeaders(hc, u.core, LF);
    EndsPlain(hc, u.core);
    assert PushAll(u.obs.trace, [HeadersComplete(c)]) == Push(u.obs.trace, HeadersComplete(c));
    PushTwo(u.obs.trace, HeadersComplete(c), MessageComplete);
    hide StepHeader, EndHeaders, Inv;
  }

  lemma EndsPlain(hc: HeadersCallback, c: Core)
    requires Ordinary(hc, c) && c.contentLength == NO_LENGTH && c.statusCode >= 0
    ensures var c2 := Headed(c);
            EndHeaders(hc, c, LF) ==
            if OwnEnd(c2) then Out(c2.(state := NextState(c2)), QUIET.(notes := [HeadersComplete(c2), MessageComplete]), Go, true)
            else Out(c2.(state := Msg(BodyIdentityEof)), NoteOf(HeadersComplete(c2)), Go, true)
  {
    NextIs(Headed(c));
    assert [HeadersComplete(Headed(c))] + [MessageComplete] == [HeadersComplete(Headed(c)), MessageComplete];
    assert [HeadersComplete(Headed(c))] + [] == [HeadersComplete(Headed(c))];
  }

  /** The headers of a message: first line, lines and CR */
  lemma HeadRead(hc: HeadersCallback, s: Sys, m: Message) returns (u: Sys)
    requires Ready(s, m) && MessageOk(m) && Obliging(hc)
    ensures u == Feed(hc, s, m.first.Text() + (LinesText(m.lines) + [CR])) && Live(u) && u.core.state == Hdr(HeadersAlmostDone)
    ensures u.obs == Obs(LinesTrace(FirstTrace(s.obs.trace, m.first), m.lines), Idle)
    ensures u.used == s.used + |m.first.Text()| + |LinesText(m.lines)| + 1
    ensures Headlike(u.core, FirstCore(s.core, m.first).(state := Hdr(HeaderFieldStart)), LinesFlags(NO_FLAGS, m.lines), LinesLength(NO_LENGTH, m.lines))
    ensures if m.tail.Chunks? then Coming(hc, u.core) else Ordinary(hc, u.core)
    ensures !Headed(u.core).upgrade
  {
    hide Feed, StepSys, Inv, MarkFits, LinesText, LinesTrace, LinesFlags, LinesLength, FirstTrace, FirstOk, FirstLine.Text, Coming, Ordinary;
    FirstLineRead(hc, s, m.first);
    var t := Feed(hc, s, m.first.Text());
    SectionRead(hc, t, m.lines);
    HeadDecides(hc, t, m.lines);
    FeedAppend(hc, s, m.first.Text(), LinesText(m.lines) + [CR]);
    LinesKeep(NO_FLAGS, m.lines);
    u := HttpHead.AtEnd(hc, t, m.lines);
  }

  /** What the user is shown at the end of the headers of m */
  ghost predicate Shown(m: Message, c: Core)
    requires MessageOk(m)
  {
    && c.major == DecValue(0, m.first.major) && c.minor == DecValue(0, m.first.minor)
    && (m.first.RequestLine? ==> c.mthd == m.first.mthd) && (m.first.StatusLine? ==> c.statusCode == DecValue(0, m.first.code))
    && c.flags == LinesFlags(NO_FLAGS, m.lines) && c.contentLength == LinesLength(NO_LENGTH, m.lines)
    && c.messageType == (if m.first.RequestLine? then Request else Response)
  }

  lemma ShownAtEnd(s: Sys, u: Core, m: Message)
    requires MessageOk(m) && StartsWith(s.core, m.first)
    requires Headlike(u, FirstCore(s.core, m.first).(state := Hdr(HeaderFieldStart)), LinesFlags(NO_FLAGS, m.lines), LinesLength(NO_LENGTH, m.lines))
    ensures Shown(m, Headed(u)) && (m.first.StatusLine? ==> Headed(u).mthd == s.core.mthd)
  {
    hide LinesFlags, LinesLength, DecValue;
  }

  /** A message that tells where it ends persists as its lines say. */
  lemma NextByText(m: Message, c: Core)
    requires MessageOk(m) && Shown(m, c)
    ensures NextState(c.(flags := EndFlags(m, c.flags))) ==
            if !Stays(m) then Res(Dead) else if m.first.RequestLine? then Req(StartReq) else Res(StartRes)
  {
    hide LinesLength, DecValue, FirstOk, DataChunks, WellFormed;
    if m.tail.Chunks? { LinesKeep(c.flags.(trailing := true), m.tail.trailers); }
  }

  /** A whole message is delivered, and the parser is then ready for another one if and only if the connection persists;
      otherwise it is closed. */
  lemma OneMessage(hc: HeadersCallback, s: Sys, m: Message) returns (c: Core)
    requires Ready(s, m) && MessageOk(m) && Obliging(hc)
    ensures Shown(m, c)
    ensures var r := Feed(hc, s, m.Text());
            && Live(r) && r.obs == Obs(MessageTrace(s.obs.trace, m, c), Idle) && r.used == s.used + |m.Text()|
            && r.core.state == (if Stays(m) then s.core.state else Res(Dead)) && r.core.messageType == s.core.messageType
            && !r.core.mthd.CONNECT?
  {
    hide Feed, StepSys, Inv, MarkFits, LinesText, LinesTrace, LinesFlags, LinesLength, FirstTrace, FirstLine.Text, Coming, Ordinary, MessageOk,
         NextState, Shown, Stays, Headed, EncodeAll, Ending, Obliging, Headlike, MessageTrace, Ready, DataChunks, WellFormed, EndFlags;
    var u := HeadRead(hc, s, m);
    c := Headed(u.core);
    ShownAtEnd(s, u.core, m) by { StartOf(s, m); }
    NextByText(m, c);
    StartOf(s, m);
    TailRead(hc, s, m, u);
    KindOf(s, m, c);
    var head := m.first.Text() + (LinesText(m.lines) + [CR]);
    assert m.Text() == head + ([LF] + m.tail.Text());
    FeedAppend(hc, s, head, [LF] + m.tail.Text());
    OverIs(Feed(hc, u, [LF] + m.tail.Text()).core, c, EndFlags(m, c.flags));
  }

  lemma StartOf(s: Sys, m: Message)
    requires Ready(s, m)
    ensures Live(s) && StartsWith(s.core, m.first) && !s.core.mthd.CONNECT?
    ensures s.core.state == (if m.first.RequestLine? then Req(StartReq) else Res(StartRes))
    ensures s.core.messageType == (if m.first.RequestLine? then Request else Response)
  {
  }

  lemma KindOf(s: Sys, m: Message, c: Core)
    requires MessageOk(m) && Shown(m, c)
    ensures c.messageType == (if m.first.RequestLine? then Request else Response)
    ensures m.first.RequestLine? ==> c.mthd == m.first.mthd && !m.first.mthd.CONNECT?
  {
    hide LinesLength, LinesFlags, DecValue, FirstOk, DataChunks, WellFormed;
  }

  lemma OverIs(r: Core, c: Core, f: Flags)
    requires Over(r, c.(flags := f))
    ensures r.messageType == c.messageType && r.mthd == c.mthd
  {
  }

  /** The end of the headers, and the body */
  lemma TailRead(hc: HeadersCallback, s: Sys, m: Message, u: Sys)
    requires MessageOk(m) && Live(u) && u.core.state == Hdr(HeadersAlmostDone) && u.obs == Obs(LinesTrace(FirstTrace(s.obs.trace, m.first), m.lines), Idle)
    requires if m.tail.Chunks? then Coming(hc, u.core) else Ordinary(hc, u.core)
    requires Shown(m, Headed(u.core)) && !Headed(u.core).upgrade
    ensures var r, c := Feed(hc, u, [LF] + m.tail.Text()), Headed(u.core);
            && !r.halted && r.core.errno == OK && r.obs == Obs(MessageTrace(s.obs.trace, m, c), Idle)
            && r.used == u.used + 1 + |m.tail.Text()| && Over(r.core, c.(flags := EndFlags(m, c.flags)))
  {
    hide Feed, StepSys, Inv, MarkFits, LinesText, LinesTrace, LinesFlags, LinesLength, FirstTrace, FirstOk, FirstLine.Text, Coming, Ordinary,
         EncodeAll, Ending, DataChunks, WellFormed, Over, ChunksTrace;
    var c := Headed(u.core);
    assert c.(flags := c.flags) == c;
    match m.tail
    case Nothing =>
      HeadedSame(u.core);
      PlainEnd(hc, u);
      One(hc, u, LF);
      assert [LF] + [] == [LF];
    case Sized(body) =>
      HeadedSame(u.core);
      BodyAfter(hc, u, body);
    case Chunks(chunks, last, trailers) =>
      ChunksAfter(hc, u, chunks, last, trailers);
  }

  lemma HeadedSame(c: Core)
    ensures Headed(c).contentLength == c.contentLength && Headed(c).flags == c.flags
  {
  }

  // ----- one message behind the other -----

  function TextOf(ms: seq<Message>): seq<Byte>
    decreases |ms|
  {
    if ms == [] then [] else ms[0].Text() + TextOf(ms[1..])
  }

  function TraceOf(t: seq<Event>, ms: seq<Message>, cs: seq<Core>): seq<Event>
    requires |cs| == |ms|
    decreases |ms|
  {
    if ms == [] then t else TraceOf(MessageTrace(t, ms[0], cs[0]), ms[1..], cs[1..])
  }

  ghost predicate AllOk(ms: seq<Message>) { forall i :: 0 <= i < |ms| ==> MessageOk(ms[i]) }

  /** How many messages of ms get through: all up to the first one behind which the connection does not persist */
  ghost function Accepted(ms: seq<Message>): (k: nat)
    requires AllOk(ms)
    ensures k <= |ms|
    decreases |ms|
  {
    if ms == [] then 0 else if Stays(ms[0]) then 1 + Accepted(ms[1..]) else 1
  }

  /** Behind a message that ends the connection any message is refused at its first byte. */
  lemma Closed(hc: HeadersCallback, s: Sys, m: Message, rest: seq<Byte>)
    requires Live(s) && s.core.state == Res(Dead) && MessageOk(m)
    ensures var r := Feed(hc, s, m.Text() + rest);
            r.halted && r.core.errno == ClosedConnection && r.obs == s.obs && r.used == s.used
  {
    hide LinesText, LinesFlags, LinesLength, FirstLine.Text, MessageOk;
    var b := m.Text() + rest;
    TextBegins(m);
    assert b[0] == m.first.Text()[0];
    ClosedByte(hc, s, b[0]);
    hide StepSys, Inv, MarkFits;
  }

  lemma TextBegins(m: Message)
    requires MessageOk(m)
    ensures m.first.Text() != [] && m.first.Text()[0] != CR && m.first.Text()[0] != LF
  {
    hide LinesFlags, LinesLength, RequestUrl, IsNumber, DecValue, DataChunks, WellFormed;
    if m.first.RequestLine? {
      WordPlain(m.first.mthd, m.first.word);
      assert m.first.Text()[0] == m.first.word[0];
    } else {
      assert m.first.Text()[0] == HTTP[0];
    }
  }

  lemma ClosedByte(hc: HeadersCallback, s: Sys, ch: Byte)
    requires Live(s) && s.core.state == Res(Dead) && ch != CR && ch != LF
    ensures StepSys(hc, s, ch) == s.(core := s.core.(errno := ClosedConnection), halted := true)
  {
    assert s.core.index >= 0;
    assert Step(hc, s.core, ch) == Err(s.core, ClosedConnection);
    hide Step, Inv, MarkFits;
  }

  /** Messages in one stretch of input: they are delivered one after the other up to the first one behind which the
      connection does not persist, and the next one is refused. */
  lemma {:induction false} Pipeline(hc: HeadersCallback, s: Sys, ms: seq<Message>) returns (cs: seq<Core>)
    requires Live(s) && AllOk(ms) && Obliging(hc) && forall i :: 0 <= i < |ms| ==> Ready(s, ms[i])
    requires s.obs.pending.Idle?
    ensures var k := Accepted(ms);
            && |cs| == k && (forall i :: 0 <= i < k ==> Shown(ms[i], cs[i]))
            && var r := Feed(hc, s, TextOf(ms));
               && r.obs == Obs(TraceOf(s.obs.trace, ms[..k], cs), Idle) && r.used == s.used + |TextOf(ms[..k])|
               && (if k < |ms| then r.halted && r.core.errno == ClosedConnection else !r.halted && r.core.errno == OK)
    decreases |ms|
  {
    hide Feed, StepSys, Inv, MarkFits, MessageOk, Shown, Stays, Obliging, MessageTrace, Message.Text, Ready;
    if ms == [] {
      cs := [];
      NoText(hc, s);
    } else {
      var m, rest := ms[0], ms[1..];
      assert forall i :: 0 <= i < |rest| ==> rest[i] == ms[i + 1];
      var c := OneMessage(hc, s, m);
      var r := Feed(hc, s, m.Text());
      FeedAppend(hc, s, m.Text(), TextOf(rest)) by { StartOf(s, m); }
      if Stays(m) {
        forall i | 0 <= i < |rest| ensures Ready(r, rest[i]) { ReadyAgain(s, r, rest[i]); }
        var more := Pipeline(hc, r, rest);
        cs := [c] + more;
        assert ms[..Accepted(ms)][1..] == rest[..Accepted(rest)] && cs[1..] == more;
        assert forall i :: 0 < i < |cs| ==> cs[i] == more[i - 1] && ms[i] == rest[i - 1];
      } else {
        cs := [c];
        assert ms[..1] == [m] && [m][1..] == [] && cs[1..] == [] && TextOf([m]) == m.Text() + [] == m.Text();
        if rest == [] { NoText(hc, r); } else { Closed(hc, r, rest[0], TextOf(rest[1..])); }
      }
    }
  }

  lemma NoText(hc: HeadersCallback, s: Sys)
    requires Live(s)
    ensures Feed(hc, s, TextOf([])) == s && s.core.errno == OK && !s.halted
  {
  }

  lemma ReadyAgain(s: Sys, r: Sys, m: Message)
    requires Ready(s, m) && Live(r) && r.core.state == s.core.state && r.core.messageType == s.core.messageType && !r.core.mthd.CONNECT?
    ensures Ready(r, m)
  {
  }

  /** Two messages: both are delivered, or the second is refused at its first byte, as the first one tells. */
  lemma TwoMessages(hc: HeadersCallback, s: Sys, m: Message, n: Message) returns (c: Core, d: Core)
    requires Ready(s, m) && Ready(s, n) && MessageOk(m) && MessageOk(n) && Obliging(hc) && s.obs.pending.Idle?
    ensures Shown(m, c)
    ensures var r := Feed(hc, s, m.Text() + n.Text());
            if Stays(m)
            then !r.halted && r.core.errno == OK && r.used == s.used + |m.Text() + n.Text()| && Shown(n, d) &&
                 r.obs == Obs(MessageTrace(MessageTrace(s.obs.trace, m, c), n, d), Idle)
            else r.halted && r.core.errno == ClosedConnection && r.used == s.used + |m.Text()| &&
                 r.obs == Obs(MessageTrace(s.obs.trace, m, c), Idle)
  {
    hide Feed, StepSys, Inv, MarkFits, MessageOk, Shown, Stays, Obliging, MessageTrace, Message.Text, Ready;
    StartOf(s, m);
    c := OneMessage(hc, s, m);
    d := c;
    var r := Feed(hc, s, m.Text());
    FeedAppend(hc, s, m.Text(), n.Text());
    if Stays(m) {
      ReadyAgain(s, r, n);
      d := OneMessage(hc, r, n);
    } else {
      Closed(hc, r, n, []);
      assert n.Text() + [] == n.Text();
    }
  }

  /** However the input is cut: if every message but the last one persists, all are delivered. */
  lemma PipelineInPieces(hc: HeadersCallback, x: Conn, ms: seq<Message>, pieces: seq<seq<Byte>>) returns (cs: seq<Core>)
    requires Usable(x) && AllOk(ms) && Obliging(hc) && ms != [] && Accepted(ms) == |ms|
    requires Live(Enter(x)) && forall i :: 0 <= i < |ms| ==> Ready(Enter(x), ms[i])
    requires pieces != [] && (forall i :: 0 <= i < |pieces| ==> pieces[i] != []) && Concat(pieces) == TextOf(ms)
    ensures |cs| == |ms| && forall i :: 0 <= i < |ms| ==> Shown(ms[i], cs[i])
    ensures CallAll(hc, x, pieces) == Call(hc, x, TextOf(ms)) && CallAll(hc, x, pieces).trace == TraceOf(x.trace, ms, cs)
  {
    hide Feed, StepSys, Inv, MarkFits, MessageOk, Shown, Stays, Obliging, MessageTrace, Message.Text, Ready, CallAll;
    StartOf(Enter(x), ms[0]);
    AtStart(x, ms[0]);
    cs := Pipeline(hc, Enter(x), ms);
    assert ms[..|ms|] == ms;
    AnyCuts(hc, x, pieces);
  }

  lemma AtStart(x: Conn, m: Message)
    requires Ready(Enter(x), m)
    ensures Enter(x).obs.pending.Idle?
  {
  }

  lemma OneDigit(d: Byte)
    requires IsNum(d)
    ensures IsLengthText([d]) && DecValue(0, [d]) == d - 48
  {
    assert [d][1..] == [];
    assert DecValue(d - 48, []) == d - 48;
  }

  /** A request with version 1.1 and no header lines persists, one with version 1.0 does not. */
  lemma PlainRequests(url: seq<Byte>, minor: Byte)
    requires RequestUrl(GET, url) && IsNum(minor)
    ensures var m := Message(RequestLine(GET, [71, 69, 84], url, [49], [minor]), [], Nothing);
            MessageOk(m) && (Stays(m) <==> minor != '0' as int)
  {
    hide RequestUrl;
    OneDigit(49);
    OneDigit(minor);
    var word: seq<Byte> := [71, 69, 84];
    assert IsWord(GET, word);
    var one: seq<Byte> := [49];
    assert IsNumber(one) && IsNumber([minor]);
  }

  /** `GET /a HTTP/1.1` and `GET /b HTTP/1.1` in one stretch of input are both delivered to a fresh parser. */
  lemma TwoGets(hc: HeadersCallback, minor: Byte) returns (c: Core, d: Core)
    requires Obliging(hc) && IsNum(minor)
    ensures var m := Message(RequestLine(GET, [71, 69, 84], [47, 97], [49], [minor]), [], Nothing);
            var n := Message(RequestLine(GET, [71, 69, 84], [47, 98], [49], [minor]), [], Nothing);
            var s := Enter(Conn(InitCore(Request), []));
            && MessageOk(m) && MessageOk(n) && Live(s)
            && var r := Feed(hc, s, m.Text() + n.Text());
               if minor != '0' as int then !r.halted && r.obs.trace == MessageTrace(MessageTrace([], m, c), n, d)
               else r.halted && r.core.errno == ClosedConnection && r.obs.trace == MessageTrace([], m, c)
  {
    hide Feed, StepSys, MessageTrace, Message.Text, Stays, MessageOk, RequestUrl;
    SmallUrl(97);
    SmallUrl(98);
    PlainRequests([47, 97], minor);
    PlainRequests([47, 98], minor);
    EnterLive(Conn(InitCore(Request), []));
    var m := Message(RequestLine(GET, [71, 69, 84], [47, 97], [49], [minor]), [], Nothing);
    var n := Message(RequestLine(GET, [71, 69, 84], [47, 98], [49], [minor]), [], Nothing);
    c, d := TwoMessages(hc, Enter(Conn(InitCore(Request), [])), m, n);
  }

  lemma SmallUrl(letter: Byte)
    requires IsAlpha(letter)
    ensures RequestUrl(GET, [47, letter])
  {
  }
}
