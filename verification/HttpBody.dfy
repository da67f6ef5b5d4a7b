/** Message bodies: how long a length field is taken to be, and which bytes reach on_body.
    The standard is RFC 2616, section 3.6.1 (chunked coding) and section 4.4 (message length). */
module HttpBody {
  import opened Bytes
  import opened HttpTypes
  import opened HttpStep
  import opened HttpRun
  import opened HttpFeed
  import opened HttpSplit

  // ----- length arithmetic -----

  /** The largest chunk size that is accepted. */
  const MAX_CHUNK: int := NO_LENGTH - 16

  /** The largest Content-Length that is accepted. */
  const MAX_CONTENT: int := NO_LENGTH - 6

  const DIGITS := "0123456789abcdef"
  const CAPITALS := "0123456789ABCDEF"

  /** The unhex table knows the digits and their values. */
  lemma UnhexExactly(c: Byte)
    ensures Unhex(c) == -1 || (0 <= Unhex(c) < 16 && (DIGITS[Unhex(c)] as int == c || CAPITALS[Unhex(c)] as int == c))
    ensures forall k :: 0 <= k < 16 && (DIGITS[k] as int == c || CAPITALS[k] as int == c) ==> Unhex(c) == k
  {
  }

  predicate IsHexString(s: seq<Byte>) { forall i :: 0 <= i < |s| ==> Unhex(s[i]) != -1 }

  /** The number written acc in front of the hex digits s. */
  function HexValue(acc: nat, s: seq<Byte>): (v: nat)
    requires IsHexString(s)
    ensures v >= acc
    decreases |s|
  {
    if s == [] then acc else HexValue(acc * 16 + Unhex(s[0]), s[1..])
  }

  predicate IsLengthText(s: seq<Byte>) { forall i :: 0 <= i < |s| ==> IsNum(s[i]) || s[i] == SP }

  /** The number written acc in front of the decimal digits of s; spaces do not count. */
  function DecValue(acc: nat, s: seq<Byte>): (v: nat)
    requires IsLengthText(s)
    ensures v >= acc
    decreases |s|
  {
    if s == [] then acc
    else if s[0] == SP then DecValue(acc, s[1..])
    else DecValue(acc * 10 + (s[0] - 48), s[1..])
  }

  lemma FullExactly(length: nat, d: nat)
    ensures d < 16 ==> (LengthFull(length, 16) <==> length * 16 + d > MAX_CHUNK)
    ensures d < 10 ==> (LengthFull(length, 10) <==> length * 10 + d > MAX_CONTENT)
  {
  }

  /** A byte that is accepted without any call while no mark is open. */
  lemma SilentByte(hc: HeadersCallback, s: Sys, ch: Byte, c: Core)
    requires Live(s) && s.obs.pending.Idle? && s.core.state.Msg?
    requires StepBody(s.core, ch).core == c && StepBody(s.core, ch).calls == QUIET
    requires StepBody(s.core, ch).verdict.Go?
    ensures StepSys(hc, s, ch) == s.(core := c, used := s.used + 1) && Live(StepSys(hc, s, ch))
    ensures Feed(hc, s, [ch]) == s.(core := c, used := s.used + 1)
  {
    assert Good(s) && s.core.index >= 0;
    hide StepBody, Live, Inv;
    assert Feed(hc, s, [ch]) == Feed(hc, StepSys(hc, s, ch), []);
  }

  lemma NoMark(s: Sys)
    requires Live(s)
    requires s.core.state.Msg? && (s.core.state.msg.ChunkSizeStart? || s.core.state.msg.ChunkSize? ||
             s.core.state.msg.ChunkParameters? || s.core.state.msg.ChunkSizeAlmostDone? || s.core.state.msg.ChunkDataDone?)
    ensures s.obs.pending.Idle? && s.core.index >= 0 && s.core.flags.chunked
  {
  }

  /** Hex digits of a chunk size: accepted exactly up to MAX_CHUNK, with their value. */
  lemma {:induction false} FeedHex(hc: HeadersCallback, s: Sys, digits: seq<Byte>)
    requires Live(s) && s.core.state == Msg(ChunkSize) && IsHexString(digits)
    requires s.core.contentLength <= MAX_CHUNK
    ensures var v := HexValue(s.core.contentLength, digits);
            var r := Feed(hc, s, digits);
            if v <= MAX_CHUNK
            then r == s.(core := s.core.(contentLength := v), used := s.used + |digits|)
            else r.halted && r.core.errno == InvalidContentLength && r.obs == s.obs
    decreases |digits|
  {
    hide StepSys, Inv, MarkFits, LengthFull, Unhex;
    InsideSize(s);
    if digits != [] {
      var d := digits[0];
      HexDigit(hc, s, d);
      var t := StepSys(hc, s, d);
      assert Feed(hc, s, digits) == Feed(hc, t, digits[1..]);
      if !LengthFull(s.core.contentLength, 16) {
        FeedHex(hc, t, digits[1..]);
      }
    }
  }

  lemma InsideSize(s: Sys)
    requires Live(s)
    ensures s.core.contentLength >= 0
  {
  }

  lemma HexDigit(hc: HeadersCallback, s: Sys, d: Byte)
    requires Live(s) && s.core.state == Msg(ChunkSize) && Unhex(d) != -1
    ensures 0 <= Unhex(d) < 16 && Good(s) && Good(StepSys(hc, s, d)) && s.core.contentLength >= 0
    ensures LengthFull(s.core.contentLength, 16) <==> s.core.contentLength * 16 + Unhex(d) > MAX_CHUNK
    ensures LengthFull(s.core.contentLength, 16) ==>
              StepSys(hc, s, d).halted && StepSys(hc, s, d).core.errno == InvalidContentLength &&
              StepSys(hc, s, d).obs == s.obs
    ensures !LengthFull(s.core.contentLength, 16) ==>
              StepSys(hc, s, d) ==
              s.(core := s.core.(contentLength := s.core.contentLength * 16 + Unhex(d)), used := s.used + 1)
  {
    NoMark(s);
    InsideSize(s);
    hide Inv;
    FullExactly(s.core.contentLength, Unhex(d));
  }

  /** A chunk-size line is read to the value of all its digits, or refused because that value is
      above MAX_CHUNK: never wrapped, and never the marker value. */
  lemma ChunkSizeExact(hc: HeadersCallback, s: Sys, digits: seq<Byte>)
    requires Live(s) && s.core.state == Msg(ChunkSizeStart) && digits != [] && IsHexString(digits)
    ensures var v := HexValue(0, digits);
            var r := Feed(hc, s, digits);
            if v <= MAX_CHUNK
            then r == s.(core := s.core.(state := Msg(ChunkSize), contentLength := v), used := s.used + |digits|)
            else r.halted && r.core.errno == InvalidContentLength && r.obs == s.obs
  {
    hide StepSys, Inv, MarkFits;
    assert Unhex(digits[0]) != -1;
    var c := s.core.(state := Msg(ChunkSize), contentLength := Unhex(digits[0]));
    NoMark(s);
    SilentByte(hc, s, digits[0], c);
    FeedHex(hc, StepSys(hc, s, digits[0]), digits[1..]);
  }

  lemma InsideValue(s: Sys)
    requires Live(s) && s.core.state == Hdr(HeaderValue)
    ensures s.core.contentLength >= 0 && s.obs.pending == Collecting(HValue, Collected(s.obs.pending))
  {
  }

  /** Digits and spaces of a Content-Length value. */
  lemma {:induction false} FeedDecimal(hc: HeadersCallback, s: Sys, text: seq<Byte>)
    requires Live(s) && s.core.state == Hdr(HeaderValue) && s.core.headerState == ContentLength
    requires IsLengthText(text) && s.core.contentLength <= MAX_CONTENT
    ensures var v := DecValue(s.core.contentLength, text);
            var r := Feed(hc, s, text);
            if v <= MAX_CONTENT
            then r == s.(core := s.core.(contentLength := v), used := s.used + |text|,
                         obs := s.obs.(pending := Collecting(HValue, Collected(s.obs.pending) + text)))
            else r.halted && r.core.errno == InvalidContentLength
    decreases |text|
  {
    hide StepSys, Inv, MarkFits, LengthFull;
    InsideValue(s);
    if text == [] {
      assert Collected(s.obs.pending) + text == Collected(s.obs.pending);
    } else {
      var d := text[0];
      assert IsNum(d) || d == SP;
      if IsNum(d) { FullExactly(s.core.contentLength, d - 48); }
      OtherDigit(hc, s, d);
      var t := StepSys(hc, s, d);
      assert Feed(hc, s, text) == Feed(hc, t, text[1..]);
      if d == SP || !LengthFull(s.core.contentLength, 10) {
        FeedDecimal(hc, t, text[1..]);
        assert Collected(s.obs.pending) + [d] + text[1..] == Collected(s.obs.pending) + text;
      }
    }
  }

  lemma FirstDigit(hc: HeadersCallback, s: Sys, d: Byte)
    requires Live(s) && s.core.state == Hdr(HeaderValueDiscardWs) && s.core.headerState == ContentLength && IsNum(d)
    ensures StepSys(hc, s, d) ==
            Sys(s.core.(state := Hdr(HeaderValue), index := 0, contentLength := d - 48),
                Obs(s.obs.trace, Collecting(HValue, [d])), false, s.used + 1)
    ensures Live(StepSys(hc, s, d)) && Good(s)
  {
    assert StepHeader(hc, s.core, d) == StartValue(s.core, d);
    hide StepHeader, Inv;
    assert [] + [d] == [d];
  }

  lemma OtherDigit(hc: HeadersCallback, s: Sys, d: Byte)
    requires Live(s) && s.core.state == Hdr(HeaderValue) && s.core.headerState == ContentLength
    requires IsNum(d) || d == SP
    ensures d != SP && LengthFull(s.core.contentLength, 10) ==>
              StepSys(hc, s, d).halted && StepSys(hc, s, d).core.errno == InvalidContentLength
    ensures d == SP || !LengthFull(s.core.contentLength, 10) ==>
              var v := if d == SP then s.core.contentLength else s.core.contentLength * 10 + (d - 48);
              StepSys(hc, s, d) == Sys(s.core.(contentLength := v),
                s.obs.(pending := Collecting(HValue, Collected(s.obs.pending) + [d])), false, s.used + 1)
    ensures Good(s) && Good(StepSys(hc, s, d))
  {
    assert StepHeader(hc, s.core, d) == ValueStep(s.core, d);
    hide StepHeader, Inv;
  }

  /** A Content-Length value that starts with a digit and goes on with digits and spaces: accepted
      exactly when the number written by all its digits is at most MAX_CONTENT, with that number. */
  lemma ContentLengthExact(hc: HeadersCallback, s: Sys, text: seq<Byte>)
    requires Live(s) && s.core.state == Hdr(HeaderValueDiscardWs) && s.core.headerState == ContentLength
    requires text != [] && IsNum(text[0]) && IsLengthText(text)
    ensures var v := DecValue(0, text);
            var r := Feed(hc, s, text);
            if v <= MAX_CONTENT
            then !r.halted && r.core == s.core.(state := Hdr(HeaderValue), index := 0, contentLength := v) &&
                 r.obs == Obs(s.obs.trace, Collecting(HValue, text)) && r.used == s.used + |text|
            else r.halted && r.core.errno == InvalidContentLength
  {
    hide StepSys, Inv, MarkFits;
    FirstDigit(hc, s, text[0]);
    var t := StepSys(hc, s, text[0]);
    FeedDecimal(hc, t, text[1..]);
    assert [text[0]] + text[1..] == text;
  }

  // ----- what comes behind a message -----

  /** The message tells where it ends: a request, a response that has no body, a chunked message, or one with a length. */
  predicate OwnEnd(c: Core) {
    || c.messageType.Request? || 100 <= c.statusCode < 200 || c.statusCode == 204 || c.statusCode == 304
    || c.flags.skipBody || c.flags.chunked || c.contentLength != NO_LENGTH
  }

  /** From version 1.1 on connections persist unless "close" was heard; before, only if "keep-alive" was. */
  predicate Persists(c: Core) {
    if c.major > 0 && c.minor > 0 then !c.flags.close else c.flags.keepAlive
  }

  /** The state behind a message: ready for the next one, or closed. */
  function NextState(c: Core): State {
    if OwnEnd(c) && Persists(c) then (if c.messageType.Request? then Req(StartReq) else Res(StartRes)) else Res(Dead)
  }

  /** The message that had these headers is over. */
  predicate Over(r: Core, c: Core) {
    r.state == NextState(c) && r.messageType == c.messageType && r.mthd == c.mthd
  }

  lemma NextIs(c: Core)
    requires c.statusCode >= 0
    ensures NewMessage(c) == NextState(c)
  {
  }

  /** A step completes a message exactly if the parser is then ready for the next one, or closed, and it is ready if and
      only if the message told where it ends and the connection persists. */
  predicate Completes(o: Out) {
    && (MessageComplete in o.calls.notes <==> o.core.state == Req(StartReq) || o.core.state.Res?)
    && (MessageComplete in o.calls.notes ==> o.core.state == NextState(o.core))
  }

  lemma FinishCompletes(c: Core, exit: bool)
    requires c.statusCode >= 0
    ensures Completes(Finish(c, exit)) && MessageComplete in Finish(c, exit).calls.notes
  {
    NextIs(c);
    hide NewMessage;
  }

  lemma EnterBodyCompletes(c: Core)
    requires c.statusCode >= 0
    ensures Completes(EnterBody(c))
  {
    hide Finish, NewMessage, MessageNeedsEof, NextState, HasBody;
    FinishCompletes(c, true);
    FinishCompletes(c, false);
  }

  /** What the callback for the end of the headers is shown */
  function Headed(c: Core): Core {
    c.(state := Msg(HeadersDone), upgrade := (c.flags.upgrade && c.flags.connUpgrade) || c.mthd.CONNECT?)
  }

  lemma EndHeadersCompletes(hc: HeadersCallback, c: Core, ch: Byte)
    requires c.statusCode >= 0 && c.state.Hdr? && !EndHeaders(hc, c, ch).verdict.Fail?
    ensures Completes(EndHeaders(hc, c, ch))
  {
    hide Finish, EnterBody, NextState;
    FinishCompletes(c.(state := Msg(MessageDone)), c.upgrade);
    var c1 := Headed(c);
    EnterBodyCompletes(c1);
    EnterBodyCompletes(c1.(flags := c1.flags.(skipBody := true)));
  }

  lemma StartFieldCompletes(hc: HeadersCallback, c: Core, ch: Byte)
    requires c.statusCode >= 0 && c.state.Hdr? && !StartField(hc, c, ch).verdict.Fail?
    ensures Completes(StartField(hc, c, ch))
  {
    hide EndHeaders, NextState, NameStart;
    if ch == LF { EndHeadersCompletes(hc, c.(state := Hdr(HeadersAlmostDone)), ch); }
  }

  lemma ValueCompletes(c: Core, ch: Byte)
    requires c.index >= 0
    ensures Completes(InValue(c.(state := Hdr(HeaderValue)), ch)) && Completes(StartValue(c, ch))
  {
    hide NextState, MatchStep, SetFlag, ConnectionStart, LengthFull;
  }

  lemma HeaderCompletes(hc: HeadersCallback, c: Core, ch: Byte)
    requires c.statusCode >= 0 && c.index >= 0 && c.state.Hdr? && !StepHeader(hc, c, ch).verdict.Fail?
    ensures Completes(StepHeader(hc, c, ch))
  {
    hide EndHeaders, StartField, StartValue, InValue, NextState, NameStep, SetFlag;
    var c1 := c.(state := Hdr(HeaderFieldStart), flags := SetFlag(c.flags, c.headerState));
    match c.state.hdr
    case HeaderFieldStart => StartFieldCompletes(hc, c, ch);
    case HeaderValueDiscardWs => ValueCompletes(c, ch);
    case HeaderValueStart => ValueCompletes(c, ch);
    case HeaderValue => ValueCompletes(c, ch);
    case HeaderValueLws =>
      ValueCompletes(c.(state := Hdr(HeaderValueStart)), ch);
      if ch != SP && ch != TAB { StartFieldCompletes(hc, c1, ch); }
    case HeaderValueDiscardLws =>
      if ch != SP && ch != TAB { StartFieldCompletes(hc, c1, ch); }
    case HeadersAlmostDone => EndHeadersCompletes(hc, c, ch);
    case _ =>
  }

  lemma BodyCompletes(c: Core, ch: Byte)
    requires c.statusCode >= 0 && c.state.Msg? && !StepBody(c, ch).verdict.Fail?
    ensures Completes(StepBody(c, ch))
  {
    hide Finish, EnterBody, NextState, LengthFull, Unhex;
    EnterBodyCompletes(c);
    FinishCompletes(c, c.upgrade);
    FinishCompletes(c.(contentLength := c.contentLength - 1, state := Msg(MessageDone)), c.upgrade);
  }

  /** The user, or the parser itself, has asked for no body. */
  predicate NoBodyWanted(hc: HeadersCallback, c: Core) {
    c.flags.skipBody || hc(Headed(c)) == 1
  }

  /** What the end of the headers leads to.  The callback can end the parse.  A chunked body is read if the message is
      chunked, and one of known length if that is positive, unless no body is wanted or the method is CONNECT.  Without
      either, a message that does not tell where it ends goes on until the connection does, unless it asks for another
      protocol.  In all other cases the message is over, and the rest of the input belongs to the other protocol if it
      asked for one. */
  lemma HeadersEnd(hc: HeadersCallback, c: Core)
    requires !c.flags.trailing && c.statusCode >= 0 && 0 <= c.contentLength <= NO_LENGTH
    ensures var o, body := EndHeaders(hc, c, LF), !NoBodyWanted(hc, c) && !c.mthd.CONNECT?;
            && (o.verdict.Fail? <==> hc(Headed(c)) != 0 && hc(Headed(c)) != 1)
            && (o.verdict.Fail? ==> o.core.errno == CbHeadersComplete)
            && (!o.verdict.Fail? ==>
                  && (o.core.state == Msg(ChunkSizeStart) <==> body && c.flags.chunked)
                  && (o.core.state == Msg(BodyIdentity) <==> body && !c.flags.chunked && 0 < c.contentLength < NO_LENGTH)
                  && (o.core.state == Msg(BodyIdentityEof) <==>
                        body && !OwnEnd(c) && !(c.flags.upgrade && c.flags.connUpgrade))
                  && (o.core.state.Msg? || MessageComplete in o.calls.notes)
                  && (o.verdict.Exit? <==> Headed(c).upgrade && MessageComplete in o.calls.notes))
  {
    var c1 := Headed(c);
    NextIs(c1);
    NextIs(c1.(flags := c1.flags.(skipBody := true)));
    hide NewMessage;
  }

  /** Every byte of every header section and body */
  lemma MessageCompletes(hc: HeadersCallback, c: Core, ch: Byte)
    requires Inv(c) && c.errno == OK && (c.state.Hdr? || c.state.Msg?) && !Step(hc, c, ch).verdict.Fail?
    ensures Completes(Step(hc, c, ch))
  {
    hide StepHeader, StepBody, Completes;
    if c.state.Hdr? { HeaderCompletes(hc, c, ch); } else { BodyCompletes(c, ch); }
  }

  // ----- identity bodies -----

  /** A body of known length hands over exactly its bytes and then completes the message. */
  lemma IdentityBody(hc: HeadersCallback, s: Sys, bytes: seq<Byte>)
    requires Live(s) && s.core.state == Msg(BodyIdentity) && |bytes| == s.core.contentLength
    ensures var r := Feed(hc, s, bytes);
            && r.obs == Obs(Push(Push(s.obs.trace, Data(Body, Collected(s.obs.pending) + bytes)), MessageComplete), Idle)
            && r.used == s.used + |bytes| && r.halted == s.core.upgrade
            && r.core == s.core.(contentLength := 0, state := NextState(s.core.(contentLength := 0)))
  {
    hide StepSys, Inv, MarkFits;
    BodyLeft(s);
    var n := |bytes|;
    var init, last := bytes[..n - 1], bytes[n - 1];
    assert bytes == init + [last];
    FeedAppend(hc, s, init, [last]);
    if init != [] { FeedBody(hc, s, init); }
    var t := Feed(hc, s, init);
    assert Feed(hc, t, [last]) == Feed(hc, StepSys(hc, t, last), []);
    assert Collected(s.obs.pending) + init + [last] == Collected(s.obs.pending) + bytes;
    assert [] + [last] == [last];
    BodyLast(hc, t, last);
  }

  lemma BodyLeft(s: Sys)
    requires Live(s) && (s.core.state == Msg(BodyIdentity) || s.core.state == Msg(ChunkData))
    ensures s.core.contentLength > 0
  {
  }

  lemma BodyLast(hc: HeadersCallback, s: Sys, last: Byte)
    requires Live(s) && s.core.state == Msg(BodyIdentity) && s.core.contentLength == 1
    ensures var r := StepSys(hc, s, last);
            && r.obs == Obs(Push(Push(s.obs.trace, Data(Body, Collected(s.obs.pending) + [last])), MessageComplete), Idle)
            && r.used == s.used + 1 && r.halted == s.core.upgrade
            && r.core == s.core.(contentLength := 0, state := NextState(s.core.(contentLength := 0)))
  {
  }

  /** Any call on a connection whose message has n more bytes of body: before message_complete,
      on_body is given exactly the next n bytes of the connection. */
  lemma IdentityDelivered(hc: HeadersCallback, x: Conn, data: seq<Byte>)
    requires Usable(x) && x.core.state == Msg(BodyIdentity) && data != []
    ensures var n := x.core.contentLength;
            if |data| < n
            then Call(hc, x, data) ==
                 Conn(x.core.(contentLength := n - |data|), Push(x.trace, Data(Body, data)))
            else During(hc, x, data[..n]).obs ==
                 Obs(Push(Push(x.trace, Data(Body, data[..n])), MessageComplete), Idle)
  {
    hide StepSys, Inv, MarkFits;
    EnterLive(x);
    BodyLeft(Enter(x));
    var s, n := Enter(x), x.core.contentLength;
    if |data| < n {
      FeedBody(hc, s, data);
      assert [] + data == data;
    } else {
      IdentityBody(hc, s, data[..n]);
      assert [] + data[..n] == data[..n];
    }
  }

  // ----- chunked bodies -----

  /** One chunk on the wire: the hex digits of its size, optional parameters, its payload. */
  datatype Chunk = Chunk(size: seq<Byte>, params: seq<Byte>, payload: seq<Byte>)

  predicate ParamsFit(params: seq<Byte>) {
    && CR !in params
    && (params != [] ==> params[0] == ';' as int || params[0] == SP)
  }

  predicate WellFormed(c: Chunk) {
    && c.size != [] && IsHexString(c.size) && ParamsFit(c.params)
    && HexValue(0, c.size) == |c.payload| <= MAX_CHUNK
  }

  function SizeLine(c: Chunk): seq<Byte> { c.size + c.params + [CR, LF] }

  function Encode(c: Chunk): seq<Byte> { SizeLine(c) + c.payload + [CR, LF] }

  lemma {:induction false} FeedParams(hc: HeadersCallback, s: Sys, params: seq<Byte>)
    requires Live(s) && s.core.state == Msg(ChunkParameters) && CR !in params
    ensures Feed(hc, s, params) == s.(used := s.used + |params|)
    decreases |params|
  {
    if params != [] {
      var t := StepSys(hc, s, params[0]);
      assert t == s.(used := s.used + 1);
      hide StepSys, Live;
      FeedParams(hc, t, params[1..]);
    }
  }

  lemma ParamStart(hc: HeadersCallback, s: Sys, p: Byte)
    requires Live(s) && s.core.state == Msg(ChunkSize) && (p == ';' as int || p == SP)
    ensures Good(s)
    ensures Feed(hc, s, [p]) == s.(core := s.core.(state := Msg(ChunkParameters)), used := s.used + 1)
  {
    NoMark(s);
    SilentByte(hc, s, p, s.core.(state := Msg(ChunkParameters)));
  }

  lemma LineCr(hc: HeadersCallback, s: Sys)
    requires Live(s) && (s.core.state == Msg(ChunkSize) || s.core.state == Msg(ChunkParameters))
    ensures Good(s)
    ensures Feed(hc, s, [CR]) == s.(core := s.core.(state := Msg(ChunkSizeAlmostDone)), used := s.used + 1)
  {
    NoMark(s);
    SilentByte(hc, s, CR, s.core.(state := Msg(ChunkSizeAlmostDone)));
  }

  /** What is between the digits and the end of the line does not matter. */
  lemma LineTail(hc: HeadersCallback, s: Sys, params: seq<Byte>)
    requires Live(s) && s.core.state == Msg(ChunkSize) && ParamsFit(params)
    ensures Feed(hc, s, params + [CR]) ==
            s.(core := s.core.(state := Msg(ChunkSizeAlmostDone)), used := s.used + |params| + 1)
  {
    hide Feed, StepSys, Inv, MarkFits;
    if params == [] {
      assert params + [CR] == [CR];
      LineCr(hc, s);
    } else {
      ParamStart(hc, s, params[0]);
      var t := Feed(hc, s, [params[0]]);
      FeedParams(hc, t, params[1..]);
      LineCr(hc, Feed(hc, t, params[1..]));
      FeedAppend(hc, t, params[1..], [CR]);
      FeedAppend(hc, s, [params[0]], params[1..] + [CR]);
      assert params + [CR] == [params[0]] + (params[1..] + [CR]);
    }
  }

  /** The end of a size line announces the chunk; a zero size leads to the trailers. */
  lemma LineLf(hc: HeadersCallback, s: Sys)
    requires Live(s) && s.core.state == Msg(ChunkSizeAlmostDone)
    ensures Good(s)
    ensures Feed(hc, s, [LF]) ==
            Sys(if s.core.contentLength == 0
                then s.core.(flags := s.core.flags.(trailing := true), state := Hdr(HeaderFieldStart))
                else s.core.(state := Msg(ChunkData)),
                Obs(Push(s.obs.trace, ChunkHeader(s.core.contentLength)), Idle), false, s.used + 1)
  {
    NoMark(s);
    assert PushAll(s.obs.trace, [ChunkHeader(s.core.contentLength)]) ==
           Push(s.obs.trace, ChunkHeader(s.core.contentLength));
    var t := StepSys(hc, s, LF);
    assert Feed(hc, s, [LF]) == Feed(hc, t, []);
  }

  /** The size line of a chunk, from its first digit to the line feed. */
  lemma SizeLineRead(hc: HeadersCallback, s: Sys, c: Chunk)
    requires Live(s) && s.core.state == Msg(ChunkSizeStart)
    requires c.size != [] && IsHexString(c.size) && ParamsFit(c.params) && HexValue(0, c.size) <= MAX_CHUNK
    ensures var n := HexValue(0, c.size);
            var c1 := s.core.(contentLength := n);
            Feed(hc, s, SizeLine(c)) ==
            Sys(if n == 0 then c1.(flags := c1.flags.(trailing := true), state := Hdr(HeaderFieldStart))
                else c1.(state := Msg(ChunkData)),
                Obs(Push(s.obs.trace, ChunkHeader(n)), Idle), false, s.used + |SizeLine(c)|)
  {
    hide Feed, Inv, MarkFits;
    ChunkSizeExact(hc, s, c.size);
    var t := Feed(hc, s, c.size);
    LineTail(hc, t, c.params);
    LineLf(hc, Feed(hc, t, c.params + [CR]));
    FeedAppend(hc, t, c.params + [CR], [LF]);
    FeedAppend(hc, s, c.size, c.params + [CR] + [LF]);
    assert SizeLine(c) == c.size + (c.params + [CR] + [LF]);
  }

  /** The payload of a chunk and the line end after it. */
  lemma PayloadRead(hc: HeadersCallback, s: Sys, payload: seq<Byte>)
    requires Live(s) && s.core.state == Msg(ChunkData) && s.obs.pending.Idle? && |payload| == s.core.contentLength
    ensures Feed(hc, s, payload + [CR, LF]) ==
            Sys(s.core.(contentLength := 0, state := Msg(ChunkSizeStart)),
                Obs(Push(Push(s.obs.trace, Data(Body, payload)), ChunkComplete), Idle),
                false, s.used + |payload| + 2)
  {
    hide Feed, Inv, MarkFits;
    BodyLeft(s);
    var n := |payload|;
    var init, last := payload[..n - 1], payload[n - 1];
    PayloadInit(hc, s, init);
    var t := Feed(hc, s, init);
    assert init + [last] == payload;
    ChunkLast(hc, t, last);
    LineEnd(hc, Feed(hc, t, [last]), payload);
    FeedAppend(hc, t, [last], [CR, LF]);
    FeedAppend(hc, s, init, [last] + [CR, LF]);
    assert payload + [CR, LF] == init + ([last] + [CR, LF]);
  }

  /** All but the last byte of a payload. */
  lemma PayloadInit(hc: HeadersCallback, s: Sys, init: seq<Byte>)
    requires Live(s) && s.core.state == Msg(ChunkData) && s.obs.pending.Idle? && |init| == s.core.contentLength - 1
    ensures var t := Feed(hc, s, init);
            && Live(t) && t.core == s.core.(contentLength := 1) && t.used == s.used + |init|
            && t.obs.trace == s.obs.trace && Collected(t.obs.pending) == init
  {
    if init != [] {
      FeedBody(hc, s, init);
      assert [] + init == init;
    }
  }

  lemma ChunkLast(hc: HeadersCallback, s: Sys, last: Byte)
    requires Live(s) && s.core.state == Msg(ChunkData) && s.core.contentLength == 1
    ensures Feed(hc, s, [last]) ==
            Sys(s.core.(contentLength := 0, state := Msg(ChunkDataAlmostDone)),
                Obs(s.obs.trace, Collecting(Body, Collected(s.obs.pending) + [last])), false, s.used + 1)
  {
    var t := StepSys(hc, s, last);
    assert Feed(hc, s, [last]) == Feed(hc, t, []);
  }

  lemma LineEnd(hc: HeadersCallback, s: Sys, payload: seq<Byte>)
    requires Live(s) && s.core.state == Msg(ChunkDataAlmostDone) && s.obs.pending == Collecting(Body, payload)
    ensures Feed(hc, s, [CR, LF]) ==
            Sys(s.core.(state := Msg(ChunkSizeStart)),
                Obs(Push(Push(s.obs.trace, Data(Body, payload)), ChunkComplete), Idle), false, s.used + 2)
  {
    LineEndCr(hc, s, payload);
    LineEndLf(hc, Feed(hc, s, [CR]));
    FeedAppend(hc, s, [CR], [LF]);
    assert [CR] + [LF] == [CR, LF];
  }

  lemma LineEndCr(hc: HeadersCallback, s: Sys, payload: seq<Byte>)
    requires Live(s) && s.core.state == Msg(ChunkDataAlmostDone) && s.obs.pending == Collecting(Body, payload)
    ensures Feed(hc, s, [CR]) ==
            Sys(s.core.(state := Msg(ChunkDataDone)), Obs(Push(s.obs.trace, Data(Body, payload)), Idle), false, s.used + 1)
  {
    var t := StepSys(hc, s, CR);
    assert payload + [] == payload;
    assert Feed(hc, s, [CR]) == Feed(hc, t, []);
  }

  lemma LineEndLf(hc: HeadersCallback, s: Sys)
    requires Live(s) && s.core.state == Msg(ChunkDataDone)
    ensures Feed(hc, s, [LF]) ==
            Sys(s.core.(state := Msg(ChunkSizeStart)), Obs(Push(s.obs.trace, ChunkComplete), Idle), false, s.used + 1)
  {
    NoMark(s);
    var t := StepSys(hc, s, LF);
    assert PushAll(s.obs.trace, [ChunkComplete]) == Push(s.obs.trace, ChunkComplete);
    assert Feed(hc, s, [LF]) == Feed(hc, t, []);
  }

  /** The callbacks that a chunk is worth. */
  function ChunkTrace(t: seq<Event>, c: Chunk): seq<Event> {
    Push(Push(Push(t, ChunkHeader(|c.payload|)), Data(Body, c.payload)), ChunkComplete)
  }

  /** One chunk with a payload is handed over whole, and the parser is ready for the next. */
  lemma ChunkDelivered(hc: HeadersCallback, s: Sys, c: Chunk)
    requires Live(s) && s.core.state == Msg(ChunkSizeStart) && WellFormed(c) && c.payload != []
    ensures Feed(hc, s, Encode(c)) ==
            Sys(s.core.(contentLength := 0), Obs(ChunkTrace(s.obs.trace, c), Idle), false, s.used + |Encode(c)|)
  {
    hide Feed, Inv;
    SizeLineRead(hc, s, c);
    var t := Feed(hc, s, SizeLine(c));
    PayloadRead(hc, t, c.payload);
    FeedAppend(hc, s, SizeLine(c), c.payload + [CR, LF]);
    assert Encode(c) == SizeLine(c) + (c.payload + [CR, LF]);
    assert s.core.(contentLength := 0, state := Msg(ChunkSizeStart)) == s.core.(contentLength := 0);
  }

  function EncodeAll(cs: seq<Chunk>): seq<Byte>
    decreases |cs|
  {
    if cs == [] then [] else Encode(cs[0]) + EncodeAll(cs[1..])
  }

  function ChunksTrace(t: seq<Event>, cs: seq<Chunk>): seq<Event>
    decreases |cs|
  {
    if cs == [] then t else ChunksTrace(ChunkTrace(t, cs[0]), cs[1..])
  }

  predicate DataChunks(cs: seq<Chunk>) {
    forall i :: 0 <= i < |cs| ==> WellFormed(cs[i]) && cs[i].payload != []
  }

  lemma {:induction false} ChunksDelivered(hc: HeadersCallback, s: Sys, cs: seq<Chunk>)
    requires Live(s) && s.core.state == Msg(ChunkSizeStart) && DataChunks(cs)
    ensures var r := Feed(hc, s, EncodeAll(cs));
            && Live(r) && r.used == s.used + |EncodeAll(cs)|
            && r.obs == Obs(ChunksTrace(s.obs.trace, cs), Idle)
            && r.core == s.core.(contentLength := r.core.contentLength)
    decreases |cs|
  {
    hide StepSys, Inv, MarkFits, Encode, ChunkTrace, WellFormed;
    if cs == [] {
      NoMark(s);
    } else {
      ChunkDelivered(hc, s, cs[0]);
      FeedAppend(hc, s, Encode(cs[0]), EncodeAll(cs[1..]));
      ChunksDelivered(hc, Feed(hc, s, Encode(cs[0])), cs[1..]);
    }
  }

  /** The zero chunk without trailers, and the empty line after it. */
  lemma LastChunk(hc: HeadersCallback, s: Sys, last: Chunk)
    requires Live(s) && s.core.state == Msg(ChunkSizeStart) && WellFormed(last) && last.payload == []
    ensures var r := Feed(hc, s, SizeLine(last) + [CR, LF]);
            && r.obs == Obs(Push(Push(Push(s.obs.trace, ChunkHeader(0)), ChunkComplete), MessageComplete), Idle)
            && r.used == s.used + |SizeLine(last)| + 2 && r.halted == s.core.upgrade && r.core.errno == OK
  {
    hide Feed, StepSys, Inv, MarkFits, Encode;
    SizeLineRead(hc, s, last);
    var t := Feed(hc, s, SizeLine(last));
    TrailerEnd(hc, t);
    FeedAppend(hc, s, SizeLine(last), [CR, LF]);
  }

  lemma TrailerEnd(hc: HeadersCallback, s: Sys)
    requires Live(s) && s.core.state == Hdr(HeaderFieldStart) && s.core.flags.trailing
    ensures var r := Feed(hc, s, [CR, LF]);
            && r.obs == Obs(Push(Push(s.obs.trace, ChunkComplete), MessageComplete), Idle)
            && r.used == s.used + 2 && r.halted == s.core.upgrade && r.core.errno == OK
  {
    var t := StepSys(hc, s, CR);
    assert StepHeader(hc, s.core, CR) == Goto(s.core, Hdr(HeadersAlmostDone));
    var u := StepSys(hc, t, LF);
    assert StepHeader(hc, t.core, LF) == EndHeaders(hc, t.core, LF);
    assert [ChunkComplete] + [MessageComplete] == [ChunkComplete, MessageComplete];
    PushTwo(s.obs.trace, ChunkComplete, MessageComplete);
    hide StepHeader, Inv, MarkFits;
    assert Feed(hc, s, [CR, LF]) == Feed(hc, t, [LF]);
    assert Feed(hc, t, [LF]) == Feed(hc, u, []);
  }

  lemma PushTwo(t: seq<Event>, a: Event, b: Event)
    ensures PushAll(t, [a, b]) == Push(Push(t, a), b)
  {
    assert [a, b][1..] == [b] && [b][1..] == [];
    assert PushAll(Push(t, a), [b]) == Push(Push(t, a), b);
  }

  /** The bytes that on_body has been given. */
  function BodyOf(t: seq<Event>): seq<Byte>
    decreases |t|
  {
    if t == [] then []
    else BodyOf(t[..|t| - 1]) +
         (var e := t[|t| - 1]; if e.Data? && e.kind == Body then e.bytes else [])
  }

  function Payloads(cs: seq<Chunk>): seq<Byte>
    decreases |cs|
  {
    if cs == [] then [] else cs[0].payload + Payloads(cs[1..])
  }

  lemma BodyOfPush(t: seq<Event>, e: Event)
    ensures BodyOf(Push(t, e)) == BodyOf(t) + (if e.Data? && e.kind == Body then e.bytes else [])
  {
    var p := Push(t, e);
    if p == t + [e] {
      assert p[..|p| - 1] == t;
    } else {
      assert p[..|p| - 1] == t[..|t| - 1];
      if e.kind == Body {
        assert BodyOf(t[..|t| - 1]) + (t[|t| - 1].bytes + e.bytes) == BodyOf(t[..|t| - 1]) + t[|t| - 1].bytes + e.bytes;
      }
    }
  }

  lemma {:induction false} BodyOfChunks(t: seq<Event>, cs: seq<Chunk>)
    ensures BodyOf(ChunksTrace(t, cs)) == BodyOf(t) + Payloads(cs)
    decreases |cs|
  {
    hide BodyOf, ChunkTrace;
    if cs == [] {
      assert BodyOf(t) + [] == BodyOf(t);
    } else {
      BodyOfChunk(t, cs[0]);
      BodyOfChunks(ChunkTrace(t, cs[0]), cs[1..]);
      assert BodyOf(t) + cs[0].payload + Payloads(cs[1..]) == BodyOf(t) + (cs[0].payload + Payloads(cs[1..]));
    }
  }

  lemma BodyOfChunk(t: seq<Event>, c: Chunk)
    ensures BodyOf(ChunkTrace(t, c)) == BodyOf(t) + c.payload
  {
    hide BodyOf, Push;
    var h, p := ChunkHeader(|c.payload|), c.payload;
    BodyOfPush(t, h);
    BodyOfPush(Push(t, h), Data(Body, p));
    BodyOfPush(Push(Push(t, h), Data(Body, p)), ChunkComplete);
    assert BodyOf(t) + [] == BodyOf(t) && BodyOf(t) + p + [] == BodyOf(t) + p;
  }

  /** A whole chunked body: its data chunks, the last chunk, an empty line. */
  function ChunkedBody(cs: seq<Chunk>, last: Chunk): seq<Byte> {
    EncodeAll(cs) + SizeLine(last) + [CR, LF]
  }

  function ChunkedTrace(t: seq<Event>, cs: seq<Chunk>): seq<Event> {
    Push(Push(Push(ChunksTrace(t, cs), ChunkHeader(0)), ChunkComplete), MessageComplete)
  }

  /** A chunked body in one call: each payload in one piece, and nothing left over. */
  lemma ChunkedDelivered(hc: HeadersCallback, x: Conn, cs: seq<Chunk>, last: Chunk)
    requires Usable(x) && x.core.state == Msg(ChunkSizeStart)
    requires DataChunks(cs) && WellFormed(last) && last.payload == []
    ensures var r := During(hc, x, ChunkedBody(cs, last));
            && r.obs == Obs(ChunkedTrace(x.trace, cs), Idle)
            && r.used == |ChunkedBody(cs, last)| && r.halted == x.core.upgrade && r.core.errno == OK
    ensures BodyOf(ChunkedTrace(x.trace, cs)) == BodyOf(x.trace) + Payloads(cs)
  {
    var s := Enter(x);
    assert Live(s);
    hide StepSys, Inv, MarkFits, WellFormed, Feed;
    ChunksDelivered(hc, s, cs);
    var t := Feed(hc, s, EncodeAll(cs));
    LastChunk(hc, t, last);
    FeedAppend(hc, s, EncodeAll(cs), SizeLine(last) + [CR, LF]);
    assert ChunkedBody(cs, last) == EncodeAll(cs) + (SizeLine(last) + [CR, LF]);
    BodyOfChunks(x.trace, cs);
    var c := ChunksTrace(x.trace, cs);
    BodyOfPush(c, ChunkHeader(0));
    BodyOfPush(Push(c, ChunkHeader(0)), ChunkComplete);
    BodyOfPush(Push(Push(c, ChunkHeader(0)), ChunkComplete), MessageComplete);
  }

  /** However a chunked body is cut into calls, on_body is given exactly the payloads. */
  lemma ChunkedInPieces(hc: HeadersCallback, x: Conn, cs: seq<Chunk>, last: Chunk, pieces: seq<seq<Byte>>)
    requires Usable(x) && x.core.state == Msg(ChunkSizeStart)
    requires DataChunks(cs) && WellFormed(last) && last.payload == []
    requires pieces != [] && forall i :: 0 <= i < |pieces| ==> pieces[i] != []
    requires Concat(pieces) == ChunkedBody(cs, last)
    ensures CallAll(hc, x, pieces).trace == ChunkedTrace(x.trace, cs)
    ensures BodyOf(CallAll(hc, x, pieces).trace) == BodyOf(x.trace) + Payloads(cs)
  {
    hide WellFormed, Feed, ChunkedTrace, ChunkedBody, Inv, CallAll;
    ChunkedDelivered(hc, x, cs, last);
    AnyCuts(hc, x, pieces);
  }
}
