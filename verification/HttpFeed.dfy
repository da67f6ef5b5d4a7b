/** What a call to the parser means: the one-byte machine run over the call's data. */
module HttpFeed {
  import opened Bytes
  import opened HttpTypes
  import opened HttpStep
  import opened HttpRun

  // ----- at most one mark is open, and no callback runs past an open mark -----

  function OpenMarked(open: Option<Kind>, c: Calls): Option<Kind> {
    if c.mark.Some? then c.mark else open
  }

  function OpenAfter(open: Option<Kind>, c: Calls): Option<Kind> {
    if c.flush.Some? then None else OpenMarked(open, c)
  }

  predicate Orderly(open: Option<Kind>, c: Calls) {
    && (c.emptyValue ==> open == None)
    && (c.mark.Some? ==> open == None || open == c.mark)
    && (c.flush.Some? ==> OpenMarked(open, c) == None || OpenMarked(open, c) == c.flush)
    && (c.flush.Some? && c.withByte ==> OpenMarked(open, c) == c.flush)
    && (c.notes != [] ==> OpenAfter(open, c) == None)
  }

  /** The calls of a step are orderly and leave open the mark that fits the next state. */
  predicate MarksKept(open: Option<Kind>, o: Out) {
    && Orderly(open, o.calls)
    && (!o.verdict.Fail? ==> MarkFits(o.core.state, OpenAfter(open, o.calls)))
  }

  lemma EndHeadersMarks(hc: HeadersCallback, c: Core, ch: Byte)
    ensures MarksKept(None, EndHeaders(hc, c, ch))
  {
    hide ShouldKeepAlive;
  }

  lemma StartFieldMarks(hc: HeadersCallback, c: Core, ch: Byte)
    ensures MarksKept(None, StartField(hc, c, ch))
  {
    hide EndHeaders, NameStart;
    EndHeadersMarks(hc, c.(state := Hdr(HeadersAlmostDone)), ch);
  }

  lemma StartValueMarks(c: Core, ch: Byte)
    ensures MarksKept(None, StartValue(c, ch))
  {
    hide ConnectionStart;
  }

  lemma InValueMarks(c: Core, ch: Byte)
    requires c.state == Hdr(HeaderValue) && c.index >= 0
    ensures MarksKept(Some(HValue), InValue(c, ch))
  {
    hide ConnectionStart, MatchStep, LengthFull, SetFlag;
  }

  lemma HeaderMarks(hc: HeadersCallback, c: Core, ch: Byte, open: Option<Kind>)
    requires c.state.Hdr? && c.index >= 0 && MarkFits(c.state, open)
    ensures MarksKept(open, StepHeader(hc, c, ch))
  {
    hide StartField, StartValue, InValue, EndHeaders, NameStep, SetFlag;
    var c1 := c.(state := Hdr(HeaderFieldStart), flags := SetFlag(c.flags, c.headerState));
    match c.state.hdr
    case HeaderFieldStart => StartFieldMarks(hc, c, ch);
    case HeaderValueDiscardWs => StartValueMarks(c, ch);
    case HeaderValueStart => StartValueMarks(c, ch);
    case HeaderValue => InValueMarks(c, ch);
    case HeaderValueLws =>
      StartValueMarks(c.(state := Hdr(HeaderValueStart)), ch);
      StartFieldMarks(hc, c1, ch);
    case HeaderValueDiscardLws =>
      StartFieldMarks(hc, c1, ch);
    case HeadersAlmostDone => EndHeadersMarks(hc, c, ch);
    case _ =>
  }

  lemma ResponseMarks(c: Core, ch: Byte, open: Option<Kind>)
    requires c.state.Res? && MarkFits(c.state, open)
    ensures MarksKept(open, StepResponse(c, ch))
  {
    hide FirstMethod, StartsMethod;
  }

  lemma RequestMarks(c: Core, ch: Byte)
    requires c.state.Req? && c.index >= 0
    ensures MarksKept(None, StepRequest(c, ch))
  {
    hide FirstMethod, StartsMethod, MethodString, SwitchMethod;
  }

  lemma UrlMarks(c: Core, ch: Byte)
    requires c.state.Uri?
    ensures MarksKept(Some(Url), StepUrl(c, ch))
  {
  }

  lemma BodyMarks(c: Core, ch: Byte, open: Option<Kind>)
    requires c.state.Msg? && MarkFits(c.state, open)
    ensures MarksKept(open, StepBody(c, ch))
  {
    hide ShouldKeepAlive, Unhex, LengthFull;
  }

  /** After a byte the mark that is open is the one the state calls for. */
  lemma StepMarks(hc: HeadersCallback, c: Core, ch: Byte, open: Option<Kind>)
    requires c.index >= 0 && MarkFits(c.state, open)
    ensures MarksKept(open, Step(hc, c, ch))
  {
    hide StepResponse, StepRequest, StepUrl, StepHeader, StepBody, MarksKept;
    match c.state
    case Res(_) => ResponseMarks(c, ch, open);
    case Req(_) => RequestMarks(c, ch);
    case Uri(_) => UrlMarks(c, ch);
    case Hdr(_) => HeaderMarks(hc, c, ch, open);
    case Msg(_) => BodyMarks(c, ch, open);
  }

  // ----- feeding bytes -----

  /** A parser in the middle of a call.  used counts the bytes consumed; a halted run has met an
      error or has left the rest of the connection to another protocol. */
  datatype Sys = Sys(core: Core, obs: Obs, halted: bool, used: nat)

  /** A parser that may be shown a byte. */
  predicate Live(s: Sys) {
    !s.halted && Inv(s.core) && s.core.errno == OK && MarkFits(s.core.state, Open(s.obs.pending))
  }

  /** Between bytes: the parser is live, or the run is over. */
  predicate Good(s: Sys) {
    if s.halted then s.core.errno == OK ==> Inv(s.core) else Live(s)
  }

  lemma ObserveOpens(o: Obs, c: Calls, ch: Byte)
    requires Orderly(Open(o.pending), c)
    ensures Open(Observe(o, c, ch).pending) == OpenAfter(Open(o.pending), c)
    ensures Open(Absorb(Observe(o, c, ch), ch).pending) == OpenAfter(Open(o.pending), c)
  {
  }

  function StepSys(hc: HeadersCallback, s: Sys, ch: Byte): (r: Sys)
    requires Live(s)
    ensures Good(r)
  {
    StepKeepsInv(hc, s.core, ch);
    StepMarks(hc, s.core, ch, Open(s.obs.pending));
    hide Step, Inv, MarkFits, Observe, Absorb, Orderly, OpenAfter;
    var o := Step(hc, s.core, ch);
    ObserveOpens(s.obs, o.calls, ch);
    var obs := Observe(s.obs, o.calls, ch);
    if o.verdict.Fail? then Sys(o.core, obs, true, s.used)
    else Sys(o.core, Absorb(obs, ch), o.verdict.Exit?, s.used + 1)
  }

  function Feed(hc: HeadersCallback, s: Sys, bytes: seq<Byte>): (r: Sys)
    requires Good(s)
    ensures Good(r)
    decreases |bytes|
  {
    if bytes == [] || s.halted then s else Feed(hc, StepSys(hc, s, bytes[0]), bytes[1..])
  }

  /** Reading goes on from where it has come to. */
  lemma {:induction false} FeedAppend(hc: HeadersCallback, s: Sys, a: seq<Byte>, b: seq<Byte>)
    requires Good(s)
    ensures Feed(hc, s, a + b) == Feed(hc, Feed(hc, s, a), b)
    decreases |a|
  {
    hide StepSys, Live;
    if a == [] || s.halted {
      if a == [] { assert a + b == b; }
    } else {
      assert (a + b)[0] == a[0] && (a + b)[1..] == a[1..] + b;
      FeedAppend(hc, StepSys(hc, s, a[0]), a[1..], b);
    }
  }

  lemma One(hc: HeadersCallback, s: Sys, ch: Byte)
    requires Live(s)
    ensures Feed(hc, s, [ch]) == StepSys(hc, s, ch)
  {
    hide StepSys;
    assert [ch][1..] == [];
  }

  function Collected(p: Pending): seq<Byte> {
    if p.Idle? then [] else p.bytes
  }

  /** Body bytes that are not the last only collect. */
  lemma {:induction false} FeedBody(hc: HeadersCallback, s: Sys, bytes: seq<Byte>)
    requires Live(s) && (s.core.state == Msg(BodyIdentity) || s.core.state == Msg(ChunkData))
    requires 0 < |bytes| < s.core.contentLength
    ensures Feed(hc, s, bytes) ==
            Sys(s.core.(contentLength := s.core.contentLength - |bytes|),
                s.obs.(pending := Collecting(Body, Collected(s.obs.pending) + bytes)), false, s.used + |bytes|)
    decreases |bytes|
  {
    var t := StepSys(hc, s, bytes[0]);
    assert t == Sys(s.core.(contentLength := s.core.contentLength - 1),
                    s.obs.(pending := Collecting(Body, Collected(s.obs.pending) + [bytes[0]])), false, s.used + 1);
    hide StepSys, Live;
    assert Feed(hc, s, bytes) == Feed(hc, t, bytes[1..]);
    if |bytes| == 1 {
      assert bytes[1..] == [] && bytes == [bytes[0]];
    } else {
      FeedBody(hc, t, bytes[1..]);
      assert Collected(s.obs.pending) + [bytes[0]] + bytes[1..] == Collected(s.obs.pending) + bytes;
    }
  }

  // ----- calls -----

  /** A parser as its owner sees it between calls: its fields and the callbacks made so far. */
  datatype Conn = Conn(core: Core, trace: seq<Event>)

  function Enter(x: Conn): Sys { Sys(x.core, Obs(x.trace, Reopen(x.core.state)), false, 0) }

  /** A call that runs out of bytes hands over the data of the open mark; one that stops early
      returns at once. */
  function Leave(s: Sys): Conn {
    Conn(s.core,
         if s.halted || s.obs.pending.Idle? then s.obs.trace
         else Push(s.obs.trace, Data(s.obs.pending.kind, s.obs.pending.bytes)))
  }

  predicate Usable(x: Conn) { Inv(x.core) && x.core.errno == OK }

  lemma EnterLive(x: Conn)
    requires Usable(x)
    ensures Live(Enter(x))
  {
  }

  /** The state inside a call on x when all of data has been looked at. */
  function During(hc: HeadersCallback, x: Conn, data: seq<Byte>): (r: Sys)
    requires Usable(x)
    ensures Good(r)
  {
    Feed(hc, Enter(x), data)
  }

  function Call(hc: HeadersCallback, x: Conn, data: seq<Byte>): Conn
    requires Usable(x)
  {
    Leave(During(hc, x, data))
  }
}
