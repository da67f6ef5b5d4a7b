/** A message of known length: its Content-Length line, the end of the headers, and its body. */
module HttpLength {
  import opened Bytes
  import opened HttpTypes
  import opened HttpStep
  import opened HttpRun
  import opened HttpFeed
  import opened HttpMatchers
  import opened HttpSplit
  import opened HttpBody

  predicate Blank(gap: seq<Byte>) {
    forall i :: 0 <= i < |gap| ==> gap[i] == SP || gap[i] == TAB
  }

  /** White space in front of a value */
  lemma {:induction false} SkipGap(hc: HeadersCallback, s: Sys, gap: seq<Byte>)
    requires Live(s) && s.core.state == Hdr(HeaderValueDiscardWs) && Blank(gap)
    ensures Feed(hc, s, gap) == s.(used := s.used + |gap|)
    decreases |gap|
  {
    hide StepSys, Inv, MarkFits;
    if gap != [] {
      GapByte(hc, s, gap[0]);
      SkipGap(hc, StepSys(hc, s, gap[0]), gap[1..]);
    }
  }

  lemma GapByte(hc: HeadersCallback, s: Sys, ch: Byte)
    requires Live(s) && s.core.state == Hdr(HeaderValueDiscardWs) && (ch == SP || ch == TAB)
    ensures StepSys(hc, s, ch) == s.(used := s.used + 1) && Live(StepSys(hc, s, ch))
  {
    assert StepHeader(hc, s.core, ch) == Goto(s.core, Hdr(HeaderValueDiscardWs));
    hide StepHeader, Inv;
    NothingOpen(s);
  }

  lemma NothingOpen(s: Sys)
    requires Live(s) && Reopen(s.core.state).Idle? && !s.core.state.Msg?
    ensures s.obs.pending.Idle?
  {
  }

  /** CR and LF behind a value */
  lemma ValueCr(hc: HeadersCallback, s: Sys, text: seq<Byte>)
    requires Live(s) && s.core.state == Hdr(HeaderValue) && s.obs.pending == Collecting(HValue, text)
    ensures var t := StepSys(hc, s, CR);
            t == Sys(s.core.(state := Hdr(HeaderAlmostDone)), Obs(Push(s.obs.trace, Data(HValue, text)), Idle), false, s.used + 1)
    ensures Live(StepSys(hc, s, CR))
  {
    assert StepHeader(hc, s.core, CR) == InValue(s.core, CR);
    hide StepHeader, Inv;
    assert text + [] == text;
  }

  lemma ValueLf(hc: HeadersCallback, s: Sys)
    requires Live(s) && s.core.state == Hdr(HeaderAlmostDone)
    ensures StepSys(hc, s, LF) == s.(core := s.core.(state := Hdr(HeaderValueLws)), used := s.used + 1)
    ensures Live(StepSys(hc, s, LF))
  {
    assert StepHeader(hc, s.core, LF) == Goto(s.core, Hdr(HeaderValueLws));
    hide StepHeader, Inv;
    NothingOpen(s);
  }

  /** The empty line behind the headers */
  lemma EmptyCr(hc: HeadersCallback, s: Sys)
    requires Live(s) && s.core.state == Hdr(HeaderValueLws)
    ensures StepSys(hc, s, CR) ==
            s.(core := s.core.(state := Hdr(HeadersAlmostDone), flags := SetFlag(s.core.flags, s.core.headerState)), used := s.used + 1)
    ensures Live(StepSys(hc, s, CR))
  {
    var c1 := s.core.(state := Hdr(HeaderFieldStart), flags := SetFlag(s.core.flags, s.core.headerState));
    assert StepHeader(hc, s.core, CR) == StartField(hc, c1, CR) == Goto(c1, Hdr(HeadersAlmostDone));
    hide StepHeader, StartField, SetFlag, Inv;
    NothingOpen(s);
  }

  /** A message that is neither chunked nor for another protocol, and whose body the user wants */
  predicate Ordinary(hc: HeadersCallback, c: Core) {
    !c.flags.trailing && !c.flags.chunked && !c.flags.skipBody && !Headed(c).upgrade && hc(Headed(c)) == 0
  }

  lemma EmptyLf(hc: HeadersCallback, s: Sys)
    requires Live(s) && s.core.state == Hdr(HeadersAlmostDone) && Ordinary(hc, s.core) && 0 <= s.core.contentLength < NO_LENGTH
    ensures var t, c := StepSys(hc, s, LF), Headed(s.core);
            if s.core.contentLength > 0
            then t == Sys(c.(state := Msg(BodyIdentity)), Obs(Push(s.obs.trace, HeadersComplete(c)), Idle), false, s.used + 1)
            else t == Sys(c.(state := NextState(c)),
                          Obs(Push(Push(s.obs.trace, HeadersComplete(c)), MessageComplete), Idle), false, s.used + 1)
    ensures Live(StepSys(hc, s, LF))
  {
    assert StepHeader(hc, s.core, LF) == EndHeaders(hc, s.core, LF);
    EndsOrdinary(hc, s.core);
    var c := Headed(s.core);
    assert PushAll(s.obs.trace, [HeadersComplete(c)]) == Push(s.obs.trace, HeadersComplete(c));
    PushTwo(s.obs.trace, HeadersComplete(c), MessageComplete);
    hide StepHeader, EndHeaders, Inv;
    NothingOpen(s);
  }

  lemma EndsOrdinary(hc: HeadersCallback, c: Core)
    requires Ordinary(hc, c) && 0 <= c.contentLength < NO_LENGTH
    ensures var c2 := Headed(c);
            EndHeaders(hc, c, LF) ==
            if c.contentLength > 0 then Out(c2.(state := Msg(BodyIdentity)), NoteOf(HeadersComplete(c2)), Go, true)
            else Out(c2.(state := NextState(c2)), QUIET.(notes := [HeadersComplete(c2), MessageComplete]), Go, true)
  {
    assert [HeadersComplete(Headed(c))] + [MessageComplete] == [HeadersComplete(Headed(c)), MessageComplete];
  }

  /** A Content-Length line and the CR behind it that ends the headers */
  function LengthHead(n: seq<Byte>, gap: seq<Byte>, text: seq<Byte>): seq<Byte> {
    n + [':' as int] + gap + (text + [CR, LF, CR])
  }

  predicate IsLengthLine(n: seq<Byte>, gap: seq<Byte>, text: seq<Byte>) {
    && n != [] && IsTokens(n) && Names(n, CONTENT_LENGTH) && Blank(gap) && text != [] && IsNum(text[0]) && IsLengthText(text)
  }

  /** The parser at the end of the headers, with a length of v */
  function WithLength(c: Core, v: int): Core {
    c.(state := Hdr(HeadersAlmostDone), headerState := ContentLength, index := 0, contentLength := v)
  }

  /** A field line at a time: first the name and the colon. */
  lemma LengthName(hc: HeadersCallback, s: Sys, n: seq<Byte>, gap: seq<Byte>)
    requires Live(s) && s.core.state == Hdr(HeaderFieldStart) && n != [] && IsTokens(n) && Names(n, CONTENT_LENGTH) && Blank(gap)
    ensures var r := Feed(hc, s, n + [':' as int] + gap);
            && Live(r) && r.core.state == Hdr(HeaderValueDiscardWs) && r.core.headerState == ContentLength
            && NamedLike(r.core, s.core) && r.used == s.used + |n| + 1 + |gap|
            && r.obs == Obs(Push(s.obs.trace, Data(HField, n)), Idle)
  {
    hide StepSys, Inv, MarkFits, Names, IsTokens, Blank, Feed;
    HeaderNameExact(hc, s, n);
    FeedAppend(hc, s, n + [':' as int], gap);
    SkipGap(hc, Feed(hc, s, n + [':' as int]), gap);
  }

  /** Then the digits and the two line ends. */
  lemma LengthValue(hc: HeadersCallback, s: Sys, text: seq<Byte>)
    requires Live(s) && s.core.state == Hdr(HeaderValueDiscardWs) && s.core.headerState == ContentLength
    requires text != [] && IsNum(text[0]) && IsLengthText(text)
    ensures var r, v := Feed(hc, s, text + [CR, LF, CR]), DecValue(0, text);
            if v > MAX_CONTENT then r.halted && r.core.errno == InvalidContentLength
            else Live(r) && r.core == WithLength(s.core, v) && r.used == s.used + |text| + 3 &&
                 r.obs == Obs(Push(s.obs.trace, Data(HValue, text)), Idle)
  {
    hide StepSys, Inv, MarkFits, IsLengthText;
    ContentLengthExact(hc, s, text);
    FeedAppend(hc, s, text, [CR, LF, CR]);
    var t := Feed(hc, s, text);
    if DecValue(0, text) <= MAX_CONTENT {
      LineEnds(hc, t, text);
    } else {
      assert Feed(hc, t, [CR, LF, CR]) == t;
    }
  }

  lemma LineEnds(hc: HeadersCallback, t: Sys, text: seq<Byte>)
    requires Live(t) && t.core.state == Hdr(HeaderValue) && t.obs.pending == Collecting(HValue, text)
    requires t.core.headerState == ContentLength
    ensures var r := Feed(hc, t, [CR, LF, CR]);
            && Live(r) && r.core == t.core.(state := Hdr(HeadersAlmostDone)) && r.used == t.used + 3
            && r.obs == Obs(Push(t.obs.trace, Data(HValue, text)), Idle)
  {
    hide StepSys, Inv, MarkFits;
    ValueCr(hc, t, text);
    var t1 := StepSys(hc, t, CR);
    ValueLf(hc, t1);
    var t2 := StepSys(hc, t1, LF);
    EmptyCr(hc, t2);
    var t3 := StepSys(hc, t2, CR);
    assert [CR, LF, CR][1..] == [LF, CR] && [LF, CR][1..] == [CR];
    assert Feed(hc, t, [CR, LF, CR]) == Feed(hc, t1, [LF, CR]);
    assert Feed(hc, t1, [LF, CR]) == Feed(hc, t2, [CR]);
    assert Feed(hc, t2, [CR]) == Feed(hc, t3, []);
    assert SetFlag(t.core.flags, ContentLength) == t.core.flags;
  }

  /** A Content-Length line that ends the headers: a value above MAX_CONTENT is refused. */
  lemma LengthHeadRead(hc: HeadersCallback, s: Sys, n: seq<Byte>, gap: seq<Byte>, text: seq<Byte>)
    requires Live(s) && s.core.state == Hdr(HeaderFieldStart) && IsLengthLine(n, gap, text)
    ensures IsLengthText(text)
    ensures var r, v := Feed(hc, s, LengthHead(n, gap, text)), DecValue(0, text);
            if v > MAX_CONTENT then r.halted && r.core.errno == InvalidContentLength
            else Live(r) && r.core == WithLength(s.core, v) && r.used == s.used + |LengthHead(n, gap, text)| &&
                 r.obs == Obs(Push(Push(s.obs.trace, Data(HField, n)), Data(HValue, text)), Idle)
  {
    hide StepSys, Inv, MarkFits, Feed, IsLengthText, IsTokens, Names, Blank;
    LengthName(hc, s, n, gap);
    var t := Feed(hc, s, n + [':' as int] + gap);
    LengthValue(hc, t, text);
    FeedAppend(hc, s, n + [':' as int] + gap, text + [CR, LF, CR]);
  }

  lemma HaltedStays(hc: HeadersCallback, s: Sys, b: seq<Byte>)
    requires Good(s) && s.halted
    ensures Feed(hc, s, b) == s
  {
  }

  lemma BodyAfter(hc: HeadersCallback, u: Sys, body: seq<Byte>)
    requires Live(u) && u.core.state == Hdr(HeadersAlmostDone) && Ordinary(hc, u.core) && u.obs.pending.Idle?
    requires |body| == u.core.contentLength <= MAX_CONTENT
    ensures var r, c := Feed(hc, u, [LF] + body), Headed(u.core);
            && r.used == u.used + 1 + |body|
            && r.obs == Obs(Push(if body == [] then Push(u.obs.trace, HeadersComplete(c))
                                 else Push(Push(u.obs.trace, HeadersComplete(c)), Data(Body, body)), MessageComplete), Idle)
            && !r.halted && r.core.errno == OK && Over(r.core, c)
  {
    assert !Headed(u.core).upgrade;
    hide StepSys, Inv, MarkFits, Ordinary, Headed, Persists;
    EmptyLf(hc, u);
    var t := StepSys(hc, u, LF);
    assert ([LF] + body)[0] == LF && ([LF] + body)[1..] == body;
    assert Feed(hc, u, [LF] + body) == Feed(hc, t, body);
    if body != [] {
      HeadedLike(u.core);
      IdentityBody(hc, t, body);
      assert [] + body == body;
    }
  }

  lemma HeadedLike(c: Core)
    ensures Headed(c).contentLength == c.contentLength && Headed(c).errno == c.errno
  {
  }
}
