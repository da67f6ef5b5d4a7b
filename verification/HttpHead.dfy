/** Whole messages: any header lines, the end of the headers, and the body they announce. */
module HttpHead {
  import opened Bytes
  import opened HttpTypes
  import opened HttpStep
  import opened HttpRun
  import opened HttpFeed
  import opened HttpMatchers
  import opened HttpSplit
  import opened HttpBody
  import opened HttpLength
  import opened HttpValues

  // ----- header lines -----

  /** A header line; the value of a Connection line is a list of tokens. */
  datatype Line =
    | Line(name: seq<Byte>, gap: seq<Byte>, value: seq<Byte>)
    | ConnectionLine(name: seq<Byte>, gap: seq<Byte>, items: seq<Item>)
  {
    function Value(): seq<Byte> {
      if Line? then value else Written(items)
    }

    function Text(): seq<Byte> {
      name + [':' as int] + gap + (Value() + [CR, LF])
    }
  }

  predicate IsConnection(n: seq<Byte>) {
    Names(n, CONNECTION) || Names(n, PROXY_CONNECTION)
  }

  /** A line that is accepted: a length is not too large. */
  predicate LineOk(l: Line) {
    && l.name != [] && IsTokens(l.name) && Blank(l.gap)
    && (l.ConnectionLine? ==> IsConnection(l.name) && ListOk(l.items) && l.items[0].lead == [])
    && (l.Line? && l.value != [] ==>
          && !IsConnection(l.name) && l.value[0] != SP && l.value[0] != TAB && OneLine(l.value)
          && (Names(l.name, CONTENT_LENGTH) ==> IsLengthText(l.value) && IsNum(l.value[0]) && DecValue(0, l.value) <= MAX_CONTENT))
  }

  predicate Empty(l: Line) {
    l.Line? && l.value == []
  }

  /** The flags and the length that a line stands for; without a value it stands for nothing. */
  function LineFlags(f: Flags, l: Line): Flags
    requires LineOk(l)
  {
    if Empty(l) then f
    else if l.ConnectionLine? then Taken(l.items, f)
    else if Names(l.name, TRANSFER_ENCODING) then f.(chunked := f.chunked || Coded(l.value))
    else if Names(l.name, UPGRADE) then f.(upgrade := true)
    else f
  }

  function LineLength(n: int, l: Line): int
    requires LineOk(l)
  {
    if Names(l.name, CONTENT_LENGTH) && !Empty(l) then (NamedOnce(l.name); DecValue(0, l.value)) else n
  }

  predicate LinesOk(ls: seq<Line>) {
    forall i :: 0 <= i < |ls| ==> LineOk(ls[i])
  }

  function LinesText(ls: seq<Line>): seq<Byte>
    decreases |ls|
  {
    if ls == [] then [] else ls[0].Text() + LinesText(ls[1..])
  }

  function LinesFlags(f: Flags, ls: seq<Line>): Flags
    requires LinesOk(ls)
    decreases |ls|
  {
    if ls == [] then f else LinesFlags(LineFlags(f, ls[0]), ls[1..])
  }

  function LinesLength(n: int, ls: seq<Line>): int
    requires LinesOk(ls)
    decreases |ls|
  {
    if ls == [] then n else LinesLength(LineLength(n, ls[0]), ls[1..])
  }

  function LinesTrace(t: seq<Event>, ls: seq<Line>): seq<Event>
    decreases |ls|
  {
    if ls == [] then t
    else LinesTrace(Push(Push(t, Data(HField, ls[0].name)), Data(HValue, ls[0].Value())), ls[1..])
  }

  // ----- one line -----

  /** The core but for where the parser is in a header */
  predicate Headlike(c: Core, c0: Core, f: Flags, n: int) {
    c == c0.(state := c.state, headerState := c.headerState, index := c.index, flags := f, contentLength := n)
  }

  /** A value of any header but Content-Length: what is read of it, and which flags its end sets */
  lemma ValueRead(hc: HeadersCallback, s: Sys, l: Line)
    requires Live(s) && s.core.state == Hdr(HeaderValueDiscardWs) && LineOk(l) && !Empty(l) && !s.core.headerState.ContentLength?
    requires !Names(l.name, CONTENT_LENGTH)
    requires s.core.headerState == Connection <==> IsConnection(l.name)
    requires s.core.headerState == TransferEncoding <==> Names(l.name, TRANSFER_ENCODING)
    requires s.core.headerState == Upgrade <==> Names(l.name, UPGRADE)
    requires FieldName(s.core.headerState)
    ensures var r := Feed(hc, s, l.Value());
            && Live(r) && r.core.state == Hdr(HeaderValue) && r.obs == Obs(s.obs.trace, Collecting(HValue, l.Value()))
            && r.used == s.used + |l.Value()| && Headlike(r.core, s.core, r.core.flags, s.core.contentLength)
            && SetFlag(r.core.flags, r.core.headerState) == LineFlags(s.core.flags, l)
  {
    hide StepSys, Inv, MarkFits, ReadValue, Taken, SetFlag, Coded, Written, IsTokens, Names, Feed;
    AnyValue(hc, s, l.Value()) by { ValueFits(l); }
    if l.ConnectionLine? {
      ConnectionExact(hc, s, l.items);
    } else if Names(l.name, TRANSFER_ENCODING) {
      ChunkedExact(hc, s, l.value);
    } else {
      OtherValue(s.core, l.value);
    }
  }

  lemma ValueFits(l: Line)
    requires LineOk(l) && !Empty(l)
    ensures l.Value() != [] && l.Value()[0] != SP && l.Value()[0] != TAB && OneLine(l.Value())
  {
    if l.ConnectionLine? {
      WrittenOneLine(l.items);
      FirstByte(l.items);
      assert l.items[0].token != [] && Written(l.items)[0] == l.items[0].token[0];
    }
  }

  lemma AnyValue(hc: HeadersCallback, s: Sys, w: seq<Byte>)
    requires Live(s) && s.core.state == Hdr(HeaderValueDiscardWs) && !s.core.headerState.ContentLength?
    requires w != [] && w[0] != SP && w[0] != TAB && OneLine(w)
    ensures var r, c := Feed(hc, s, w), StartValue(s.core, w[0]).core;
            && Live(r) && c.index >= 0 && r.core == ReadValue(c, w[1..])
            && r.core.state == Hdr(HeaderValue) && Headlike(r.core, s.core, r.core.flags, s.core.contentLength)
            && r.obs == Obs(s.obs.trace, Collecting(HValue, w)) && r.used == s.used + |w|
  {
    hide StepSys, Inv, MarkFits, ReadValue, StartValue;
    var t := StepSys(hc, s, w[0]);
    ValueFirst(hc, s, w[0]);
    FirstLenient(s.core, w[0]);
    FeedValue(hc, t, [w[0]], w[1..]);
    LenientReads(t.core, w[1..]);
    assert [w[0]] + w[1..] == w;
    assert Feed(hc, s, w) == Feed(hc, t, w[1..]);
  }

  lemma FirstLenient(c: Core, ch: Byte)
    requires !c.headerState.ContentLength?
    ensures var d := StartValue(c, ch).core;
            && d.state == Hdr(HeaderValue) && d.index == 0 && Lenient(d.headerState) && Headlike(d, c, d.flags, c.contentLength)
  {
  }

  lemma OtherValue(c: Core, w: seq<Byte>)
    requires FieldName(c.headerState) && w != []
    requires c.headerState != Connection && c.headerState != TransferEncoding && !c.headerState.ContentLength?
    ensures var d := StartValue(c, w[0]).core;
            d.index >= 0 && ReadValue(d, w[1..]) == d && d.headerState == General &&
            d.flags == (if c.headerState == Upgrade then c.flags.(upgrade := true) else c.flags) && SetFlag(d.flags, d.headerState) == d.flags
  {
    GeneralStays(StartValue(c, w[0]).core, w[1..]);
  }

  lemma LengthRead(hc: HeadersCallback, s: Sys, l: Line)
    requires Live(s) && s.core.state == Hdr(HeaderValueDiscardWs) && LineOk(l)
    requires s.core.headerState == ContentLength && Names(l.name, CONTENT_LENGTH) && !Empty(l)
    ensures var r := Feed(hc, s, l.Value());
            && Live(r) && r.core.state == Hdr(HeaderValue) && r.obs == Obs(s.obs.trace, Collecting(HValue, l.Value()))
            && r.used == s.used + |l.Value()| && Headlike(r.core, s.core, s.core.flags, LineLength(s.core.contentLength, l))
            && SetFlag(r.core.flags, r.core.headerState) == LineFlags(s.core.flags, l)
  {
    hide StepSys, Inv, MarkFits, Feed;
    NamedOnce(l.name);
    ContentLengthExact(hc, s, l.Value());
  }

  lemma NamedOnce(n: seq<Byte>)
    ensures Names(n, CONTENT_LENGTH) ==> !IsConnection(n) && !Names(n, TRANSFER_ENCODING) && !Names(n, UPGRADE)
    ensures IsConnection(n) ==> !Names(n, TRANSFER_ENCODING) && !Names(n, UPGRADE)
    ensures Names(n, TRANSFER_ENCODING) ==> !Names(n, UPGRADE)
  {
  }

  /** The parser at the start of a line, when the flag of the line before has been set, and an empty value handed over */
  function Settled(s: Sys): Sys {
    var c := s.core.(state := Hdr(HeaderFieldStart), flags := SetFlag(s.core.flags, s.core.headerState));
    if s.core.state == Hdr(HeaderValueLws) then s.(core := c)
    else if s.core.state == Hdr(HeaderValueDiscardLws)
    then s.(core := c, obs := Obs(Push(s.obs.trace, Data(HValue, [])), Idle))
    else s
  }

  predicate BetweenLines(s: Sys) {
    Live(s) && (s.core.state == Hdr(HeaderFieldStart) || s.core.state == Hdr(HeaderValueLws) ||
                s.core.state == Hdr(HeaderValueDiscardLws))
  }

  lemma SettledGoesOn(hc: HeadersCallback, s: Sys, b: seq<Byte>)
    requires BetweenLines(s) && b != [] && b[0] != SP && b[0] != TAB
    ensures Live(Settled(s)) && Feed(hc, s, b) == Feed(hc, Settled(s), b)
  {
    SettledStep(hc, s, b[0]);
    hide StepSys, Inv, MarkFits, SetFlag;
  }

  lemma SettledStep(hc: HeadersCallback, s: Sys, ch: Byte)
    requires BetweenLines(s) && ch != SP && ch != TAB
    ensures Live(Settled(s)) && StepSys(hc, s, ch) == StepSys(hc, Settled(s), ch)
  {
    SettledLive(s);
    if s.core.state == Hdr(HeaderValueLws) {
      InvIndexed(s.core);
      assert Step(hc, s.core, ch) == StepHeader(hc, s.core, ch) == StartField(hc, Settled(s).core, ch);
      assert Step(hc, Settled(s).core, ch) == StepHeader(hc, Settled(s).core, ch) == StartField(hc, Settled(s).core, ch);
      hide Step, StepHeader, StartField, Inv, MarkFits, SetFlag;
    } else if s.core.state == Hdr(HeaderValueDiscardLws) {
      EmptyStep(hc, s, ch);
    }
  }

  lemma EmptyStep(hc: HeadersCallback, s: Sys, ch: Byte)
    requires Live(s) && s.core.state == Hdr(HeaderValueDiscardLws) && ch != SP && ch != TAB
    ensures Live(Settled(s)) && StepSys(hc, s, ch) == StepSys(hc, Settled(s), ch)
  {
    SettledLive(s);
    var o := StartField(hc, Settled(s).core, ch);
    assert Step(hc, s.core, ch) == StepHeader(hc, s.core, ch) == o.(calls := o.calls.(emptyValue := true));
    assert Step(hc, Settled(s).core, ch) == StepHeader(hc, Settled(s).core, ch) == o;
    assert !o.calls.emptyValue by { NeverEmpty(hc, Settled(s).core, ch); }
    hide Step, StepHeader, StartField, Inv, MarkFits, SetFlag;
    var e: seq<Byte> := [];
    assert e + e == e;
    assert Observe(s.obs, o.calls.(emptyValue := true), ch) == Observe(Settled(s).obs, o.calls, ch);
  }

  lemma NeverEmpty(hc: HeadersCallback, c: Core, ch: Byte)
    ensures !StartField(hc, c, ch).calls.emptyValue
  {
  }

  lemma InvIndexed(c: Core)
    requires Inv(c)
    ensures c.index >= 0
  {
  }

  lemma SettledLive(s: Sys)
    requires BetweenLines(s)
    ensures Live(Settled(s)) && s.obs.pending.Idle? && s.core.index >= 0
  {
  }

  /** A whole line */
  lemma LineRead(hc: HeadersCallback, s: Sys, l: Line)
    requires Live(s) && s.core.state == Hdr(HeaderFieldStart) && LineOk(l)
    ensures var r := Feed(hc, s, l.Text());
            && BetweenLines(r) && r.used == s.used + |l.Text()|
            && Headlike(Settled(r).core, s.core, LineFlags(s.core.flags, l), LineLength(s.core.contentLength, l))
            && Settled(r).obs == Obs(Push(Push(s.obs.trace, Data(HField, l.name)), Data(HValue, l.Value())), Idle)
  {
    hide StepSys, Inv, MarkFits, Feed, SetFlag, LineFlags, LineLength, Names, LineOk, IsConnection, IsTokens;
    var n := l.name + [':' as int];
    NameAndGap(hc, s, l);
    var t := Feed(hc, s, n + l.gap);
    FeedAppend(hc, s, n + l.gap, l.Value() + [CR, LF]);
    assert l.Text() == (n + l.gap) + (l.Value() + [CR, LF]);
    if Empty(l) {
      assert l.Value() + [CR, LF] == [CR, LF];
      EmptyEnded(hc, t);
      EmptyMeans(l, s.core.flags, s.core.contentLength);
    } else {
      if Names(l.name, CONTENT_LENGTH) {
        LengthRead(hc, t, l);
      } else {
        NotLength(l, s.core.contentLength);
        ValueRead(hc, t, l);
      }
      LineEnded(hc, Feed(hc, t, l.Value()), l.Value());
      FeedAppend(hc, t, l.Value(), [CR, LF]);
    }
  }

  lemma NotLength(l: Line, n: int)
    requires LineOk(l) && !Names(l.name, CONTENT_LENGTH)
    ensures LineLength(n, l) == n
  {
  }

  lemma EmptyMeans(l: Line, f: Flags, n: int)
    requires LineOk(l) && Empty(l)
    ensures LineFlags(f, l) == f && LineLength(n, l) == n
  {
  }

  lemma EmptyEnded(hc: HeadersCallback, s: Sys)
    requires Live(s) && s.core.state == Hdr(HeaderValueDiscardWs)
    ensures var r := Feed(hc, s, [CR, LF]);
            && Live(r) && r.core == s.core.(state := Hdr(HeaderValueDiscardLws)) && r.used == s.used + 2 && r.obs == s.obs
            && SetFlag(r.core.flags, r.core.headerState) == r.core.flags
  {
    var t := StepSys(hc, s, CR);
    EmptyCrRead(hc, s);
    EmptyLfRead(hc, t);
    NoFlagYet(s);
    hide StepSys, Inv, MarkFits, SetFlag;
    assert [CR, LF][1..] == [LF] && [LF][1..] == [];
    assert Feed(hc, s, [CR, LF]) == Feed(hc, t, [LF]);
    assert Feed(hc, t, [LF]) == Feed(hc, StepSys(hc, t, LF), []);
  }

  lemma EmptyCrRead(hc: HeadersCallback, s: Sys)
    requires Live(s) && s.core.state == Hdr(HeaderValueDiscardWs)
    ensures var t := StepSys(hc, s, CR); Live(t) && t == s.(core := s.core.(state := Hdr(HeaderValueDiscardWsAlmostDone)), used := s.used + 1)
  {
    assert StepHeader(hc, s.core, CR) == Goto(s.core, Hdr(HeaderValueDiscardWsAlmostDone));
    hide StepHeader, Inv;
    NothingOpen(s);
  }

  lemma EmptyLfRead(hc: HeadersCallback, s: Sys)
    requires Live(s) && s.core.state == Hdr(HeaderValueDiscardWsAlmostDone)
    ensures var t := StepSys(hc, s, LF); Live(t) && t == s.(core := s.core.(state := Hdr(HeaderValueDiscardLws)), used := s.used + 1)
  {
    assert StepHeader(hc, s.core, LF) == Goto(s.core, Hdr(HeaderValueDiscardLws));
    hide StepHeader, Inv;
    NothingOpen(s);
  }

  lemma NoFlagYet(s: Sys)
    requires Live(s) && s.core.state == Hdr(HeaderValueDiscardWs)
    ensures SetFlag(s.core.flags, s.core.headerState) == s.core.flags
  {
  }

  lemma NameAndGap(hc: HeadersCallback, s: Sys, l: Line)
    requires Live(s) && s.core.state == Hdr(HeaderFieldStart) && LineOk(l)
    ensures var t := Feed(hc, s, l.name + [':' as int] + l.gap);
            && Live(t) && t.core.state == Hdr(HeaderValueDiscardWs) && FieldName(t.core.headerState)
            && Headlike(t.core, s.core, s.core.flags, s.core.contentLength)
            && t.used == s.used + |l.name| + 1 + |l.gap| && t.obs == Obs(Push(s.obs.trace, Data(HField, l.name)), Idle)
            && (t.core.headerState == Connection <==> IsConnection(l.name))
            && (t.core.headerState.ContentLength? <==> Names(l.name, CONTENT_LENGTH))
            && (t.core.headerState == TransferEncoding <==> Names(l.name, TRANSFER_ENCODING))
            && (t.core.headerState == Upgrade <==> Names(l.name, UPGRADE))
  {
    hide StepSys, MarkFits, Feed, Names, IsTokens;
    var n := l.name + [':' as int];
    HeaderNameExact(hc, s, l.name);
    var t := Feed(hc, s, n);
    assert Live(t) && FieldName(t.core.headerState);
    hide Inv;
    SkipGap(hc, t, l.gap);
    FeedAppend(hc, s, n, l.gap);
  }

  lemma LineEnded(hc: HeadersCallback, s: Sys, v: seq<Byte>)
    requires Live(s) && s.core.state == Hdr(HeaderValue) && s.obs.pending == Collecting(HValue, v)
    ensures var r := Feed(hc, s, [CR, LF]);
            && Live(r) && r.core == s.core.(state := Hdr(HeaderValueLws)) && r.used == s.used + 2
            && r.obs == Obs(Push(s.obs.trace, Data(HValue, v)), Idle)
  {
    hide StepSys, Inv, MarkFits;
    ValueCr(hc, s, v);
    var t := StepSys(hc, s, CR);
    ValueLf(hc, t);
    var u := StepSys(hc, t, LF);
    assert [CR, LF][1..] == [LF] && [LF][1..] == [];
    assert Feed(hc, s, [CR, LF]) == Feed(hc, t, [LF]);
    assert Feed(hc, t, [LF]) == Feed(hc, u, []);
  }

  // ----- lines that go on -----

  /** A value of no special header that goes on on the next line: the space in front and what follows are handed over as
      more of the same value. */
  lemma FoldedValue(hc: HeadersCallback, s: Sys, sp: Byte, w: seq<Byte>)
    requires Live(s) && s.core.state == Hdr(HeaderValueLws) && s.core.headerState == General && (sp == SP || sp == TAB) && OneLine(w)
    ensures var r := Feed(hc, s, [sp] + w + [CR, LF]);
            && Live(r) && r.core == s.core.(index := 0) && r.used == s.used + 3 + |w|
            && r.obs == Obs(Push(s.obs.trace, Data(HValue, [sp] + w)), Idle)
  {
    hide StepSys, Inv, MarkFits, Feed, ReadValue;
    FoldStarts(hc, s, sp);
    One(hc, s, sp);
    var t := StepSys(hc, s, sp);
    FeedAppend(hc, s, [sp], w);
    FeedValue(hc, t, [sp], w);
    GeneralStays(t.core, w);
    LenientReads(t.core, w);
    FeedAppend(hc, s, [sp] + w, [CR, LF]);
    LineEnded(hc, Feed(hc, t, w), [sp] + w);
  }

  lemma FoldStarts(hc: HeadersCallback, s: Sys, sp: Byte)
    requires Live(s) && s.core.state == Hdr(HeaderValueLws) && s.core.headerState == General && (sp == SP || sp == TAB)
    ensures var t := Sys(s.core.(state := Hdr(HeaderValue), index := 0), Obs(s.obs.trace, Collecting(HValue, [sp])), false, s.used + 1);
            StepSys(hc, s, sp) == t && Live(t)
  {
    NothingOpen(s);
    InvIndexed(s.core);
    assert StepHeader(hc, s.core, sp) == StartValue(s.core.(state := Hdr(HeaderValueStart)), sp);
    hide StepHeader, Inv;
    assert [] + [sp] == [sp];
  }

  // ----- all lines -----

  lemma TextStarts(l: Line, rest: seq<Byte>)
    requires LineOk(l)
    ensures var b := l.Text() + rest; b != [] && b[0] != SP && b[0] != TAB && l.Text()[0] == b[0]
  {
    assert l.Text()[0] == l.name[0] && Token(l.name[0]) != 0;
  }

  lemma {:induction false} LinesRead(hc: HeadersCallback, s: Sys, ls: seq<Line>)
    requires BetweenLines(s) && LinesOk(ls)
    ensures var r, c := Feed(hc, s, LinesText(ls)), Settled(s).core;
            && BetweenLines(r) && r.used == s.used + |LinesText(ls)|
            && Headlike(Settled(r).core, c, LinesFlags(c.flags, ls), LinesLength(c.contentLength, ls))
            && Settled(r).obs == Obs(LinesTrace(Settled(s).obs.trace, ls), Idle)
    decreases |ls|
  {
    hide StepSys, Inv, MarkFits, SetFlag, LineFlags, LineLength, LineOk;
    SettledLive(s);
    if ls != [] {
      var l, c := ls[0], Settled(s).core;
      TextStarts(l, []);
      assert l.Text() + [] == l.Text();
      SettledGoesOn(hc, s, l.Text());
      LineRead(hc, Settled(s), l);
      var r := Feed(hc, s, l.Text());
      LinesRead(hc, r, ls[1..]);
      FeedAppend(hc, s, l.Text(), LinesText(ls[1..]));
    }
  }

  /** The parser at the CR that ends the headers */
  function AtEnd(hc: HeadersCallback, s: Sys, ls: seq<Line>): (r: Sys)
    requires Live(s)
    ensures Good(r)
  {
    Feed(hc, s, LinesText(ls) + [CR])
  }

  lemma SectionRead(hc: HeadersCallback, s: Sys, ls: seq<Line>)
    requires Live(s) && s.core.state == Hdr(HeaderFieldStart) && LinesOk(ls)
    ensures var u := AtEnd(hc, s, ls);
            && Live(u) && u.core.state == Hdr(HeadersAlmostDone) && u.used == s.used + |LinesText(ls)| + 1
            && Headlike(u.core, s.core, LinesFlags(s.core.flags, ls), LinesLength(s.core.contentLength, ls))
            && u.obs == Obs(LinesTrace(s.obs.trace, ls), Idle)
  {
    hide StepSys, Inv, MarkFits, LinesFlags, LinesLength, LinesText, LinesTrace, SetFlag;
    LinesRead(hc, s, ls);
    var r := Feed(hc, s, LinesText(ls));
    FeedAppend(hc, s, LinesText(ls), [CR]);
    SettledGoesOn(hc, r, [CR]);
    SettledLive(r);
    LastCr(hc, Settled(r));
    assert [CR][1..] == [];
    assert Feed(hc, Settled(r), [CR]) == StepSys(hc, Settled(r), CR);
  }

  lemma LastCr(hc: HeadersCallback, s: Sys)
    requires Live(s) && s.core.state == Hdr(HeaderFieldStart)
    ensures StepSys(hc, s, CR) == s.(core := s.core.(state := Hdr(HeadersAlmostDone)), used := s.used + 1)
    ensures Live(StepSys(hc, s, CR))
  {
    assert StepHeader(hc, s.core, CR) == Goto(s.core, Hdr(HeadersAlmostDone));
    hide StepHeader, Inv;
    NothingOpen(s);
  }

  // ----- messages -----

  function LengthText(ls: seq<Line>, body: seq<Byte>): seq<Byte> {
    LinesText(ls) + [CR] + ([LF] + body)
  }

  function LengthTrace(t: seq<Event>, ls: seq<Line>, c: Core, body: seq<Byte>): seq<Event> {
    var h := Push(LinesTrace(t, ls), HeadersComplete(c));
    Push(if body == [] then h else Push(h, Data(Body, body)), MessageComplete)
  }

  /** Any header lines, of which the last Content-Length line tells the length, and as many bytes: the headers, that body,
      and the message is over. */
  lemma LengthMessage(hc: HeadersCallback, s: Sys, ls: seq<Line>, body: seq<Byte>)
    requires Live(s) && s.core.state == Hdr(HeaderFieldStart) && LinesOk(ls)
    requires |body| == LinesLength(s.core.contentLength, ls) <= MAX_CONTENT && Ordinary(hc, AtEnd(hc, s, ls).core)
    ensures var r, c := Feed(hc, s, LengthText(ls, body)), Headed(AtEnd(hc, s, ls).core);
            && r.obs == Obs(LengthTrace(s.obs.trace, ls, c, body), Idle)
            && r.used == s.used + |LengthText(ls, body)| && !r.halted && r.core.errno == OK && Over(r.core, c)
  {
    hide Feed, StepSys, Inv, MarkFits, Ordinary, LinesText, LinesTrace, LinesFlags, LinesLength, Headed, Over;
    SectionRead(hc, s, ls);
    FeedAppend(hc, s, LinesText(ls) + [CR], [LF] + body);
    BodyAfter(hc, AtEnd(hc, s, ls), body);
  }

  /** A Content-Length line with too large a number is refused, whatever lines are in front of it. */
  lemma TooLong(hc: HeadersCallback, s: Sys, ls: seq<Line>, n: seq<Byte>, gap: seq<Byte>, text: seq<Byte>, rest: seq<Byte>)
    requires Live(s) && s.core.state == Hdr(HeaderFieldStart) && LinesOk(ls) && IsLengthLine(n, gap, text)
    requires DecValue(0, text) > MAX_CONTENT
    ensures var r := Feed(hc, s, LinesText(ls) + (LengthHead(n, gap, text) + rest));
            r.halted && r.core.errno == InvalidContentLength
  {
    hide Feed, StepSys, Inv, MarkFits, LinesText, LinesTrace, LinesFlags, LinesLength, SetFlag, IsLengthLine, LengthHead;
    LinesRead(hc, s, ls);
    var r, b := Feed(hc, s, LinesText(ls)), LengthHead(n, gap, text);
    FeedAppend(hc, s, LinesText(ls), b + rest);
    FeedAppend(hc, r, b, rest);
    HeadStarts(n, gap, text);
    SettledGoesOn(hc, r, b);
    SettledAtStart(r);
    LengthHeadRead(hc, Settled(r), n, gap, text);
    HaltedStays(hc, Feed(hc, r, b), rest);
  }

  lemma HeadStarts(n: seq<Byte>, gap: seq<Byte>, text: seq<Byte>)
    requires IsLengthLine(n, gap, text)
    ensures var b := LengthHead(n, gap, text); b != [] && b[0] != SP && b[0] != TAB
  {
    assert LengthHead(n, gap, text)[0] == n[0] && Token(n[0]) != 0;
  }

  lemma SettledAtStart(s: Sys)
    requires BetweenLines(s)
    ensures Settled(s).core.state == Hdr(HeaderFieldStart)
  {
  }

  /** A chunked message that the user wants; it may ask for another protocol behind it, unless it is a CONNECT */
  predicate Coming(hc: HeadersCallback, c: Core) {
    && !c.flags.trailing && c.flags.chunked && !c.flags.skipBody && hc(Headed(c)) == 0
    && (Headed(c).upgrade ==> !c.mthd.CONNECT?)
  }

  lemma ChunksStart(hc: HeadersCallback, s: Sys)
    requires Live(s) && s.core.state == Hdr(HeadersAlmostDone) && Coming(hc, s.core) && s.obs.pending.Idle?
    ensures var t, c := StepSys(hc, s, LF), Headed(s.core);
            Live(t) && t == Sys(c.(state := Msg(ChunkSizeStart)), Obs(Push(s.obs.trace, HeadersComplete(c)), Idle), false, s.used + 1)
  {
    var c := Headed(s.core);
    InvIndexed(s.core);
    assert StepHeader(hc, s.core, LF) == EndHeaders(hc, s.core, LF);
    assert [HeadersComplete(c)] + [] == [HeadersComplete(c)];
    assert EndHeaders(hc, s.core, LF) == Out(c.(state := Msg(ChunkSizeStart)), NoteOf(HeadersComplete(c)), Go, true);
    assert PushAll(s.obs.trace, [HeadersComplete(c)]) == Push(s.obs.trace, HeadersComplete(c));
    hide StepHeader, EndHeaders, Inv, Headed;
  }

  /** The last chunk, trailer lines and the empty line */
  function Ending(last: Chunk, trailers: seq<Line>): seq<Byte> {
    SizeLine(last) + (LinesText(trailers) + [CR] + [LF])
  }

  lemma EndingRead(hc: HeadersCallback, s: Sys, last: Chunk, trailers: seq<Line>)
    requires Live(s) && s.core.state == Msg(ChunkSizeStart) && WellFormed(last) && last.payload == [] && LinesOk(trailers)
    ensures var r := Feed(hc, s, Ending(last, trailers));
            && r.obs == Obs(Push(Push(LinesTrace(Push(s.obs.trace, ChunkHeader(0)), trailers), ChunkComplete), MessageComplete), Idle)
            && r.used == s.used + |Ending(last, trailers)| && r.halted == s.core.upgrade && r.core.errno == OK
            && Over(r.core, s.core.(flags := LinesFlags(s.core.flags.(trailing := true), trailers)))
  {
    hide Feed, StepSys, Inv, MarkFits, LinesText, LinesTrace, LinesFlags, LinesLength, SizeLine, WellFormed;
    LastSize(hc, s, last);
    var t := Feed(hc, s, SizeLine(last));
    FeedAppend(hc, s, SizeLine(last), LinesText(trailers) + [CR] + [LF]);
    SectionRead(hc, t, trailers);
    var u := AtEnd(hc, t, trailers);
    FeedAppend(hc, t, LinesText(trailers) + [CR], [LF]);
    LinesKeep(t.core.flags, trailers);
    InChunks(s);
    TrailersEnd(hc, u);
    One(hc, u, LF);
  }

  lemma InChunks(s: Sys)
    requires Live(s) && s.core.state == Msg(ChunkSizeStart)
    ensures s.core.flags.chunked && s.core.statusCode >= 0
  {
  }

  lemma LastSize(hc: HeadersCallback, s: Sys, last: Chunk)
    requires Live(s) && s.core.state == Msg(ChunkSizeStart) && WellFormed(last) && last.payload == []
    ensures var t := Feed(hc, s, SizeLine(last));
            && Live(t) && t.core == s.core.(contentLength := 0, flags := s.core.flags.(trailing := true), state := Hdr(HeaderFieldStart))
            && t.obs == Obs(Push(s.obs.trace, ChunkHeader(0)), Idle) && t.used == s.used + |SizeLine(last)|
  {
    hide StepSys, Inv, MarkFits, Feed;
    SizeLineRead(hc, s, last);
  }

  lemma TrailersEnd(hc: HeadersCallback, s: Sys)
    requires Live(s) && s.core.state == Hdr(HeadersAlmostDone) && s.core.flags.trailing && s.obs.pending.Idle?
    ensures var r := StepSys(hc, s, LF);
            && r.obs == Obs(Push(Push(s.obs.trace, ChunkComplete), MessageComplete), Idle)
            && r.used == s.used + 1 && r.halted == s.core.upgrade && r.core == s.core.(state := NextState(s.core))
  {
    NextIs(s.core);
    InvIndexed(s.core);
    assert StepHeader(hc, s.core, LF) == EndHeaders(hc, s.core, LF);
    assert [ChunkComplete] + [MessageComplete] == [ChunkComplete, MessageComplete];
    PushTwo(s.obs.trace, ChunkComplete, MessageComplete);
    hide StepHeader, Inv;
  }

  lemma {:induction false} LinesKeep(f: Flags, ls: seq<Line>)
    requires LinesOk(ls)
    ensures LinesFlags(f, ls).trailing == f.trailing && LinesFlags(f, ls).skipBody == f.skipBody
    ensures f.chunked ==> LinesFlags(f, ls).chunked
    decreases |ls|
  {
    hide LineFlags, LineOk;
    if ls != [] {
      LineKeeps(f, ls[0]);
      LinesKeep(LineFlags(f, ls[0]), ls[1..]);
    }
  }

  lemma LineKeeps(f: Flags, l: Line)
    requires LineOk(l)
    ensures LineFlags(f, l).trailing == f.trailing && LineFlags(f, l).skipBody == f.skipBody
    ensures f.chunked ==> LineFlags(f, l).chunked
  {
    hide Taken, AnyHeard, Coded, Names, IsTokens, Blank, OneLine;
    if l.ConnectionLine? { HeardSets(l.items, f); }
  }

  function ChunkedText(ls: seq<Line>, cs: seq<Chunk>, last: Chunk, trailers: seq<Line>): seq<Byte> {
    LinesText(ls) + [CR] + ([LF] + (EncodeAll(cs) + Ending(last, trailers)))
  }

  function ChunkedTrace(t: seq<Event>, ls: seq<Line>, c: Core, cs: seq<Chunk>, trailers: seq<Line>): seq<Event> {
    var body := ChunksTrace(Push(LinesTrace(t, ls), HeadersComplete(c)), cs);
    Push(Push(LinesTrace(Push(body, ChunkHeader(0)), trailers), ChunkComplete), MessageComplete)
  }

  /** Any header lines that make the message chunked, its chunks, the last one, any trailer lines and the empty line: the
      headers, each chunk, the trailers, and the message is over. */
  lemma ChunkedMessage(hc: HeadersCallback, s: Sys, ls: seq<Line>, cs: seq<Chunk>, last: Chunk, trailers: seq<Line>)
    requires Live(s) && s.core.state == Hdr(HeaderFieldStart) && LinesOk(ls) && LinesOk(trailers)
    requires Coming(hc, AtEnd(hc, s, ls).core) && DataChunks(cs) && WellFormed(last) && last.payload == []
    ensures var r, c := Feed(hc, s, ChunkedText(ls, cs, last, trailers)), Headed(AtEnd(hc, s, ls).core);
            && r.obs == Obs(ChunkedTrace(s.obs.trace, ls, c, cs, trailers), Idle)
            && r.used == s.used + |ChunkedText(ls, cs, last, trailers)| && r.halted == c.upgrade && r.core.errno == OK
            && Over(r.core, c.(flags := LinesFlags(c.flags.(trailing := true), trailers)))
  {
    hide Feed, StepSys, Inv, MarkFits, Coming, LinesText, LinesTrace, LinesFlags, LinesLength, Headed, Ending, WellFormed, EncodeAll, ChunksTrace,
         Over;
    var rest := EncodeAll(cs) + Ending(last, trailers);
    SectionRead(hc, s, ls);
    FeedAppend(hc, s, LinesText(ls) + [CR], [LF] + rest);
    ChunksAfter(hc, AtEnd(hc, s, ls), cs, last, trailers);
  }

  /** The end of the headers, and a chunked body */
  lemma ChunksAfter(hc: HeadersCallback, u: Sys, cs: seq<Chunk>, last: Chunk, trailers: seq<Line>)
    requires Live(u) && u.core.state == Hdr(HeadersAlmostDone) && Coming(hc, u.core) && u.obs.pending.Idle? && LinesOk(trailers)
    requires DataChunks(cs) && WellFormed(last) && last.payload == []
    ensures var b, c := EncodeAll(cs) + Ending(last, trailers), Headed(u.core);
            var r := Feed(hc, u, [LF] + b);
            var t := ChunksTrace(Push(u.obs.trace, HeadersComplete(c)), cs);
            && r.obs == Obs(Push(Push(LinesTrace(Push(t, ChunkHeader(0)), trailers), ChunkComplete), MessageComplete), Idle)
            && r.used == u.used + 1 + |b| && r.halted == c.upgrade && r.core.errno == OK
            && Over(r.core, c.(flags := LinesFlags(c.flags.(trailing := true), trailers)))
  {
    hide Feed, StepSys, Inv, MarkFits, Coming, LinesText, LinesTrace, LinesFlags, LinesLength, Headed, Ending, WellFormed, EncodeAll, ChunksTrace,
         Over;
    ChunksStart(hc, u);
    One(hc, u, LF);
    FeedAppend(hc, u, [LF], EncodeAll(cs) + Ending(last, trailers));
    var v := Feed(hc, u, [LF]);
    ChunksDelivered(hc, v, cs);
    FeedAppend(hc, v, EncodeAll(cs), Ending(last, trailers));
    var w := Feed(hc, v, EncodeAll(cs));
    EndingRead(hc, w, last, trailers);
    var f := LinesFlags(w.core.flags.(trailing := true), trailers);
    LinesKeep(w.core.flags.(trailing := true), trailers);
    InChunks(w);
    SameNext(Feed(hc, w, Ending(last, trailers)).core, w.core.(flags := f), Headed(u.core).(flags := f));
  }

  /** What is behind a chunked message does not depend on its length. */
  lemma SameNext(r: Core, c: Core, d: Core)
    requires Over(r, c) && c == d.(state := c.state, contentLength := c.contentLength) && c.flags.chunked
    ensures Over(r, d)
  {
  }

  /** The lines set the flags and the length that the end of the headers goes by. */
  lemma HeadDecides(hc: HeadersCallback, s: Sys, ls: seq<Line>)
    requires Live(s) && s.core.state == Hdr(HeaderFieldStart) && LinesOk(ls)
    ensures var c, f := AtEnd(hc, s, ls).core, LinesFlags(s.core.flags, ls);
            && (Ordinary(hc, c) <==>
                  !f.trailing && !f.chunked && !f.skipBody && !((f.upgrade && f.connUpgrade) || s.core.mthd.CONNECT?) && hc(Headed(c)) == 0)
            && (Coming(hc, c) <==> !f.trailing && f.chunked && !f.skipBody && !s.core.mthd.CONNECT? && hc(Headed(c)) == 0)
            && Headed(c).upgrade == ((f.upgrade && f.connUpgrade) || s.core.mthd.CONNECT?)
  {
    hide Feed, StepSys, Inv, MarkFits, LinesText, LinesTrace, LinesFlags, LinesLength;
    SectionRead(hc, s, ls);
  }

  /** A chunked message, however it is cut: on_body is given the payloads of the chunks, and nothing else. */
  lemma MessageInPieces(hc: HeadersCallback, x: Conn, ls: seq<Line>, cs: seq<Chunk>, last: Chunk, trailers: seq<Line>,
                        pieces: seq<seq<Byte>>)
    requires Usable(x) && x.core.state == Hdr(HeaderFieldStart) && LinesOk(ls) && LinesOk(trailers)
    requires Live(Enter(x)) && Coming(hc, AtEnd(hc, Enter(x), ls).core) && DataChunks(cs) && WellFormed(last) && last.payload == []
    requires pieces != [] && forall i :: 0 <= i < |pieces| ==> pieces[i] != []
    requires Concat(pieces) == ChunkedText(ls, cs, last, trailers)
    ensures var y, c := CallAll(hc, x, pieces), Headed(AtEnd(hc, Enter(x), ls).core);
            && y.trace == ChunkedTrace(x.trace, ls, c, cs, trailers) && y.core.errno == OK
            && BodyOf(y.trace) == BodyOf(x.trace) + Payloads(cs)
  {
    hide Feed, StepSys, Inv, MarkFits, Coming, LinesOk, WellFormed, Headed, ChunkedText, ChunkedTrace, CallAll, BodyOf, Payloads;
    ChunkedMessage(hc, Enter(x), ls, cs, last, trailers);
    AnyCuts(hc, x, pieces);
    MessageBody(x.trace, ls, Headed(AtEnd(hc, Enter(x), ls).core), cs, trailers);
  }

  lemma MessageBody(t: seq<Event>, ls: seq<Line>, c: Core, cs: seq<Chunk>, trailers: seq<Line>)
    ensures BodyOf(ChunkedTrace(t, ls, c, cs, trailers)) == BodyOf(t) + Payloads(cs)
  {
    hide LinesTrace, ChunksTrace, BodyOf;
    LinesHaveNoBody(t, ls);
    var h := Push(LinesTrace(t, ls), HeadersComplete(c));
    BodyOfPush(LinesTrace(t, ls), HeadersComplete(c));
    BodyOfChunks(h, cs);
    var b := Push(ChunksTrace(h, cs), ChunkHeader(0));
    BodyOfPush(ChunksTrace(h, cs), ChunkHeader(0));
    LinesHaveNoBody(b, trailers);
    BodyOfPush(LinesTrace(b, trailers), ChunkComplete);
    BodyOfPush(Push(LinesTrace(b, trailers), ChunkComplete), MessageComplete);
  }

  lemma {:induction false} LinesHaveNoBody(t: seq<Event>, ls: seq<Line>)
    ensures BodyOf(LinesTrace(t, ls)) == BodyOf(t)
    decreases |ls|
  {
    if ls != [] {
      BodyOfPush(t, Data(HField, ls[0].name));
      BodyOfPush(Push(t, Data(HField, ls[0].name)), Data(HValue, ls[0].Value()));
      LinesHaveNoBody(Push(Push(t, Data(HField, ls[0].name)), Data(HValue, ls[0].Value())), ls[1..]);
    }
  }
}
