/** http_parser_execute: the loop over the input with its marks and its bulk scans. */
module HttpExecute {
  import opened Bytes
  import opened HttpTypes
  import opened HttpStep
  import opened HttpRun
  import opened HttpFeed

  const UINT32: int := 0x1_0000_0000

  /** The mark pointers, as offsets into the data of the call; -1 is NULL. */
  datatype Marks = Marks(field: int, value: int, url: int, body: int, status: int) {
    function Get(k: Kind): int {
      match k case HField => field case HValue => value case Url => url case Body => body case Status => status
    }

    function Put(k: Kind, p: int): Marks {
      match k
      case HField => this.(field := p)
      case HValue => this.(value := p)
      case Url => this.(url := p)
      case Body => this.(body := p)
      case Status => this.(status := p)
    }

    /** MARK: non-destructive if the mark is already set. */
    function MarkAt(k: Kind, p: int): Marks {
      if Get(k) < 0 then Put(k, p) else this
    }

    /** "There should be at most one of these set." */
    predicate AtMostOne() {
      (if field >= 0 then 1 else 0) + (if value >= 0 then 1 else 0) + (if url >= 0 then 1 else 0) +
      (if body >= 0 then 1 else 0) + (if status >= 0 then 1 else 0) <= 1
    }

    predicate Fits(p: int) {
      && AtMostOne()
      && -1 <= field <= p && -1 <= value <= p && -1 <= url <= p && -1 <= body <= p && -1 <= status <= p
    }
  }

  const NO_MARKS := Marks(-1, -1, -1, -1, -1)

  /** The data that the marks stand for when byte p is next. */
  function PendingOf(m: Marks, data: seq<Byte>, p: nat): Pending
    requires p <= |data| && m.Fits(p)
  {
    if m.field >= 0 then Collecting(HField, data[m.field..p])
    else if m.value >= 0 then Collecting(HValue, data[m.value..p])
    else if m.url >= 0 then Collecting(Url, data[m.url..p])
    else if m.body >= 0 then Collecting(Body, data[m.body..p])
    else if m.status >= 0 then Collecting(Status, data[m.status..p])
    else Idle
  }

  lemma MarkAtMeans(m: Marks, data: seq<Byte>, p: nat, k: Kind, t: seq<Event>)
    requires p <= |data| && m.Fits(p)
    requires Open(PendingOf(m, data, p)) == None || Open(PendingOf(m, data, p)) == Some(k)
    ensures m.MarkAt(k, p).Fits(p)
    ensures Obs(t, PendingOf(m.MarkAt(k, p), data, p)) == SetMark(Obs(t, PendingOf(m, data, p)), k)
  {
    assert data[p..p] == [];
  }

  lemma ClearMeans(m: Marks, data: seq<Byte>, p: nat, k: Kind)
    requires p <= |data| && m.Fits(p)
    requires Open(PendingOf(m, data, p)) == None || Open(PendingOf(m, data, p)) == Some(k)
    ensures m.Put(k, -1).Fits(p) && PendingOf(m.Put(k, -1), data, p).Idle?
    ensures m.Get(k) >= 0 <==> Open(PendingOf(m, data, p)) == Some(k)
    ensures m.Get(k) >= 0 ==> PendingOf(m, data, p) == Collecting(k, data[m.Get(k)..p])
  {
  }

  lemma PendingGrows(m: Marks, data: seq<Byte>, p: nat, q: nat, t: seq<Event>)
    requires p <= q <= |data| && m.Fits(p)
    ensures m.Fits(q)
    ensures PendingOf(m, data, q) ==
            match PendingOf(m, data, p)
            case Idle => Idle
            case Collecting(k, u) => Collecting(k, u + data[p..q])
  {
    forall i | 0 <= i <= p ensures data[i..q] == data[i..p] + data[p..q] { }
  }

  // ----- what the loop has established when byte p is next -----

  ghost predicate Tracks(hc: HeadersCallback, x: Conn, data: seq<Byte>, p: nat, c: Core,
                         t: seq<Event>, m: Marks)
    requires Usable(x)
  {
    && p <= |data| && m.Fits(p)
    && During(hc, x, data[..p]) == Sys(c, Obs(t, PendingOf(m, data, p)), false, p)
  }

  /** The call is over before the end of its data. */
  ghost predicate Stopped(hc: HeadersCallback, x: Conn, data: seq<Byte>, c: Core, t: seq<Event>, used: int)
    requires Usable(x)
  {
    var d := During(hc, x, data);
    d.halted && d.core == c && d.obs.trace == t && d.used == used
  }

  /** The next byte, from the point of view of the one-byte machine. */
  lemma NextByte(hc: HeadersCallback, x: Conn, data: seq<Byte>, p: nat)
    requires Usable(x) && p < |data| && !During(hc, x, data[..p]).halted
    ensures During(hc, x, data[..p + 1]) == StepSys(hc, During(hc, x, data[..p]), data[p])
    ensures During(hc, x, data[..p + 1]).halted ==> During(hc, x, data) == During(hc, x, data[..p + 1])
  {
    hide StepSys, Inv, MarkFits;
    EnterLive(x);
    assert data[..p + 1] == data[..p] + [data[p]];
    FeedAppend(hc, Enter(x), data[..p], [data[p]]);
    var s := During(hc, x, data[..p]);
    assert Feed(hc, s, [data[p]]) == Feed(hc, StepSys(hc, s, data[p]), []);
    assert data == data[..p + 1] + data[p + 1..];
    FeedAppend(hc, Enter(x), data[..p + 1], data[p + 1..]);
  }

  lemma TracksInv(hc: HeadersCallback, x: Conn, data: seq<Byte>, p: nat, c: Core, t: seq<Event>, m: Marks)
    requires Usable(x) && Tracks(hc, x, data, p, c, t, m)
    ensures m.Fits(p) && Inv(c) && c.index >= 0 && c.errno == OK
    ensures MarkFits(c.state, Open(PendingOf(m, data, p)))
  {
    assert Live(During(hc, x, data[..p]));
    hide During, MarkFits, HeaderFits, BodyFits, NumbersFit, MethodFits;
  }

  /** An accepted byte, in terms of the machine's observer. */
  lemma AcceptedByte(hc: HeadersCallback, x: Conn, data: seq<Byte>, p: nat, c: Core, t: seq<Event>, m: Marks)
    requires Usable(x) && p < |data| && Tracks(hc, x, data, p, c, t, m) && c.index >= 0
    requires !Step(hc, c, data[p]).verdict.Fail?
    ensures var o := Step(hc, c, data[p]);
            During(hc, x, data[..p + 1]) ==
            Sys(o.core, Absorb(Observe(Obs(t, PendingOf(m, data, p)), o.calls, data[p]), data[p]),
                o.verdict.Exit?, p + 1)
  {
    hide Step, Inv, MarkFits, Observe, Absorb, During;
    NextByte(hc, x, data, p);
  }

  /** A refused byte ends the call. */
  lemma RefusedByte(hc: HeadersCallback, x: Conn, data: seq<Byte>, p: nat, c: Core, t: seq<Event>, m: Marks)
    requires Usable(x) && p < |data| && Tracks(hc, x, data, p, c, t, m) && c.index >= 0
    requires Step(hc, c, data[p]).verdict.Fail?
    ensures var o := Step(hc, c, data[p]);
            Stopped(hc, x, data, o.core,
                    Observe(Obs(t, PendingOf(m, data, p)), o.calls, data[p]).trace, p)
  {
    hide Step, Inv, MarkFits, Observe, Absorb, During;
    NextByte(hc, x, data, p);
  }

  /** The loop has run the calls of byte p: it goes on with the next byte, or the call is over. */
  lemma ByteDone(hc: HeadersCallback, x: Conn, data: seq<Byte>, p: nat, c: Core, t: seq<Event>, m: Marks,
                 t': seq<Event>, m': Marks)
    requires Usable(x) && p < |data| && Tracks(hc, x, data, p, c, t, m) && c.index >= 0
    requires m'.Fits(p)
    requires Obs(t', PendingOf(m', data, p)) ==
             Observe(Obs(t, PendingOf(m, data, p)), Step(hc, c, data[p]).calls, data[p])
    ensures var o := Step(hc, c, data[p]);
            match o.verdict
            case Go => Tracks(hc, x, data, p + 1, o.core, t', m')
            case Exit => Stopped(hc, x, data, o.core, t', p + 1)
            case Fail => Stopped(hc, x, data, o.core, t', p)
  {
    hide Step, Inv, MarkFits, Observe, During;
    if Step(hc, c, data[p]).verdict.Fail? {
      RefusedByte(hc, x, data, p, c, t, m);
    } else {
      AcceptedByte(hc, x, data, p, c, t, m);
      NextByte(hc, x, data, p);
      PendingGrows(m', data, p, p + 1, t');
      assert data[p..p + 1] == [data[p]];
    }
  }

  /** A byte that the machine accepts without any call keeps the loop on track. */
  lemma QuietByte(hc: HeadersCallback, x: Conn, data: seq<Byte>, p: nat, c: Core, t: seq<Event>, m: Marks)
    requires Usable(x) && p < |data| && Tracks(hc, x, data, p, c, t, m) && c.index >= 0
    requires Step(hc, c, data[p]).verdict.Go? && Step(hc, c, data[p]).calls == QUIET
    ensures Tracks(hc, x, data, p + 1, Step(hc, c, data[p]).core, t, m)
  {
    hide Step, Inv, MarkFits, During;
    AcceptedByte(hc, x, data, p, c, t, m);
    PendingGrows(m, data, p, p + 1, t);
    assert data[p..p + 1] == [data[p]];
  }

  /** A mark that is open during a stretch of quiet bytes takes the whole stretch. */
  lemma {:induction false} QuietStretch(hc: HeadersCallback, x: Conn, data: seq<Byte>, p: nat, q: nat,
                                        c: Core, t: seq<Event>, m: Marks)
    requires Usable(x) && p <= q <= |data| && Tracks(hc, x, data, p, c, t, m) && c.index >= 0
    requires forall i :: p <= i < q ==> Step(hc, c, data[i]) == Out(c, QUIET, Go, false)
    ensures Tracks(hc, x, data, q, c, t, m)
    decreases q - p
  {
    hide Step, Tracks;
    if p < q {
      assert Step(hc, c, data[p]) == Out(c, QUIET, Go, false);
      QuietByte(hc, x, data, p, c, t, m);
      QuietStretch(hc, x, data, p + 1, q, c, t, m);
    }
  }

  /** A body byte that is not the last sets the body mark or extends it. */
  lemma BodyByte(hc: HeadersCallback, x: Conn, data: seq<Byte>, p: nat, c: Core, t: seq<Event>, m: Marks)
    requires Usable(x) && p < |data| && Tracks(hc, x, data, p, c, t, m) && c.index >= 0
    requires Step(hc, c, data[p]).verdict.Go? && Step(hc, c, data[p]).calls == MarkOf(Body)
    ensures Tracks(hc, x, data, p + 1, Step(hc, c, data[p]).core, t, m.MarkAt(Body, p))
  {
    TracksInv(hc, x, data, p, c, t, m);
    StepMarks(hc, c, data[p], Open(PendingOf(m, data, p)));
    hide Step, Inv, MarkFits, During, PendingOf;
    AcceptedByte(hc, x, data, p, c, t, m);
    MarkAtMeans(m, data, p, Body, t);
    PendingGrows(m.MarkAt(Body, p), data, p, p + 1, t);
    assert data[p..p + 1] == [data[p]];
  }

  lemma BodyMarked(m: Marks, data: seq<Byte>, p: nat, q: nat, t: seq<Event>)
    requires p <= q <= |data| && m.Fits(p)
    requires Open(PendingOf(m, data, p)) == None || Open(PendingOf(m, data, p)) == Some(Body)
    ensures m.MarkAt(Body, p).Fits(q)
    ensures PendingOf(m.MarkAt(Body, p), data, q) ==
            Collecting(Body, Collected(PendingOf(m, data, p)) + data[p..q])
  {
    MarkAtMeans(m, data, p, Body, t);
    PendingGrows(m.MarkAt(Body, p), data, p, q, t);
  }

  lemma BodyOpen(s: State, open: Option<Kind>)
    requires MarkFits(s, open) && s.Msg?
    ensures open == None || open == Some(Body)
  {
  }

  lemma BodyStretch(hc: HeadersCallback, x: Conn, data: seq<Byte>, p: nat, n: nat,
                    c: Core, t: seq<Event>, m: Marks)
    requires Usable(x) && p + n <= |data| && Tracks(hc, x, data, p, c, t, m)
    requires c.state == Msg(BodyIdentity) || c.state == Msg(ChunkData)
    requires n < c.contentLength
    ensures Tracks(hc, x, data, p + n, c.(contentLength := c.contentLength - n), t,
                   if n == 0 then m else m.MarkAt(Body, p))
  {
    hide StepSys, Inv, MarkFits, PendingOf;
    if n == 0 {
      assert c.(contentLength := c.contentLength - 0) == c;
    } else {
      EnterLive(x);
      TracksInv(hc, x, data, p, c, t, m);
      BodyOpen(c.state, Open(PendingOf(m, data, p)));
      BodyMarked(m, data, p, p + n, t);
      var s, piece := During(hc, x, data[..p]), data[p..p + n];
      assert data[..p + n] == data[..p] + piece;
      FeedAppend(hc, Enter(x), data[..p], piece);
      FeedBody(hc, s, piece);
    }
  }

  lemma {:induction false} EofStretch(hc: HeadersCallback, x: Conn, data: seq<Byte>, p: nat, q: nat,
                                      c: Core, t: seq<Event>, m: Marks)
    requires Usable(x) && p < q <= |data| && Tracks(hc, x, data, p, c, t, m)
    requires c.state == Msg(BodyIdentityEof) && c.index >= 0
    ensures Tracks(hc, x, data, q, c, t, m.MarkAt(Body, p))
    decreases q - p
  {
    BodyByte(hc, x, data, p, c, t, m);
    if p + 1 < q { EofStretch(hc, x, data, p + 1, q, c, t, m.MarkAt(Body, p)); }
  }

  predicate ResetsForChunk(o: Out) {
    o.core.state == Msg(ChunkSizeStart) && !o.verdict.Fail? ==> o.resetNread
  }

  lemma HeaderResets(hc: HeadersCallback, c: Core, ch: Byte)
    requires c.state.Hdr? && c.index >= 0
    ensures ResetsForChunk(StepHeader(hc, c, ch))
  {
    hide ShouldKeepAlive, InField, InValue, StartValue, StartField, EndHeaders, ResetsForChunk;
    InsideResets(c, ch);
    InsideResets(c.(state := Hdr(HeaderValueStart)), ch);
    EndResets(hc, c, ch);
    StartResets(hc, c, ch);
    StartResets(hc, c.(state := Hdr(HeaderFieldStart), flags := SetFlag(c.flags, c.headerState)), ch);
    Resets(StepHeader(hc, c, ch));
  }

  lemma Resets(o: Out)
    ensures ResetsForChunk(o) == (o.core.state == Msg(ChunkSizeStart) && !o.verdict.Fail? ==> o.resetNread)
    ensures forall b: bool :: ResetsForChunk(o.(calls := o.calls.(emptyValue := b))) == ResetsForChunk(o)
  {
  }

  lemma InsideResets(c: Core, ch: Byte)
    requires c.state.Hdr? && c.index >= 0
    ensures ResetsForChunk(InField(c, ch)) && ResetsForChunk(InValue(c, ch)) && ResetsForChunk(StartValue(c, ch))
  {
    hide NameStep, ValueStep;
    ValueStepQuiet(c, ch);
  }

  lemma EndResets(hc: HeadersCallback, c: Core, ch: Byte)
    ensures ResetsForChunk(EndHeaders(hc, c, ch))
  {
    hide ShouldKeepAlive;
  }

  lemma StartResets(hc: HeadersCallback, c: Core, ch: Byte)
    ensures ResetsForChunk(StartField(hc, c, ch))
  {
    hide EndHeaders;
    EndResets(hc, c.(state := Hdr(HeadersAlmostDone)), ch);
  }

  lemma LineResets(c: Core, ch: Byte)
    requires c.index >= 0 && (c.state.Res? || c.state.Req?)
    ensures ResetsForChunk(if c.state.Res? then StepResponse(c, ch) else StepRequest(c, ch))
  {
    hide MethodString, SwitchMethod;
  }

  lemma ValueStepQuiet(c: Core, ch: Byte)
    requires c.index >= 0
    ensures var o := ValueStep(c, ch);
            o.calls == QUIET && !o.resetNread && !o.verdict.Exit? && o.core.state == c.state &&
            (o.verdict.Go? ==> o.core.errno == c.errno) && (o.verdict.Fail? ==> o.core.errno != OK)
  {
    hide MatchStep, ConnectionStart, Token, LengthFull, SetFlag;
  }

  /** A stretch of an uninteresting header value without a line end. */
  lemma QuietLine(hc: HeadersCallback, x: Conn, data: seq<Byte>, p: nat, q: nat, c: Core, t: seq<Event>, m: Marks)
    requires Usable(x) && p <= q <= |data| && Tracks(hc, x, data, p, c, t, m) && c.index >= 0
    requires c.state == Hdr(HeaderValue) && c.headerState.General?
    requires forall i :: p <= i < q ==> data[i] != CR && data[i] != LF
    ensures Tracks(hc, x, data, q, c, t, m)
  {
    hide Tracks;
    forall i | p <= i < q ensures Step(hc, c, data[i]) == Out(c, QUIET, Go, false) { }
    QuietStretch(hc, x, data, p, q, c, t, m);
  }

  /** A chunk-size line is only ever entered with the header counter reset. */
  lemma ChunkStartResets(hc: HeadersCallback, c: Core, ch: Byte)
    requires c.index >= 0
    ensures ResetsForChunk(Step(hc, c, ch))
  {
    hide StepRequest, StepResponse, StepHeader, ShouldKeepAlive;
    match c.state
    case Res(_) => LineResets(c, ch);
    case Req(_) => LineResets(c, ch);
    case Hdr(_) => HeaderResets(hc, c, ch);
    case _ =>
  }

  /** memchr over data[p..p + n] */
  method MemChr(data: seq<Byte>, p: nat, n: nat, b: Byte) returns (q: int)
    requires p + n <= |data|
    ensures q == -1 || p <= q < p + n
    ensures q == -1 ==> forall i :: p <= i < p + n ==> data[i] != b
    ensures q >= 0 ==> data[q] == b && forall i :: p <= i < q ==> data[i] != b
  {
    q := p;
    while q < p + n
      invariant p <= q <= p + n
      invariant forall i :: p <= i < q ==> data[i] != b
    {
      if data[q] == b { return; }
      q := q + 1;
    }
    q := -1;
  }

  /** How far a piece of the loop got: byte p is next, the call ends, or the headers are too long. */
  datatype Progress = Next(p: nat) | Ended(used: nat) | TooLong(at: nat)

  /** What a piece of the loop that started at byte p has established; n0 is the header counter
      at the start of the call. */
  ghost predicate Reached(hc: HeadersCallback, x: Conn, data: seq<Byte>, p: nat, n0: int, r: Progress,
                          c: Core, nread: int, t: seq<Event>, m: Marks)
    requires Usable(x)
  {
    match r
    case Next(q) =>
      p < q && Tracks(hc, x, data, q, c, t, m) && CounterFits(c, nread, n0 + q + (if q == |data| then 1 else 0))
    case Ended(used) =>
      Stopped(hc, x, data, c, t, used) && CounterFits(c, nread, n0 + |data|)
    case TooLong(at) =>
      c.errno == HeaderOverflow && at <= |data| && n0 + |data| + 1 > HTTP_MAX_HEADER_SIZE
  }

  predicate CounterFits(c: Core, nread: int, most: int) {
    && 0 <= nread <= HTTP_MAX_HEADER_SIZE && nread <= most
    && (c.errno == OK && c.state == Msg(ChunkSizeStart) ==> nread == 0)
  }

  class HttpParser {
    var core: Core
    var nread: int
    /** the callbacks made so far, adjacent data callbacks joined */
    var trace: seq<Event>

    ghost predicate Valid()
      reads this
    {
      core.errno == OK ==>
        Inv(core) && 0 <= nread <= HTTP_MAX_HEADER_SIZE && (core.state == Msg(ChunkSizeStart) ==> nread == 0)
    }

    constructor (t: MessageType)
      ensures Valid() && core == InitCore(t) && nread == 0 && trace == []
    {
      core, nread, trace := InitCore(t), 0, [];
    }

    /** COUNT_HEADER_SIZE */
    method CountHeaderSize(v: nat) returns (ok: bool)
      requires 0 <= nread <= HTTP_MAX_HEADER_SIZE && v < 0x8000_0000
      modifies this`nread, this`core
      ensures nread == old(nread) + v
      ensures ok <==> nread <= HTTP_MAX_HEADER_SIZE
      ensures core == if ok then old(core) else old(core).(errno := HeaderOverflow)
    {
      nread := (nread + v) % UINT32;
      ok := nread <= HTTP_MAX_HEADER_SIZE;
      if !ok { core := core.(errno := HeaderOverflow); }
    }

    /** CALLBACK_DATA_: hand over the data from the mark up to end, and clear the mark. */
    method CallbackData(m: Marks, k: Kind, data: seq<Byte>, end: nat) returns (r: Marks)
      requires m.Get(k) <= end <= |data|
      modifies this`trace
      ensures r == m.Put(k, -1) || (m.Get(k) < 0 && r == m)
      ensures trace == if m.Get(k) < 0 then old(trace)
                       else Push(old(trace), Data(k, data[m.Get(k)..end]))
    {
      r := m;
      if m.Get(k) >= 0 {
        trace := Push(trace, Data(k, data[m.Get(k)..end]));
        r := m.Put(k, -1);
      }
    }

    method HandOverMark(m: Marks, k: Kind, data: seq<Byte>, p: nat, withByte: bool) returns (r: Marks)
      requires p < |data| && m.Fits(p)
      requires Open(PendingOf(m, data, p)) == None || Open(PendingOf(m, data, p)) == Some(k)
      modifies this`trace
      ensures r.Fits(p)
      ensures Obs(trace, PendingOf(r, data, p)) ==
              HandOver(Obs(old(trace), PendingOf(m, data, p)), k, if withByte then [data[p]] else [])
    {
      ClearMeans(m, data, p, k);
      if m.Get(k) >= 0 {
        assert data[m.Get(k)..p + 1] == data[m.Get(k)..p] + [data[p]];
        assert data[m.Get(k)..p] == data[m.Get(k)..p] + [];
      }
      r := CallbackData(m, k, data, if withByte then p + 1 else p);
    }

    /** Run the marks and callbacks of one byte. */
    method RunCalls(m: Marks, data: seq<Byte>, p: nat, c: Calls) returns (r: Marks)
      requires p < |data| && m.Fits(p) && Orderly(Open(PendingOf(m, data, p)), c)
      modifies this`trace
      ensures r.Fits(p)
      ensures Obs(trace, PendingOf(r, data, p)) ==
              Observe(Obs(old(trace), PendingOf(m, data, p)), c, data[p])
    {
      r := m;
      if c.emptyValue {
        MarkAtMeans(r, data, p, HValue, trace);
        r := HandOverMark(r.MarkAt(HValue, p), HValue, data, p, false);
      }
      if c.mark.Some? {
        MarkAtMeans(r, data, p, c.mark.value, trace);
        r := r.MarkAt(c.mark.value, p);
      }
      if c.flush.Some? {
        r := HandOverMark(r, c.flush.value, data, p, c.withByte);
      }
      trace := PushAll(trace, c.notes);
    }

    /** The states whose code looks at one byte. */
    method StepOne(hc: HeadersCallback, ghost x: Conn, data: seq<Byte>, p: nat, m: Marks, ghost n0: int)
      returns (r: Progress, m': Marks)
      requires Usable(x) && p < |data| < 0x8000_0000 && Tracks(hc, x, data, p, core, trace, m)
      requires 0 <= nread <= HTTP_MAX_HEADER_SIZE && nread <= n0 + p + 1 && 0 <= n0
      requires core.state == Msg(ChunkSizeStart) ==> nread == 1
      modifies this
      ensures Reached(hc, x, data, p, n0, r, core, nread, trace, m') && !r.TooLong?
    {
      TracksInv(hc, x, data, p, core, trace, m);
      StepMarks(hc, core, data[p], Open(PendingOf(m, data, p)));
      StepKeepsInv(hc, core, data[p]);
      ChunkStartResets(hc, core, data[p]);
      hide Step, Inv, MarkFits, Observe, PendingOf, Orderly;
      var o := Step(hc, core, data[p]);
      ghost var c0, t0 := core, trace;
      m' := RunCalls(m, data, p, o.calls);
      ByteDone(hc, x, data, p, c0, t0, m, trace, m');
      hide Tracks, Stopped;
      core := o.core;
      if o.resetNread { nread := 0; }
      r := match o.verdict case Go => Next(p + 1) case Exit => Ended(p + 1) case Fail => Ended(p);
    }

    /** s_header_field: all the name characters that are at hand. */
    method ScanField(hc: HeadersCallback, ghost x: Conn, data: seq<Byte>, start: nat, m: Marks, ghost n0: int)
      returns (r: Progress, m': Marks)
      requires Usable(x) && start < |data| < 0x8000_0000 && Tracks(hc, x, data, start, core, trace, m)
      requires core.state == Hdr(HeaderField)
      requires 0 <= nread <= HTTP_MAX_HEADER_SIZE && nread <= n0 + start + 1 && 0 <= n0
      modifies this
      ensures Reached(hc, x, data, start, n0, r, core, nread, trace, m')
    {
      hide During, PendingOf, Marks.Fits, NameStep;
      m' := m;
      var p := start;
      while p < |data|
        invariant start <= p <= |data|
        invariant Tracks(hc, x, data, p, core, trace, m)
        invariant core.state == Hdr(HeaderField)
        invariant nread == old(nread)
      {
        TracksInv(hc, x, data, p, core, trace, m);
        var c := Token(data[p]);
        if c == 0 { break; }
        assert FieldName(core.headerState);   // no unknown header_state
        QuietByte(hc, x, data, p, core, trace, m);
        var (h, i) := NameStep(core.headerState, core.index, c);
        core := core.(headerState := h, index := i);
        p := p + 1;
      }
      TracksInv(hc, x, data, p, core, trace, m);
      hide Inv, Tracks, Stopped;
      ghost var c0, t0 := core, trace;
      var ok := CountHeaderSize(p - start);
      if !ok { return TooLong(p), m; }
      if p == |data| { return Next(p), m; }
      if data[p] == ':' as int {
        core := core.(state := Hdr(HeaderValueDiscardWs));
        m' := HandOverMark(m, HField, data, p, false);
        ByteDone(hc, x, data, p, c0, t0, m, trace, m');
        r := Next(p + 1);
      } else {
        ByteDone(hc, x, data, p, c0, t0, m, trace, m);
        core := core.(errno := InvalidHeaderToken);
        r := Ended(p);
      }
    }

    /** The memchr step of s_header_value: the first CR or LF among the next 80K bytes, or the end
        of the data. */
    method FindLineEnd(data: seq<Byte>, p: nat) returns (q: nat)
      requires p < |data|
      ensures p <= q <= |data|
      ensures (forall i :: p <= i < q ==> data[i] != CR && data[i] != LF) ||
              (q == |data| && q - p > HTTP_MAX_HEADER_SIZE)
      ensures q == p ==> data[p] == CR || data[p] == LF
    {
      var limit := if |data| - p < HTTP_MAX_HEADER_SIZE then |data| - p else HTTP_MAX_HEADER_SIZE;
      var cr := MemChr(data, p, limit, CR);
      var lf := MemChr(data, p, limit, LF);
      if cr != -1 {
        q := if lf != -1 && cr >= lf then lf else cr;
      } else if lf != -1 {
        q := lf;
      } else {
        q := |data|;
      }
    }

    /** The line end at byte p of a header value whose scan began at start. */
    method EndValue(hc: HeadersCallback, ghost x: Conn, data: seq<Byte>, start: nat, p: nat, m: Marks,
                    h: HeaderState, ghost n0: int)
      returns (r: Progress, m': Marks)
      requires Usable(x) && start <= p < |data| < 0x8000_0000
      requires Tracks(hc, x, data, p, core.(headerState := h), trace, m)
      requires core.state == Hdr(HeaderValue) && (data[p] == CR || data[p] == LF)
      requires 0 <= nread <= HTTP_MAX_HEADER_SIZE && nread <= n0 + start + 1 && 0 <= n0
      modifies this
      ensures Reached(hc, x, data, start, n0, r, core, nread, trace, m')
    {
      hide During, PendingOf, Marks.Fits, ValueStep, Inv, Tracks, Stopped;
      ghost var c0, t0 := core.(headerState := h), trace;
      TracksInv(hc, x, data, p, c0, t0, m);
      core := core.(state := Hdr(HeaderAlmostDone));
      if data[p] == CR {
        core := core.(headerState := h);
        m' := HandOverMark(m, HValue, data, p, false);
        ByteDone(hc, x, data, p, c0, t0, m, trace, m');
        var ok := CountHeaderSize(p - start);
        r := if ok then Next(p + 1) else TooLong(p);
      } else {
        var ok := CountHeaderSize(p - start);
        if !ok { return TooLong(p), m; }
        core := core.(headerState := h);
        m' := HandOverMark(m, HValue, data, p, false);
        core := core.(state := Hdr(HeaderValueLws));   // s_header_almost_done sees the same LF
        ByteDone(hc, x, data, p, c0, t0, m, trace, m');
        r := Next(p + 1);
      }
    }

    /** s_header_value: as much of the value as is at hand. */
    method ScanValue(hc: HeadersCallback, ghost x: Conn, data: seq<Byte>, start: nat, m: Marks, ghost n0: int)
      returns (r: Progress, m': Marks)
      requires Usable(x) && start < |data| < 0x8000_0000 && Tracks(hc, x, data, start, core, trace, m)
      requires core.state == Hdr(HeaderValue)
      requires 0 <= nread <= HTTP_MAX_HEADER_SIZE && nread <= n0 + start + 1 && 0 <= n0
      modifies this
      ensures Reached(hc, x, data, start, n0, r, core, nread, trace, m')
    {
      hide During, PendingOf, Marks.Fits, ValueStep;
      m' := m;
      var p := start;
      var h := core.headerState;
      while p < |data|
        invariant start <= p <= |data|
        invariant core.state == Hdr(HeaderValue) && core.errno == OK
        invariant nread == old(nread) && m' == m
        invariant Tracks(hc, x, data, p, core.(headerState := h), trace, m) ||
                  (p == |data| && p - start > HTTP_MAX_HEADER_SIZE)
      {
        ghost var c0, t0 := core.(headerState := h), trace;
        TracksInv(hc, x, data, p, c0, t0, m);
        hide Inv, Tracks, Stopped;
        var ch := data[p];
        if ch == CR || ch == LF {
          r, m' := EndValue(hc, x, data, start, p, m, h, n0);
          return;
        }
        if h.General? {
          var q := FindLineEnd(data, p);
          if forall i :: p <= i < q ==> data[i] != CR && data[i] != LF {
            QuietLine(hc, x, data, p, q, c0, t0, m);
          }
          p := q;
        } else {
          assert FieldValue(h);   // "Shouldn't get here." is not reached
          var o := ValueStep(core.(headerState := h), ch);
          if o.verdict.Fail? {
            ValueStepQuiet(c0, ch);
            ByteDone(hc, x, data, p, c0, t0, m, trace, m);
            core := o.core;
            return Ended(p), m;
          }
          ValueStepQuiet(c0, ch);
          QuietByte(hc, x, data, p, c0, t0, m);
          h := o.core.headerState;
          core := o.core.(headerState := core.headerState);
          p := p + 1;
        }
      }
      core := core.(headerState := h);
      var ok := CountHeaderSize(p - start);
      r := if ok then Next(p) else TooLong(p);
    }

    /** The last byte of an identity body, at p, completes the message. */
    method CompleteBody(hc: HeadersCallback, ghost x: Conn, data: seq<Byte>, start: nat, p: nat, ghost before: Marks,
                        m: Marks, ghost n0: int)
      returns (r: Progress, m': Marks)
      requires Usable(x) && start <= p < |data| && m == before.MarkAt(Body, p)
      requires core.contentLength == 0
      requires core.state == Msg(BodyIdentity)
      requires Tracks(hc, x, data, p, core.(contentLength := 1), trace, before)
      requires 0 <= nread <= HTTP_MAX_HEADER_SIZE && nread <= n0 + start + 1 && 0 <= n0
      modifies this
      ensures Reached(hc, x, data, start, n0, r, core, nread, trace, m') && !r.TooLong?
    {
      hide During, PendingOf, Marks.Fits, ShouldKeepAlive;
      ghost var c1, t0 := core.(contentLength := 1), trace;
      TracksInv(hc, x, data, p, c1, t0, before);
      StepMarks(hc, c1, data[p], Open(PendingOf(before, data, p)));
      hide Inv, Tracks, Stopped;
      MarkAtMeans(before, data, p, Body, t0);
      core := core.(state := Msg(MessageDone));
      var o := Finish(core, core.upgrade);
      m' := HandOverMark(m, Body, data, p, true);
      trace := PushAll(trace, o.calls.notes);
      ByteDone(hc, x, data, p, c1, t0, before, trace, m');
      core := o.core;
      r := if o.verdict.Exit? then Ended(p + 1) else Next(p + 1);
    }

    /** s_body_identity: all of the body that is at hand. */
    method ScanIdentity(hc: HeadersCallback, ghost x: Conn, data: seq<Byte>, start: nat, m: Marks, ghost n0: int)
      returns (r: Progress, m': Marks)
      requires Usable(x) && start < |data| && Tracks(hc, x, data, start, core, trace, m)
      requires core.state == Msg(BodyIdentity)
      requires 0 <= nread <= HTTP_MAX_HEADER_SIZE && nread <= n0 + start + 1 && 0 <= n0
      modifies this
      ensures Reached(hc, x, data, start, n0, r, core, nread, trace, m') && !r.TooLong?
    {
      hide During, PendingOf, Marks.Fits, ShouldKeepAlive;
      ghost var c0, t0 := core, trace;
      TracksInv(hc, x, data, start, core, trace, m);
      assert core.contentLength != 0 && core.contentLength != NO_LENGTH;
      hide Inv, Tracks, Stopped;
      var toRead := if core.contentLength < |data| - start then core.contentLength else |data| - start;
      m' := m.MarkAt(Body, start);
      core := core.(contentLength := core.contentLength - toRead);
      var p := start + toRead - 1;
      if core.contentLength != 0 {
        BodyStretch(hc, x, data, start, toRead, c0, t0, m);
        return Next(p + 1), m';
      }
      BodyStretch(hc, x, data, start, toRead - 1, c0, t0, m);
      r, m' := CompleteBody(hc, x, data, start, p, if toRead == 1 then m else m', m', n0);
    }

    /** s_chunk_data: all of the chunk that is at hand. */
    method ScanChunk(hc: HeadersCallback, ghost x: Conn, data: seq<Byte>, start: nat, m: Marks, ghost n0: int)
      returns (r: Progress, m': Marks)
      requires Usable(x) && start < |data| && Tracks(hc, x, data, start, core, trace, m)
      requires core.state == Msg(ChunkData)
      requires 0 <= nread <= HTTP_MAX_HEADER_SIZE && nread <= n0 + start + 1 && 0 <= n0
      modifies this
      ensures Reached(hc, x, data, start, n0, r, core, nread, trace, m') && r.Next?
    {
      hide During, PendingOf, Marks.Fits, Observe;
      ghost var c0, t0 := core, trace;
      TracksInv(hc, x, data, start, core, trace, m);
      assert core.flags.chunked && core.contentLength != 0 && core.contentLength != NO_LENGTH;
      hide Inv, Tracks, Stopped;
      var toRead := if core.contentLength < |data| - start then core.contentLength else |data| - start;
      m' := m.MarkAt(Body, start);
      core := core.(contentLength := core.contentLength - toRead);
      var p := start + toRead - 1;
      r := Next(p + 1);
      if core.contentLength != 0 {
        BodyStretch(hc, x, data, start, toRead, c0, t0, m);
        return;
      }
      BodyStretch(hc, x, data, start, toRead - 1, c0, t0, m);
      ghost var c1 := c0.(contentLength := 1);
      ghost var m1 := if toRead == 1 then m else m';
      TracksInv(hc, x, data, p, c1, t0, m1);
      core := core.(state := Msg(ChunkDataAlmostDone));
      BodyByte(hc, x, data, p, c1, t0, m1);
      assert m1.MarkAt(Body, p) == m';
    }

    /** s_body_identity_eof: everything that is at hand. */
    method ScanToEof(hc: HeadersCallback, ghost x: Conn, data: seq<Byte>, start: nat, m: Marks, ghost n0: int)
      returns (r: Progress, m': Marks)
      requires Usable(x) && start < |data| && Tracks(hc, x, data, start, core, trace, m)
      requires core.state == Msg(BodyIdentityEof)
      requires 0 <= nread <= HTTP_MAX_HEADER_SIZE && nread <= n0 + start + 1 && 0 <= n0
      modifies this
      ensures Reached(hc, x, data, start, n0, r, core, nread, trace, m') && r.Next?
    {
      TracksInv(hc, x, data, start, core, trace, m);
      hide Inv, Tracks;
      m' := m.MarkAt(Body, start);
      r := Next(|data|);
      EofStretch(hc, x, data, start, |data|, core, trace, m);
    }

    /** One turn of the loop over the data, after the byte has been counted. */
    method Turn(hc: HeadersCallback, ghost x: Conn, data: seq<Byte>, p: nat, m: Marks, ghost n0: int)
      returns (r: Progress, m': Marks)
      requires Usable(x) && p < |data| < 0x8000_0000 && Tracks(hc, x, data, p, core, trace, m)
      requires 0 <= nread <= HTTP_MAX_HEADER_SIZE && nread <= n0 + p + 1 && 0 <= n0
      requires core.state == Msg(ChunkSizeStart) ==> nread == 1
      modifies this
      ensures Reached(hc, x, data, p, n0, r, core, nread, trace, m')
    {
      hide Tracks, Stopped;
      if core.state == Hdr(HeaderField) {
        r, m' := ScanField(hc, x, data, p, m, n0);
      } else if core.state == Hdr(HeaderValue) {
        r, m' := ScanValue(hc, x, data, p, m, n0);
      } else if core.state == Msg(BodyIdentity) {
        r, m' := ScanIdentity(hc, x, data, p, m, n0);
      } else if core.state == Msg(BodyIdentityEof) {
        r, m' := ScanToEof(hc, x, data, p, m, n0);
      } else if core.state == Msg(ChunkData) {
        r, m' := ScanChunk(hc, x, data, p, m, n0);
      } else {
        TracksInv(hc, x, data, p, core, trace, m);
        assert core.state == Msg(ChunkSizeStart) ==> nread == 1;
        assert core.state.Msg? ==> core.flags.chunked;
        assert core.state == Msg(ChunkDataAlmostDone) ==> core.contentLength == 0;
        r, m' := StepOne(hc, x, data, p, m, n0);
      }
    }

    /** Run the callbacks for the mark left over at the end of the data. */
    method FlushAll(m: Marks, data: seq<Byte>)
      requires m.Fits(|data|)
      modifies this`trace
      ensures trace == match PendingOf(m, data, |data|)
                       case Idle => old(trace)
                       case Collecting(k, u) => Push(old(trace), Data(k, u))
    {
      assert (if m.field >= 0 then 1 else 0) + (if m.value >= 0 then 1 else 0) + (if m.url >= 0 then 1 else 0) +
             (if m.body >= 0 then 1 else 0) + (if m.status >= 0 then 1 else 0) <= 1;
      var n := m;
      n := CallbackData(n, HField, data, |data|);
      n := CallbackData(n, HValue, data, |data|);
      n := CallbackData(n, Url, data, |data|);
      n := CallbackData(n, Body, data, |data|);
      n := CallbackData(n, Status, data, |data|);
    }

    /** A call without data says that the connection has been closed. */
    method AtEof() returns (consumed: nat)
      requires core.errno == OK
      modifies this`core, this`trace
      ensures core == if EofAllowed(old(core.state)) then old(core) else old(core).(errno := InvalidEofState)
      ensures trace == if old(core.state) == Msg(BodyIdentityEof) then Push(old(trace), MessageComplete) else old(trace)
      ensures consumed == if EofAllowed(old(core.state)) then 0 else 1
    {
      consumed := 0;
      match core.state
      case Msg(BodyIdentityEof) => trace := Push(trace, MessageComplete);
      case Res(Dead) =>
      case Res(StartReqOrRes) =>
      case Res(StartRes) =>
      case Req(StartReq) =>
      case _ =>
        core := core.(errno := InvalidEofState);
        consumed := 1;
    }

    /** http_parser_execute.  A parser in error does nothing.  Otherwise, unless the call's header
        bytes pass the limit, the call does what the one-byte machine does with the same data: same
        parser fields, same callbacks, same number of bytes consumed. */
    method Execute(hc: HeadersCallback, data: seq<Byte>) returns (consumed: nat)
      requires Valid() && |data| < 0x8000_0000
      modifies this
      ensures Valid()
      ensures old(core.errno) != OK ==>
                consumed == 0 && core == old(core) && trace == old(trace) && nread == old(nread)
      ensures old(core.errno) == OK && data == [] ==>
                && core == (if EofAllowed(old(core.state)) then old(core) else old(core).(errno := InvalidEofState))
                && trace == (if old(core.state) == Msg(BodyIdentityEof) then Push(old(trace), MessageComplete)
                             else old(trace))
                && consumed == (if EofAllowed(old(core.state)) then 0 else 1)
      ensures old(core.errno) == OK && data != [] ==>
                var x := Conn(old(core), old(trace));
                || (Conn(core, trace) == Call(hc, x, data) && consumed == During(hc, x, data).used)
                || (core.errno == HeaderOverflow && old(nread) + |data| + 1 > HTTP_MAX_HEADER_SIZE)
      ensures core.errno == OK && old(core.errno) == OK ==> nread <= old(nread) + |data| + 1
    {
      if core.errno != OK { return 0; }
      if data == [] {
        consumed := AtEof();
        return;
      }
      ghost var x, n0 := Conn(core, trace), nread;
      var marks := EntryMarks(core.state);
      EntryTracks(hc, x, data);
      hide Inv, Tracks, Stopped, Call, During;
      var p := 0;
      while p != |data|
        invariant 0 <= p <= |data|
        invariant Tracks(hc, x, data, p, core, trace, marks)
        invariant CounterFits(core, nread, n0 + p + (if p == |data| then 1 else 0))
        decreases |data| - p
      {
        TracksInv(hc, x, data, p, core, trace, marks);
        if ParsingHeader(core.state) {
          var ok := CountHeaderSize(1);
          if !ok { return p; }
        }
        var r: Progress;
        r, marks := Turn(hc, x, data, p, marks, n0);
        match r
        case Next(q) => p := q;
        case Ended(used) =>
          StoppedCall(hc, x, data, core, trace, used);
          return used;
        case TooLong(at) => return at;
      }
      TracksInv(hc, x, data, p, core, trace, marks);
      ghost var t := trace;
      FlushAll(marks, data);
      TrackedCall(hc, x, data, core, t, marks);
      consumed := |data|;
    }
  }

  /** The states in which a connection may end. */
  predicate EofAllowed(s: State) {
    s == Msg(BodyIdentityEof) || s == Res(Dead) || s == Res(StartReqOrRes) || s == Res(StartRes) ||
    s == Req(StartReq)
  }

  /** The marks that a call starts with. */
  function EntryMarks(s: State): Marks {
    if s == Hdr(HeaderField) then NO_MARKS.(field := 0)
    else if s == Hdr(HeaderValue) then NO_MARKS.(value := 0)
    else if s.Uri? then NO_MARKS.(url := 0)
    else if s == Res(ResStatus) then NO_MARKS.(status := 0)
    else NO_MARKS
  }

  lemma EntryTracks(hc: HeadersCallback, x: Conn, data: seq<Byte>)
    requires Usable(x)
    ensures Tracks(hc, x, data, 0, x.core, x.trace, EntryMarks(x.core.state))
  {
    assert data[..0] == [] && data[0..0] == [];
  }

  lemma StoppedCall(hc: HeadersCallback, x: Conn, data: seq<Byte>, c: Core, t: seq<Event>, used: int)
    requires Usable(x) && Stopped(hc, x, data, c, t, used)
    ensures Call(hc, x, data) == Conn(c, t) && During(hc, x, data).used == used >= 0
    ensures c.errno == OK ==> Inv(c)
  {
  }

  lemma TrackedCall(hc: HeadersCallback, x: Conn, data: seq<Byte>, c: Core, t: seq<Event>, m: Marks)
    requires Usable(x) && Tracks(hc, x, data, |data|, c, t, m)
    ensures During(hc, x, data).used == |data|
    ensures Call(hc, x, data) ==
            Conn(c, match PendingOf(m, data, |data|)
                    case Idle => t
                    case Collecting(k, u) => Push(t, Data(k, u)))
  {
    assert data[..|data|] == data;
  }
}
