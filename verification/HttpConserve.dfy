/** Conservation of message bodies: from any state inside a message body, on any bytes, on_body is given exactly
    the bytes that are payload. */
module HttpConserve {
  import opened Bytes
  import opened HttpTypes
  import opened HttpStep
  import opened HttpRun
  import opened HttpFeed
  import opened HttpSplit
  import opened HttpBody

  // ----- a body decoder that knows nothing of the parser -----

  /** Where in a body the next byte is.  Over stands for an error too. */
  datatype Place =
    | SizeStart | Size(v: nat) | Params(v: nat) | SizeLf(v: nat)
    | Payload(left: nat) | PayloadCr | PayloadLf | Trailer
    | Identity(left: nat) | UntilEof | Over

  function Line(v: nat, ch: Byte): Place {
    if ch == CR then SizeLf(v) else Params(v)
  }

  function Digit(v: nat, ch: Byte): Place {
    if 0 <= Unhex(ch) && v * 16 + Unhex(ch) <= MAX_CHUNK then Size(v * 16 + Unhex(ch)) else Over
  }

  function Next(p: Place, ch: Byte): Place {
    match p
    case SizeStart => Digit(0, ch)
    case Size(v) => if ch == CR || ch == ';' as int || ch == SP then Line(v, ch) else Digit(v, ch)
    case Params(v) => Line(v, ch)
    case SizeLf(v) => if ch != LF then Over else if v == 0 then Trailer else Payload(v)
    case Payload(n) => if n <= 1 then PayloadCr else Payload(n - 1)
    case PayloadCr => if ch == CR then PayloadLf else Over
    case PayloadLf => if ch == LF then SizeStart else Over
    case Trailer => Trailer
    case Identity(n) => if n <= 1 then Over else Identity(n - 1)
    case UntilEof => UntilEof
    case Over => Over
  }

  predicate IsPayload(p: Place) {
    p.Payload? || p.Identity? || p.UntilEof?
  }

  function Walk(p: Place, b: seq<Byte>): Place
    decreases |b|
  {
    if b == [] then p else Walk(Next(p, b[0]), b[1..])
  }

  /** The payload bytes among b */
  function Delivered(p: Place, b: seq<Byte>): seq<Byte>
    decreases |b|
  {
    if b == [] then [] else (if IsPayload(p) then [b[0]] else []) + Delivered(Next(p, b[0]), b[1..])
  }

  // ----- the parser at the same place -----

  function At(c: Core): Place {
    match c.state
    case Hdr(_) => if c.flags.trailing then Trailer else Over
    case Msg(BodyIdentity) => if c.contentLength >= 0 then Identity(c.contentLength) else Over
    case Msg(BodyIdentityEof) => UntilEof
    case Msg(ChunkSizeStart) => SizeStart
    case Msg(ChunkSize) => if c.contentLength >= 0 then Size(c.contentLength) else Over
    case Msg(ChunkParameters) => if c.contentLength >= 0 then Params(c.contentLength) else Over
    case Msg(ChunkSizeAlmostDone) => if c.contentLength >= 0 then SizeLf(c.contentLength) else Over
    case Msg(ChunkData) => if c.contentLength >= 0 then Payload(c.contentLength) else Over
    case Msg(ChunkDataAlmostDone) => PayloadCr
    case Msg(ChunkDataDone) => PayloadLf
    case _ => Over
  }

  function BodyPart(p: Pending): seq<Byte> {
    if p.Collecting? && p.kind == Body then p.bytes else []
  }

  /** The body bytes that have been handed over, and those that are still being collected */
  function BodySoFar(o: Obs): seq<Byte> {
    BodyOf(o.trace) + BodyPart(o.pending)
  }

  // ----- what one step adds -----

  function Extra(c: Calls, ch: Byte): seq<Byte> {
    if c.withByte && c.flush == Some(Body) then [ch] else []
  }

  lemma SetMarkBody(o: Obs, k: Kind)
    ensures BodySoFar(SetMark(o, k)) == BodySoFar(o)
  {
    assert BodyPart(SetMark(o, k).pending) == BodyPart(o.pending);
  }

  lemma HandOverBody(o: Obs, k: Kind, extra: seq<Byte>)
    ensures BodySoFar(HandOver(o, k, extra)) ==
            BodySoFar(o) + (if k == Body && o.pending.Collecting? && o.pending.kind == Body then extra else [])
  {
    if o.pending.Collecting? && o.pending.kind == k {
      BodyOfPush(o.trace, Data(k, o.pending.bytes + extra));
      if k == Body {
        assert BodyOf(o.trace) + (o.pending.bytes + extra) == BodyOf(o.trace) + o.pending.bytes + extra;
      }
    }
  }

  lemma {:induction false} PushAllBody(t: seq<Event>, notes: seq<Event>)
    requires forall e :: e in notes ==> !e.Data?
    ensures BodyOf(PushAll(t, notes)) == BodyOf(t)
    decreases |notes|
  {
    if notes != [] {
      BodyOfPush(t, notes[0]);
      PushAllBody(Push(t, notes[0]), notes[1..]);
    }
  }

  predicate Plain(c: Calls) {
    forall e :: e in c.notes ==> !e.Data?
  }

  /** The calls of a step add the byte to the body exactly when they hand over the body with it. */
  lemma ObserveBody(o: Obs, c: Calls, ch: Byte)
    requires Plain(c) && Orderly(Open(o.pending), c)
    ensures BodySoFar(Observe(o, c, ch)) == BodySoFar(o) + Extra(c, ch)
  {
    var o1 := if c.emptyValue then HandOver(SetMark(o, HValue), HValue, []) else o;
    var o2 := if c.mark.Some? then SetMark(o1, c.mark.value) else o1;
    var o3 := if c.flush.Some? then HandOver(o2, c.flush.value, if c.withByte then [ch] else []) else o2;
    if c.emptyValue {
      SetMarkBody(o, HValue);
      HandOverBody(SetMark(o, HValue), HValue, []);
    }
    if c.mark.Some? { SetMarkBody(o1, c.mark.value); }
    if c.flush.Some? { HandOverBody(o2, c.flush.value, if c.withByte then [ch] else []); }
    PushAllBody(o3.trace, c.notes);
  }

  lemma AbsorbBody(o: Obs, ch: Byte)
    ensures BodySoFar(Absorb(o, ch)) == BodySoFar(o) + (if Open(o.pending) == Some(Body) then [ch] else [])
  {
    if Open(o.pending) == Some(Body) {
      assert BodyOf(o.trace) + (o.pending.bytes + [ch]) == BodyOf(o.trace) + o.pending.bytes + [ch];
    }
  }

  /** A step of the parser inside a body: what it calls, and where it goes. */
  predicate StepsBody(p: Place, ch: Byte, open: Option<Kind>, o: Out) {
    && Plain(o.calls)
    && (o.verdict.Fail? ==> !IsPayload(p) && Extra(o.calls, ch) == [] && (p.Trailer? || Next(p, ch).Over?))
    && (!o.verdict.Fail? ==>
          (IsPayload(p) <==> (Extra(o.calls, ch) != [] || OpenAfter(open, o.calls) == Some(Body)))
          && !(Extra(o.calls, ch) != [] && OpenAfter(open, o.calls) == Some(Body)))
    && (o.verdict.Exit? ==> At(o.core).Over? && o.calls.notes != [])
    && (!o.verdict.Fail? && !At(o.core).Over? ==> At(o.core) == Next(p, ch))
    && (!o.verdict.Fail? && At(o.core).Over? ==> p.Trailer? || Next(p, ch).Over?)
  }

  lemma BodySteps(c: Core, ch: Byte, open: Option<Kind>)
    requires Inv(c) && c.errno == OK && c.state.Msg? && !At(c).Over? && MarkFits(c.state, open)
    ensures StepsBody(At(c), ch, open, StepBody(c, ch))
  {
    hide StepBody, StepsBody, Inv, MarkFits;
    if IsPayload(At(c)) || At(c).PayloadCr? || At(c).PayloadLf? {
      DataSteps(c, ch, open);
    } else {
      LineSteps(c, ch, open);
    }
  }

  lemma LineSteps(c: Core, ch: Byte, open: Option<Kind>)
    requires Inv(c) && c.errno == OK && c.state.Msg? && !At(c).Over? && MarkFits(c.state, open)
    requires !IsPayload(At(c)) && !At(c).PayloadCr? && !At(c).PayloadLf?
    ensures StepsBody(At(c), ch, open, StepBody(c, ch))
  {
    hide NumbersFit, MethodFits, HeaderFits, NewMessage, EnterBody, LengthFull;
    if c.contentLength >= 0 && Unhex(ch) >= 0 { FullExactly(c.contentLength, Unhex(ch)); }
  }

  lemma DataSteps(c: Core, ch: Byte, open: Option<Kind>)
    requires Inv(c) && c.errno == OK && c.state.Msg? && !At(c).Over? && MarkFits(c.state, open)
    requires IsPayload(At(c)) || At(c).PayloadCr? || At(c).PayloadLf?
    ensures StepsBody(At(c), ch, open, StepBody(c, ch))
  {
    hide NumbersFit, MethodFits, HeaderFits, ShouldKeepAlive, EnterBody, Unhex, LengthFull, Digit, Line;
  }

  /** Trailer fields are read as header fields are, until the empty line ends the message. */
  predicate StepsTrailer(o: Out) {
    && Plain(o.calls) && o.calls.flush != Some(Body) && o.calls.mark != Some(Body)
    && (!o.verdict.Fail? ==> At(o.core).Over? || At(o.core).Trailer?)
    && (o.verdict.Exit? ==> At(o.core).Over? && o.calls.notes != [])
  }

  lemma EndTrailer(hc: HeadersCallback, c: Core, ch: Byte)
    requires c.flags.trailing
    ensures StepsTrailer(EndHeaders(hc, c, ch))
  {
    hide ShouldKeepAlive;
  }

  lemma FieldTrailer(hc: HeadersCallback, c: Core, ch: Byte)
    requires c.flags.trailing
    ensures StepsTrailer(StartField(hc, c, ch))
  {
    hide EndHeaders, NameStart;
    EndTrailer(hc, c.(state := Hdr(HeadersAlmostDone)), ch);
  }

  lemma InsideTrailer(c: Core, ch: Byte)
    requires c.flags.trailing && c.state.Hdr? && c.index >= 0
    ensures StepsTrailer(InField(c, ch)) && StepsTrailer(InValue(c, ch)) && StepsTrailer(StartValue(c, ch))
  {
    hide NameStep, ConnectionStart, MatchStep, LengthFull;
  }

  lemma TrailerSteps(hc: HeadersCallback, c: Core, ch: Byte)
    requires c.flags.trailing && c.state.Hdr? && c.index >= 0
    ensures StepsTrailer(StepHeader(hc, c, ch))
  {
    hide StartField, StartValue, InValue, InField, EndHeaders, SetFlag, StepsTrailer;
    GoesOnTrailer(c);
    SetFlagTrailing(c.flags, c.headerState);
    InsideTrailer(c, ch);
    InsideTrailer(c.(state := Hdr(HeaderValueStart)), ch);
    FieldTrailer(hc, c, ch);
    var c1 := c.(state := Hdr(HeaderFieldStart), flags := SetFlag(c.flags, c.headerState));
    FieldTrailer(hc, c1, ch);
    EmptyValueTrailer(StartField(hc, c1, ch));
    EndTrailer(hc, c, ch);
  }

  lemma GoesOnTrailer(c: Core)
    requires c.flags.trailing
    ensures forall h :: StepsTrailer(Goto(c, Hdr(h))) && StepsTrailer(Err(c, Strict))
  {
  }

  lemma EmptyValueTrailer(o: Out)
    requires StepsTrailer(o)
    ensures StepsTrailer(o.(calls := o.calls.(emptyValue := true)))
  {
    var o2 := o.(calls := o.calls.(emptyValue := true));
    assert o2.core == o.core && o2.verdict == o.verdict && o2.calls.notes == o.calls.notes;
  }

  lemma SetFlagTrailing(f: Flags, h: HeaderState)
    ensures SetFlag(f, h).trailing == f.trailing
  {
  }

  /** One byte of a body, through the parser and its observer */
  lemma StepGrows(hc: HeadersCallback, s: Sys, ch: Byte)
    requires Live(s) && !At(s.core).Over?
    ensures var p, t := At(s.core), StepSys(hc, s, ch);
            && BodySoFar(t.obs) == BodySoFar(s.obs) + (if IsPayload(p) then [ch] else [])
            && (t.halted || At(t.core).Over? ==> p.Trailer? || Next(p, ch).Over?)
            && (!t.halted && !At(t.core).Over? ==> At(t.core) == Next(p, ch))
            && (t.halted && t.core.errno == OK ==> At(t.core).Over? && t.obs.pending.Idle?)
  {
    hide Inv, MarkFits, StepBody, StepHeader, StepsTrailer, Observe, Absorb, BodySoFar, At;
    InvIndex(s.core);
    var p, o := At(s.core), Step(hc, s.core, ch);
    StepKeepsInv(hc, s.core, ch);
    StepMarks(hc, s.core, ch, Open(s.obs.pending));
    StepsAt(hc, s, ch);
    ObserveBody(s.obs, o.calls, ch);
    ObserveOpens(s.obs, o.calls, ch);
    AbsorbBody(Observe(s.obs, o.calls, ch), ch);
    assert BodySoFar(s.obs) + [ch] + [] == BodySoFar(s.obs) + [] + [ch] == BodySoFar(s.obs) + [ch];
  }

  lemma StepsAt(hc: HeadersCallback, s: Sys, ch: Byte)
    requires Live(s) && !At(s.core).Over?
    ensures StepsBody(At(s.core), ch, Open(s.obs.pending), Step(hc, s.core, ch))
  {
    hide Inv, MarkFits, StepBody, StepHeader;
    InvIndex(s.core);
    if s.core.state.Msg? {
      BodySteps(s.core, ch, Open(s.obs.pending));
    } else {
      assert s.core.state.Hdr? && s.core.flags.trailing;
      TrailerSteps(hc, s.core, ch);
      NoBodyMark(s);
    }
  }

  lemma InvIndex(c: Core)
    requires Inv(c)
    ensures c.index >= 0
  {
  }

  lemma NoBodyMark(s: Sys)
    requires Live(s) && s.core.state.Hdr?
    ensures Open(s.obs.pending) != Some(Body)
  {
  }

  // ----- any bytes, in one call or in many -----

  /** The message is not over before the last of the bytes, unless by an error. */
  ghost predicate InMessage(hc: HeadersCallback, s: Sys, b: seq<Byte>)
    requires Good(s)
  {
    forall k | 0 <= k < |b| :: Feed(hc, s, b[..k]).core.errno != OK || !At(Feed(hc, s, b[..k]).core).Over?
  }

  lemma {:induction false} Silent(p: Place, b: seq<Byte>)
    requires p.Over? || p.Trailer?
    ensures Delivered(p, b) == []
    decreases |b|
  {
    if b != [] { Silent(p, b[1..]); }
  }

  /** From any state inside a body, on any bytes: the bodies handed over, with what is still being collected, grow
      by exactly the payload. */
  lemma {:induction false} BodyGrows(hc: HeadersCallback, s: Sys, b: seq<Byte>)
    requires Live(s) && !At(s.core).Over? && InMessage(hc, s, b)
    ensures var r := Feed(hc, s, b);
            && BodySoFar(r.obs) == BodySoFar(s.obs) + Delivered(At(s.core), b)
            && (!r.halted && !At(r.core).Over? ==> At(r.core) == Walk(At(s.core), b))
            && (r.halted && r.core.errno == OK ==> At(r.core).Over? && r.obs.pending.Idle?)
    decreases |b|
  {
    hide StepSys, Inv, MarkFits, BodySoFar, At, Next;
    if b != [] {
      StepGrows(hc, s, b[0]);
      var t, rest := StepSys(hc, s, b[0]), b[1..];
      var p, n := At(s.core), Next(At(s.core), b[0]);
      assert Feed(hc, s, b) == Feed(hc, t, rest);
      if t.halted || At(t.core).Over? {
        NextSilent(p, b[0], rest);
        if rest != [] { OneFed(hc, s, b); }
        assert Feed(hc, t, rest) == t;
      } else {
        forall k | 0 <= k < |rest|
          ensures Feed(hc, t, rest[..k]).core.errno != OK || !At(Feed(hc, t, rest[..k]).core).Over?
        {
          assert b[..k + 1][0] == b[0] && b[..k + 1][1..] == rest[..k];
          assert Feed(hc, s, b[..k + 1]) == Feed(hc, t, rest[..k]);
        }
        BodyGrows(hc, t, rest);
      }
      assert BodySoFar(s.obs) + (if IsPayload(p) then [b[0]] else []) + Delivered(n, rest) ==
             BodySoFar(s.obs) + Delivered(p, b);
    }
  }

  lemma NextSilent(p: Place, ch: Byte, rest: seq<Byte>)
    requires p.Trailer? || Next(p, ch).Over?
    ensures Delivered(Next(p, ch), rest) == []
  {
    Silent(Next(p, ch), rest);
  }

  lemma OneFed(hc: HeadersCallback, s: Sys, b: seq<Byte>)
    requires Live(s) && |b| > 1 && InMessage(hc, s, b)
    ensures var t := StepSys(hc, s, b[0]); t.core.errno != OK || !At(t.core).Over?
    ensures var t := StepSys(hc, s, b[0]); t.core.errno != OK ==> t.halted
  {
    hide StepSys, Inv, MarkFits, At;
    assert b[..1] == [b[0]];
    assert Feed(hc, s, b[..1]) == Feed(hc, StepSys(hc, s, b[0]), []);
    assert Good(StepSys(hc, s, b[0])) by { assert Good(Feed(hc, s, b[..1])); }
  }

  lemma {:induction false} DeliveredAppend(p: Place, a: seq<Byte>, b: seq<Byte>)
    ensures Delivered(p, a + b) == Delivered(p, a) + Delivered(Walk(p, a), b)
    decreases |a|
  {
    hide Next;
    if a == [] {
      assert a + b == b;
    } else {
      assert (a + b)[0] == a[0] && (a + b)[1..] == a[1..] + b;
      DeliveredAppend(Next(p, a[0]), a[1..], b);
    }
  }

  /** The run of the last call that is made */
  function LastCall(hc: HeadersCallback, x: Conn, pieces: seq<seq<Byte>>): (r: Sys)
    requires Usable(x) && pieces != []
    ensures Good(r)
    decreases |pieces|
  {
    if |pieces| == 1 || !Usable(Call(hc, x, pieces[0])) then During(hc, x, pieces[0])
    else LastCall(hc, Call(hc, x, pieces[0]), pieces[1..])
  }

  lemma {:induction false} LastCallLeaves(hc: HeadersCallback, x: Conn, pieces: seq<seq<Byte>>)
    requires Usable(x) && pieces != []
    ensures CallAll(hc, x, pieces) == Leave(LastCall(hc, x, pieces))
    decreases |pieces|
  {
    hide During, Leave;
    if |pieces| == 1 || !Usable(Call(hc, x, pieces[0])) {
      if Usable(Call(hc, x, pieces[0])) { assert CallAll(hc, Call(hc, x, pieces[0]), pieces[1..]) == Call(hc, x, pieces[0]); }
    } else {
      LastCallLeaves(hc, Call(hc, x, pieces[0]), pieces[1..]);
    }
  }

  lemma EnterBare(x: Conn)
    ensures BodySoFar(Enter(x).obs) == BodyOf(x.trace)
  {
  }

  lemma LeaveBody(r: Sys)
    requires Good(r)
    ensures r.core.errno == OK && (r.halted ==> r.obs.pending.Idle?) ==> BodyOf(Leave(r).trace) == BodySoFar(r.obs)
    ensures Leave(r).core == r.core
  {
    if r.obs.pending.Collecting? { BodyOfPush(r.obs.trace, Data(r.obs.pending.kind, r.obs.pending.bytes)); }
  }

  lemma PrefixInMessage(hc: HeadersCallback, s: Sys, a: seq<Byte>, b: seq<Byte>)
    requires Good(s) && InMessage(hc, s, a + b)
    ensures InMessage(hc, s, a)
  {
    forall k | 0 <= k < |a| ensures Feed(hc, s, a[..k]).core.errno != OK || !At(Feed(hc, s, a[..k]).core).Over? {
      assert (a + b)[..k] == a[..k];
    }
  }

  lemma StaysHalted(hc: HeadersCallback, s: Sys, a: seq<Byte>, b: seq<Byte>)
    requires Live(s) && Feed(hc, s, a).core.errno != OK
    ensures Feed(hc, s, a + b) == Feed(hc, s, a)
  {
    hide StepSys, Inv, MarkFits;
    FeedAppend(hc, s, a, b);
  }

  lemma RestInMessage(hc: HeadersCallback, x: Conn, a: seq<Byte>, b: seq<Byte>)
    requires Usable(x) && a != [] && b != [] && InMessage(hc, Enter(x), a + b)
    requires During(hc, x, a).core.errno == OK
    requires During(hc, x, a).halted ==> At(During(hc, x, a).core).Over?
    ensures Usable(Call(hc, x, a)) && !During(hc, x, a).halted && !At(Call(hc, x, a).core).Over?
    ensures InMessage(hc, Enter(Call(hc, x, a)), b)
  {
    hide Feed, Inv, MarkFits, At, Leave;
    EnterLive(x);
    assert (a + b)[..|a|] == a;
    assert !During(hc, x, a).halted by { assert During(hc, x, a) == Feed(hc, Enter(x), (a + b)[..|a|]); }
    CallUsable(hc, x, a);
    var y := Call(hc, x, a);
    EnterLive(y);
    LeaveBody(During(hc, x, a));
    forall k | 0 <= k < |b| ensures Feed(hc, Enter(y), b[..k]).core.errno != OK || !At(Feed(hc, Enter(y), b[..k]).core).Over? {
      SplitInvariance(hc, x, a, b[..k]);
      assert (a + b)[..|a| + k] == a + b[..k];
      assert During(hc, x, a + b[..k]) == Feed(hc, Enter(x), (a + b)[..|a| + k]);
    }
  }

  /** However the bytes of a message body are cut into calls, and whatever they are: on_body has been given exactly
      the payload, except for what the last call still collects if it ends in an error. */
  lemma {:induction false} BodyInPieces(hc: HeadersCallback, x: Conn, pieces: seq<seq<Byte>>)
    requires Usable(x) && !At(x.core).Over? && InMessage(hc, Enter(x), Concat(pieces))
    requires pieces != [] && forall i :: 0 <= i < |pieces| ==> pieces[i] != []
    ensures BodySoFar(LastCall(hc, x, pieces).obs) == BodyOf(x.trace) + Delivered(At(x.core), Concat(pieces))
    ensures var r := LastCall(hc, x, pieces);
            && CallAll(hc, x, pieces) == Leave(r) && (r.halted && r.core.errno == OK ==> r.obs.pending.Idle?)
    decreases |pieces|
  {
    hide Feed, Inv, MarkFits, BodySoFar, At, Delivered, Leave;
    EnterLive(x);
    EnterBare(x);
    LastCallLeaves(hc, x, pieces);
    var a, rest := pieces[0], pieces[1..];
    var b, s, r := Concat(rest), Enter(x), During(hc, x, pieces[0]);
    PrefixInMessage(hc, s, a, b);
    BodyGrows(hc, s, a);
    LeaveBody(r);
    if rest == [] {
      assert Concat(pieces) == a;
    } else {
      assert b != [] by { assert b == rest[0] + Concat(rest[1..]); }
      assert (a + b)[..|a|] == a;
      if r.core.errno != OK {
        BodyGrows(hc, s, a + b);
        StaysHalted(hc, s, a, b);
      } else {
        var y := Call(hc, x, a);
        RestInMessage(hc, x, a, b);
        DeliveredAppend(At(x.core), a, b);
        BodyInPieces(hc, y, rest);
        LastCallLeaves(hc, y, rest);
        assert BodyOf(x.trace) + Delivered(At(x.core), a) + Delivered(At(y.core), b) ==
               BodyOf(x.trace) + Delivered(At(x.core), a + b);
      }
    }
  }

  /** So without an error on_body has been given exactly the payload, and with one it has been given a part of it. */
  lemma PayloadInPieces(hc: HeadersCallback, x: Conn, pieces: seq<seq<Byte>>)
    requires Usable(x) && !At(x.core).Over? && InMessage(hc, Enter(x), Concat(pieces))
    requires pieces != [] && forall i :: 0 <= i < |pieces| ==> pieces[i] != []
    ensures var y := CallAll(hc, x, pieces);
            && BodyOf(y.trace) <= BodyOf(x.trace) + Delivered(At(x.core), Concat(pieces))
            && (y.core.errno == OK ==> BodyOf(y.trace) == BodyOf(x.trace) + Delivered(At(x.core), Concat(pieces)))
  {
    hide Feed, Inv, MarkFits, At, Delivered, CallAll, LastCall;
    BodyInPieces(hc, x, pieces);
    LeaveBody(LastCall(hc, x, pieces));
  }

  // ----- the same payload, line by line -----

  /** The number of hex digits at the start */
  function HexRun(b: seq<Byte>): (n: nat)
    ensures n <= |b| && IsHexString(b[..n]) && (n < |b| ==> Unhex(b[n]) == -1)
    decreases |b|
  {
    if b == [] || Unhex(b[0]) == -1 then 0
    else
      var n := HexRun(b[1..]);
      assert forall i :: 0 < i < n + 1 ==> b[i] == b[1..][i - 1];
      n + 1
  }

  /** The number of bytes in front of the first carriage return */
  function CrRun(b: seq<Byte>): (n: nat)
    ensures n <= |b| && CR !in b[..n] && (n < |b| ==> b[n] == CR)
    decreases |b|
  {
    if b == [] || b[0] == CR then 0
    else
      var n := CrRun(b[1..]);
      assert forall i :: 0 < i < n + 1 ==> b[i] == b[1..][i - 1];
      n + 1
  }

  /** The index behind a size line whose digits have been read up to b: parameters, CR and LF */
  function LineEnd(b: seq<Byte>): Option<nat> {
    var e := CrRun(b);
    if e + 1 < |b| && b[e + 1] == LF && (e == 0 || b[0] == ';' as int || b[0] == SP) then Some(e + 2) else None
  }

  /** What a chunked body that starts with b delivers, as far as it goes: for each size line that is well-formed
      the next so many bytes, and on as long as CR and LF follow. */
  function ChunkedPayload(b: seq<Byte>): seq<Byte>
    decreases |b|, 2
  {
    var d := HexRun(b);
    if d == 0 || HexValue(0, b[..d]) > MAX_CHUNK then [] else Tail(HexValue(0, b[..d]), b[d..])
  }

  /** From the end of the digits of a size line on */
  function Tail(v: nat, b: seq<Byte>): seq<Byte>
    decreases |b|, 1
  {
    match LineEnd(b)
    case None => []
    case Some(k) => Rest(v, b[k..])
  }

  function Rest(v: nat, r: seq<Byte>): seq<Byte>
    decreases |r|, 0
  {
    if v == 0 then []
    else if |r| <= v then r
    else r[..v] + (if |r| >= v + 2 && r[v] == CR && r[v + 1] == LF then ChunkedPayload(r[v + 2..]) else [])
  }

  /** Read byte by byte or line by line, a chunked body has the same payload. */
  lemma {:induction false} PayloadIs(b: seq<Byte>)
    ensures Delivered(SizeStart, b) == ChunkedPayload(b)
    decreases |b|, 2
  {
    hide Tail;
    if b != [] {
      var d := HexRun(b);
      if d == 0 {
        Silent(Over, b[1..]);
      } else {
        FirstDigitOf(0, b);
        SizeIs(Unhex(b[0]), b[1..]);
      }
    }
  }

  /** The digits behind the first one */
  lemma FirstDigitOf(v: nat, b: seq<Byte>)
    requires b != [] && Unhex(b[0]) != -1
    ensures 0 <= Unhex(b[0]) < 16 && b[0] != CR && b[0] != ';' as int && b[0] != SP
    ensures var d, d2 := HexRun(b), HexRun(b[1..]);
            && d == d2 + 1 && b[d..] == b[1..][d2..]
            && HexValue(v, b[..d]) == HexValue(v * 16 + Unhex(b[0]), b[1..][..d2])
  {
    var d := HexRun(b);
    assert b[..d] == [b[0]] + b[1..][..d - 1] && b[..d][1..] == b[1..][..d - 1];
  }

  lemma {:induction false} SizeIs(v: nat, b: seq<Byte>)
    requires v <= MAX_CHUNK
    ensures var w := HexValue(v, b[..HexRun(b)]);
            Delivered(Size(v), b) == if w > MAX_CHUNK then [] else Tail(w, b[HexRun(b)..])
    decreases |b|, 1
  {
    hide Tail, Unhex;
    var d := HexRun(b);
    if b == [] {
      NoTail(v);
    } else if d > 0 {
      FirstDigitOf(v, b);
      var v2 := v * 16 + Unhex(b[0]);
      if v2 <= MAX_CHUNK {
        SizeIs(v2, b[1..]);
      } else {
        Silent(Over, b[1..]);
      }
    } else {
      assert b[d..] == b && b[..d] == [];
      LineIs(v, b);
    }
  }

  lemma NoTail(v: nat)
    ensures Tail(v, []) == []
  {
  }

  lemma {:induction false} LineIs(v: nat, b: seq<Byte>)
    requires b != [] && Unhex(b[0]) == -1 && v <= MAX_CHUNK
    ensures Delivered(Size(v), b) == Tail(v, b)
    decreases |b|, 0
  {
    hide Rest, Digit;
    if b[0] == CR {
      LfIs(v, b[1..]);
      if |b| > 1 { assert b[2..] == b[1..][1..]; }
    } else if b[0] == ';' as int || b[0] == SP {
      ParamsAre(v, b[1..]);
      CrFurther(b);
    } else {
      NoDigit(v, b[0]);
      Silent(Over, b[1..]);
    }
  }

  lemma NoDigit(v: nat, ch: Byte)
    requires Unhex(ch) == -1
    ensures Digit(v, ch) == Over
  {
  }

  lemma CrFurther(b: seq<Byte>)
    requires b != [] && b[0] != CR
    ensures CrRun(b) == CrRun(b[1..]) + 1
    ensures var e := CrRun(b[1..]);
            e + 1 < |b[1..]| ==> b[1..][e + 1] == b[e + 2] && b[1..][e + 2..] == b[e + 3..]
  {
  }

  /** From a parameter on */
  function ParamTail(v: nat, b: seq<Byte>): seq<Byte> {
    var e := CrRun(b);
    if e + 1 < |b| && b[e + 1] == LF then Rest(v, b[e + 2..]) else []
  }

  lemma {:induction false} ParamsAre(v: nat, b: seq<Byte>)
    ensures Delivered(Params(v), b) == ParamTail(v, b)
    decreases |b|, 0
  {
    hide Rest, ParamTail;
    TailSteps(v, b);
    if b != [] {
      if b[0] == CR {
        LfIs(v, b[1..]);
      } else {
        ParamsAre(v, b[1..]);
      }
    }
  }

  lemma TailSteps(v: nat, b: seq<Byte>)
    ensures ParamTail(v, b) ==
            if b == [] then []
            else if b[0] != CR then ParamTail(v, b[1..])
            else if |b| > 1 && b[1] == LF then Rest(v, b[1..][1..]) else []
  {
    hide Rest;
    if b != [] {
      if b[0] != CR { CrFurther(b); }
      if |b| > 1 { assert b[2..] == b[1..][1..]; }
    }
  }

  lemma {:induction false} LfIs(v: nat, b: seq<Byte>)
    ensures Delivered(SizeLf(v), b) == if b != [] && b[0] == LF then Rest(v, b[1..]) else []
    decreases |b|, 0
  {
    hide ChunkedPayload;
    if b != [] {
      if b[0] != LF { Silent(Over, b[1..]); }
      else if v == 0 { Silent(Trailer, b[1..]); }
      else { RestIs(v, b[1..]); }
    }
  }

  lemma {:induction false} RestIs(v: nat, r: seq<Byte>)
    requires v > 0
    ensures Delivered(Payload(v), r) == Rest(v, r)
    decreases |r|, 3
  {
    hide ChunkedPayload, Delivered, Walk;
    if |r| <= v {
      Taken(v, r);
    } else {
      assert r == r[..v] + r[v..];
      DeliveredAppend(Payload(v), r[..v], r[v..]);
      Taken(v, r[..v]);
      CrLfIs(r[v..]);
      if |r| >= v + 2 { assert r[v..][2..] == r[v + 2..]; }
    }
  }

  lemma {:induction false} CrLfIs(b: seq<Byte>)
    ensures Delivered(PayloadCr, b) == if |b| >= 2 && b[0] == CR && b[1] == LF then ChunkedPayload(b[2..]) else []
    decreases |b|, 3
  {
    hide ChunkedPayload;
    if b != [] {
      if b[0] != CR {
        Silent(Over, b[1..]);
      } else if |b| > 1 {
        assert b[1..][1..] == b[2..];
        if b[1] != LF { Silent(Over, b[2..]); } else { PayloadIs(b[2..]); }
      }
    }
  }

  /** So many bytes are all delivered. */
  lemma {:induction false} Taken(v: nat, r: seq<Byte>)
    requires |r| <= v && v > 0
    ensures Delivered(Payload(v), r) == r && Walk(Payload(v), r) == if |r| == v then PayloadCr else Payload(v - |r|)
    decreases |r|
  {
    if r != [] {
      if v == 1 { assert r[1..] == []; } else { Taken(v - 1, r[1..]); }
      assert r == [r[0]] + r[1..];
    }
  }

  /** A body of known length delivers that many bytes, and one that ends with the connection delivers them all. */
  lemma {:induction false} IdentityIs(n: nat, b: seq<Byte>)
    requires n > 0
    ensures Delivered(Identity(n), b) == if |b| <= n then b else b[..n]
    ensures Delivered(UntilEof, b) == b
    decreases |b|
  {
    if b != [] {
      assert b == [b[0]] + b[1..];
      if n == 1 {
        Silent(Over, b[1..]);
        IdentityIs(1, b[1..]);
      } else {
        IdentityIs(n - 1, b[1..]);
      }
      if |b| > n { assert b[..n] == [b[0]] + b[1..][..n - 1]; }
    }
  }

  /** From the first size line on, however the bytes are cut: exactly the payloads of the chunks */
  lemma ChunksInPieces(hc: HeadersCallback, x: Conn, pieces: seq<seq<Byte>>)
    requires Usable(x) && x.core.state == Msg(ChunkSizeStart) && InMessage(hc, Enter(x), Concat(pieces))
    requires pieces != [] && forall i :: 0 <= i < |pieces| ==> pieces[i] != []
    ensures var y := CallAll(hc, x, pieces);
            && BodyOf(y.trace) <= BodyOf(x.trace) + ChunkedPayload(Concat(pieces))
            && (y.core.errno == OK ==> BodyOf(y.trace) == BodyOf(x.trace) + ChunkedPayload(Concat(pieces)))
  {
    hide Inv, CallAll, InMessage, ChunkedPayload, Delivered, BodyOf;
    PayloadInPieces(hc, x, pieces);
    PayloadIs(Concat(pieces));
  }

  /** What is left of a body of known length, or some of it, has been read. */
  function BodyRead(x: Conn, b: seq<Byte>): Conn {
    var c := x.core.(contentLength := x.core.contentLength - |b|);
    var t := Push(x.trace, Data(Body, b));
    if |b| < x.core.contentLength then Conn(c, t) else Conn(c.(state := NextState(c)), Push(t, MessageComplete))
  }

  lemma IdentityRead(hc: HeadersCallback, x: Conn, b: seq<Byte>)
    requires Usable(x) && x.core.state == Msg(BodyIdentity) && 0 < |b| <= x.core.contentLength
    ensures Call(hc, x, b) == BodyRead(x, b) && During(hc, x, b).used == |b|
    ensures During(hc, x, b).halted <==> |b| == x.core.contentLength && x.core.upgrade
    ensures During(hc, x, b).obs.pending.Idle? <==> |b| == x.core.contentLength
    ensures Through(During(hc, x, b), |b|)
  {
    hide StepSys, Inv, MarkFits, NextState, Feed;
    EnterLive(x);
    var s := Enter(x);
    assert s.core == x.core && s.obs == Obs(x.trace, Idle) && s.used == 0 && !s.halted;
    assert [] + b == b;
    if |b| < x.core.contentLength {
      FeedBody(hc, s, b);
    } else {
      IdentityBody(hc, s, b);
    }
  }

  /** Bytes that a Content-Length announced, however they are cut, are the body and complete the message when they are all
      there.  What follows is the next message, or is not read if the connection is upgraded. */
  lemma IdentityInPieces(hc: HeadersCallback, x: Conn, pieces: seq<seq<Byte>>)
    requires Usable(x) && x.core.state == Msg(BodyIdentity)
    requires pieces != [] && forall i :: 0 <= i < |pieces| ==> pieces[i] != []
    ensures var b, n := Concat(pieces), x.core.contentLength;
            && n > 0
            && (|b| <= n ==> CallAll(hc, x, pieces) == BodyRead(x, b))
            && (|b| > n && !x.core.upgrade ==> Usable(BodyRead(x, b[..n])))
            && (|b| > n && !x.core.upgrade && Through(During(hc, x, b), |b|) ==>
                  CallAll(hc, x, pieces) == Call(hc, BodyRead(x, b[..n]), b[n..]))
            && (|b| > n && x.core.upgrade ==> During(hc, x, b).used == n && Call(hc, x, b) == BodyRead(x, b[..n]))
  {
    hide StepSys, Inv, MarkFits, CallAll, BodyRead, Through;
    var b, n := Concat(pieces), x.core.contentLength;
    EnterLive(x);
    BodyLeft(Enter(x));
    assert b != [] by { assert pieces[0] != []; }
    if |b| <= n {
      IdentityRead(hc, x, b);
      AnyCuts(hc, x, pieces);
    } else {
      assert b == b[..n] + b[n..];
      IdentityRead(hc, x, b[..n]);
      if x.core.upgrade {
        FeedAppend(hc, Enter(x), b[..n], b[n..]);
      } else {
        CleanCut(hc, x, b[..n], b[n..]);
        if Through(During(hc, x, b), |b|) { AnyCuts(hc, x, pieces); }
      }
    }
  }
}
