/** Runs of the one-byte machine: what a call to the parser means, and the invariant of every
    reachable parser. */
module HttpRun {
  import opened Bytes
  import opened HttpTypes
  import opened HttpStep

  // ----- the observer -----

  datatype Pending = Idle | Collecting(kind: Kind, bytes: seq<Byte>)

  /** The callbacks made so far, and the data of an open mark that has not been handed over. */
  datatype Obs = Obs(trace: seq<Event>, pending: Pending)

  function SetMark(o: Obs, k: Kind): Obs {
    if o.pending.Idle? then o.(pending := Collecting(k, [])) else o
  }

  function HandOver(o: Obs, k: Kind, extra: seq<Byte>): Obs {
    if o.pending.Collecting? && o.pending.kind == k
    then Obs(Push(o.trace, Data(k, o.pending.bytes + extra)), Idle)
    else o
  }

  function PushAll(trace: seq<Event>, notes: seq<Event>): seq<Event>
    decreases |notes|
  {
    if notes == [] then trace else PushAll(Push(trace, notes[0]), notes[1..])
  }

  function Observe(o: Obs, c: Calls, ch: Byte): Obs {
    var o1 := if c.emptyValue then HandOver(SetMark(o, HValue), HValue, []) else o;
    var o2 := if c.mark.Some? then SetMark(o1, c.mark.value) else o1;
    var o3 := if c.flush.Some? then HandOver(o2, c.flush.value, if c.withByte then [ch] else []) else o2;
    o3.(trace := PushAll(o3.trace, c.notes))
  }

  /** The byte joins the data of a mark that is open once it has been processed. */
  function Absorb(o: Obs, ch: Byte): Obs {
    if o.pending.Idle? then o
    else o.(pending := Collecting(o.pending.kind, o.pending.bytes + [ch]))
  }

  /** The mark that a call sets before it looks at any byte. */
  function Reopen(s: State): Pending {
    if s == Hdr(HeaderField) then Collecting(HField, [])
    else if s == Hdr(HeaderValue) then Collecting(HValue, [])
    else if s.Uri? then Collecting(Url, [])
    else if s == Res(ResStatus) then Collecting(Status, [])
    else Idle
  }

  // ----- the invariant -----

  predicate FieldName(h: HeaderState) {
    h.General? || h.C? || h.CO? || h.CON? || h.MatchingConnection? || h.MatchingProxyConnection? ||
    h.MatchingContentLength? || h.MatchingTransferEncoding? || h.MatchingUpgrade? ||
    h.Connection? || h.ContentLength? || h.TransferEncoding? || h.Upgrade?
  }

  predicate FieldValue(h: HeaderState) {
    h.General? || h.ContentLength? || h.MatchingTransferEncodingChunked? ||
    h.MatchingConnectionTokenStart? || h.MatchingConnectionKeepAlive? || h.MatchingConnectionClose? ||
    h.MatchingConnectionUpgrade? || h.MatchingConnectionToken? || h.TransferEncodingChunked? ||
    h.ConnectionKeepAlive? || h.ConnectionClose? || h.ConnectionUpgrade?
  }

  /** The match counter stays inside the string it indexes. */
  predicate IndexFits(c: Core) {
    match c.headerState
    case C => c.index == 0
    case CO => c.index == 1
    case CON => c.index == 2
    case MatchingConnection => 3 <= c.index < 9
    case MatchingProxyConnection => c.index < 15
    case MatchingContentLength => 3 <= c.index < 13
    case MatchingTransferEncoding => c.index < 16
    case MatchingUpgrade => c.index < 6
    case MatchingTransferEncodingChunked => c.index < 6
    case MatchingConnectionTokenStart => c.index == 0
    case MatchingConnectionKeepAlive => c.index < 9
    case MatchingConnectionClose => c.index < 4
    case MatchingConnectionUpgrade => c.index < 6
    case _ => true
  }

  /** The version and status numbers stay below 1000. */
  predicate NumbersFit(c: Core) {
    0 <= c.major <= 999 && 0 <= c.minor <= 999 && 0 <= c.statusCode <= 999
  }

  /** The method being matched can still be completed, so its string is indexed in bounds. */
  predicate MethodFits(c: Core) {
    c.state == Req(ReqMethod) ==> 1 <= c.index <= |MethodString(c.mthd)|
  }

  /** The match index does not wrap its eight bits, the length not its 64. */
  predicate CountersFit(c: Core) {
    0 <= c.index <= 16 && 0 <= c.contentLength <= NO_LENGTH
  }

  /** header_state fits the outer state; a length being read is not yet the marker value. */
  predicate HeaderFits(c: Core) {
    c.state.Hdr? ==>
      match c.state.hdr
      case HeaderField => FieldName(c.headerState) && IndexFits(c)
      case HeaderValueDiscardWs => FieldName(c.headerState)
      case HeaderValueDiscardWsAlmostDone => FieldName(c.headerState)
      case HeaderValueDiscardLws => FieldName(c.headerState)
      case HeaderValueStart => false
      case HeaderValue =>
        && FieldValue(c.headerState) && IndexFits(c)
        && (c.headerState.ContentLength? ==> c.contentLength < NO_LENGTH)
      case HeaderAlmostDone => FieldValue(c.headerState)
      case HeaderValueLws => FieldValue(c.headerState)
      case _ => true
  }

  /** Body states have the flags and the length they assert. */
  predicate BodyFits(c: Core) {
    && (c.flags.trailing ==> c.flags.chunked)
    && (c.state.Msg? ==>
      match c.state.msg
      case ChunkSizeStart => c.flags.chunked
      case ChunkSize => c.flags.chunked && c.contentLength < NO_LENGTH
      case ChunkParameters => c.flags.chunked && c.contentLength < NO_LENGTH
      case ChunkSizeAlmostDone => c.flags.chunked && c.contentLength < NO_LENGTH
      case ChunkData => c.flags.chunked && 0 < c.contentLength < NO_LENGTH
      case ChunkDataAlmostDone => c.flags.chunked && c.contentLength == 0
      case ChunkDataDone => c.flags.chunked
      case BodyIdentity => 0 < c.contentLength < NO_LENGTH
      case BodyIdentityEof => true
      case _ => false)
  }

  /** What holds of every parser that is not in error, between any two bytes. */
  predicate Inv(c: Core) {
    NumbersFit(c) && CountersFit(c) && MethodFits(c) && HeaderFits(c) && BodyFits(c)
  }

  /** The mark that is open, given the state: a mark outside the body states is open exactly in
      its own states, the body mark only in body states. */
  predicate MarkFits(s: State, open: Option<Kind>) {
    match Reopen(s)
    case Collecting(k, _) => open == Some(k)
    case Idle =>
      open == None ||
      (open == Some(Body) && s.Msg? && (s.msg.BodyIdentity? || s.msg.BodyIdentityEof? ||
                                        s.msg.ChunkData? || s.msg.ChunkDataAlmostDone?))
  }

  function Open(p: Pending): Option<Kind> {
    if p.Idle? then None else Some(p.kind)
  }

  /** http_parser_init */
  lemma InitInv(t: MessageType)
    ensures Inv(InitCore(t)) && InitCore(t).errno == OK
  {
  }

  // ----- every step keeps the invariant -----

  /** Exactly the refused bytes set an errno, and the others leave the invariant. */
  predicate Kept(o: Out) {
    && (o.verdict.Fail? <==> o.core.errno != OK)
    && o.core.index >= 0
    && (!o.verdict.Fail? ==> Inv(o.core))
  }

  lemma ResponseSound(c: Core, ch: Byte)
    requires c.errno == OK && c.state.Res?
    ensures StepResponse(c, ch).verdict.Fail? <==> StepResponse(c, ch).core.errno != OK
  {
  }

  lemma ResponseCounters(c: Core, ch: Byte)
    requires CountersFit(c) && c.state.Res?
    ensures CountersFit(StepResponse(c, ch).core)
    ensures StepResponse(c, ch).core.state.Hdr? ==>
              StepResponse(c, ch).core.state == Hdr(HeaderFieldStart)
  {
  }

  lemma ResponseNumbers(c: Core, ch: Byte)
    requires Inv(c) && c.errno == OK && c.state.Res? && !StepResponse(c, ch).verdict.Fail?
    ensures NumbersFit(StepResponse(c, ch).core)
  {
    hide MethodFits, HeaderFits, BodyFits, StartsMethod, FirstMethod;
  }

  lemma ResponseBody(c: Core, ch: Byte)
    requires Inv(c) && c.errno == OK && c.state.Res? && !StepResponse(c, ch).verdict.Fail?
    ensures BodyFits(StepResponse(c, ch).core)
  {
    hide MethodFits, HeaderFits, NumbersFit, StartsMethod, FirstMethod;
  }

  lemma ResponseMethod(c: Core, ch: Byte)
    requires Inv(c) && c.errno == OK && c.state.Res? && !StepResponse(c, ch).verdict.Fail?
    ensures MethodFits(StepResponse(c, ch).core)
  {
    hide HeaderFits, BodyFits, NumbersFit;
  }

  lemma ResponseKept(c: Core, ch: Byte)
    requires Inv(c) && c.errno == OK && c.state.Res?
    ensures Kept(StepResponse(c, ch))
  {
    hide StepResponse, NumbersFit, MethodFits, BodyFits;
    ResponseSound(c, ch);
    ResponseCounters(c, ch);
    if !StepResponse(c, ch).verdict.Fail? {
      ResponseNumbers(c, ch);
      ResponseBody(c, ch);
      ResponseMethod(c, ch);
    }
  }

  lemma InMethodFits(c: Core, ch: Byte)
    requires c.state == Req(ReqMethod) && MethodFits(c)
    ensures !InMethod(c, ch).verdict.Fail? ==> MethodFits(InMethod(c, ch).core)
    ensures 0 <= InMethod(c, ch).core.index <= 16
    ensures InMethod(c, ch).core.contentLength == c.contentLength && !InMethod(c, ch).core.state.Hdr?
  {
  }

  lemma UrlStays(s: State, ch: Byte)
    ensures !ParseUrlChar(s, ch).Hdr?
  {
  }

  lemma RequestSound(c: Core, ch: Byte)
    requires c.errno == OK && c.index >= 0 && c.state.Req?
    ensures StepRequest(c, ch).verdict.Fail? <==> StepRequest(c, ch).core.errno != OK
  {
    hide MethodString, SwitchMethod;
  }

  lemma RequestCounters(c: Core, ch: Byte)
    requires CountersFit(c) && MethodFits(c) && c.state.Req?
    ensures CountersFit(StepRequest(c, ch).core)
    ensures StepRequest(c, ch).core.state.Hdr? ==>
              StepRequest(c, ch).core.state == Hdr(HeaderFieldStart)
  {
    hide MethodFits, InMethod, StartsMethod, FirstMethod, ParseUrlChar;
    UrlStays(if c.mthd.CONNECT? then Uri(ReqServerStart) else Req(ReqSpacesBeforeUrl), ch);
    if c.state == Req(ReqMethod) { InMethodFits(c, ch); }
  }

  lemma RequestNumbers(c: Core, ch: Byte)
    requires Inv(c) && c.errno == OK && c.state.Req? && !StepRequest(c, ch).verdict.Fail?
    ensures NumbersFit(StepRequest(c, ch).core) && BodyFits(StepRequest(c, ch).core)
  {
    hide MethodString, SwitchMethod;
  }

  lemma RequestMethod(c: Core, ch: Byte)
    requires Inv(c) && c.errno == OK && c.state.Req? && !StepRequest(c, ch).verdict.Fail?
    ensures MethodFits(StepRequest(c, ch).core)
  {
    hide HeaderFits, BodyFits, NumbersFit, InMethod;
    if c.state == Req(ReqMethod) { InMethodFits(c, ch); }
  }

  lemma RequestKept(c: Core, ch: Byte)
    requires Inv(c) && c.errno == OK && c.state.Req?
    ensures Kept(StepRequest(c, ch))
  {
    hide StepRequest, NumbersFit, MethodFits, BodyFits;
    RequestSound(c, ch);
    RequestCounters(c, ch);
    if !StepRequest(c, ch).verdict.Fail? {
      RequestNumbers(c, ch);
      RequestMethod(c, ch);
    }
  }

  lemma UrlKept(c: Core, ch: Byte)
    requires Inv(c) && c.errno == OK && c.state.Uri?
    ensures Kept(StepUrl(c, ch))
  {
    hide MethodString;
  }

  lemma EndHeadersKept(hc: HeadersCallback, c: Core, ch: Byte)
    requires Inv(c) && c.errno == OK
    ensures Kept(EndHeaders(hc, c, ch))
  {
    hide MethodString, MessageNeedsEof;
  }

  lemma StartFieldKept(hc: HeadersCallback, c: Core, ch: Byte)
    requires Inv(c) && c.errno == OK
    ensures Kept(StartField(hc, c, ch))
  {
    hide MethodString, EndHeaders;
    EndHeadersKept(hc, c.(state := Hdr(HeadersAlmostDone)), ch);
  }

  lemma InFieldKept(c: Core, ch: Byte)
    requires Inv(c) && c.errno == OK && c.state == Hdr(HeaderField)
    ensures Kept(InField(c, ch))
  {
    hide MethodString, NameStep, FieldName;
    if Token(ch) != 0 {
      NameStepFits(c, Token(ch));
    }
  }

  lemma NameStepFits(c: Core, t: Byte)
    requires FieldName(c.headerState) && IndexFits(c) && 0 <= c.index <= 16
    ensures var (h, i) := NameStep(c.headerState, c.index, t);
            FieldName(h) && IndexFits(c.(headerState := h, index := i)) && 0 <= i <= 16
  {
  }

  lemma StartValueKept(c: Core, ch: Byte)
    requires Inv(c.(state := Hdr(HeaderFieldStart))) && c.errno == OK
    requires FieldName(c.headerState) || FieldValue(c.headerState)
    ensures Kept(StartValue(c, ch))
  {
  }

  predicate Matching(h: HeaderState) {
    h.MatchingTransferEncodingChunked? || h.MatchingConnectionKeepAlive? ||
    h.MatchingConnectionClose? || h.MatchingConnectionUpgrade?
  }

  lemma InValueMatches(c: Core, ch: Byte)
    requires Inv(c) && c.state == Hdr(HeaderValue) && Matching(c.headerState)
    ensures InValue(c, ch).verdict.Go? ==> HeaderFits(InValue(c, ch).core)
  {
    hide NumbersFit, MethodFits, BodyFits, TokenDone, ConnectionStart, LengthFull;
  }

  lemma InValueFits(c: Core, ch: Byte)
    requires Inv(c) && c.state == Hdr(HeaderValue)
    ensures InValue(c, ch).verdict.Go? ==> HeaderFits(InValue(c, ch).core)
  {
    hide NumbersFit, MethodFits, BodyFits, MatchStep;
    if Matching(c.headerState) { InValueMatches(c, ch); }
  }

  lemma InValueSound(c: Core, ch: Byte)
    requires Inv(c) && c.errno == OK && c.state == Hdr(HeaderValue)
    ensures InValue(c, ch).verdict.Fail? <==> InValue(c, ch).core.errno != OK
    ensures CountersFit(InValue(c, ch).core)
    ensures !InValue(c, ch).verdict.Exit?
  {
    hide MethodFits, BodyFits, NumbersFit, MatchStep;
  }

  lemma InValueRest(c: Core, ch: Byte)
    requires Inv(c) && c.errno == OK && c.state == Hdr(HeaderValue)
    ensures InValue(c, ch).verdict.Go? ==>
      NumbersFit(InValue(c, ch).core) && MethodFits(InValue(c, ch).core) && BodyFits(InValue(c, ch).core)
  {
    hide MethodString, HeaderFits, MatchStep;
  }

  lemma InValueKept(c: Core, ch: Byte)
    requires Inv(c) && c.errno == OK && c.state == Hdr(HeaderValue)
    ensures Kept(InValue(c, ch))
  {
    hide InValue, MethodFits, HeaderFits, BodyFits, NumbersFit;
    InValueFits(c, ch);
    InValueSound(c, ch);
    InValueRest(c, ch);
  }

  lemma HeaderKept(hc: HeadersCallback, c: Core, ch: Byte)
    requires Inv(c) && c.errno == OK && c.state.Hdr?
    ensures Kept(StepHeader(hc, c, ch))
  {
    hide StartField, EndHeaders, InField, InValue, StartValue, MethodString;
    var c1 := c.(state := Hdr(HeaderFieldStart), flags := SetFlag(c.flags, c.headerState));
    match c.state.hdr
    case HeaderFieldStart => StartFieldKept(hc, c, ch);
    case HeaderField => InFieldKept(c, ch);
    case HeaderValueDiscardWs => StartValueKept(c, ch);
    case HeaderValue => InValueKept(c, ch);
    case HeaderValueLws =>
      StartValueKept(c.(state := Hdr(HeaderValueStart)), ch);
      StartFieldKept(hc, c1, ch);
    case HeaderValueDiscardLws => StartFieldKept(hc, c1, ch);
    case HeadersAlmostDone => EndHeadersKept(hc, c, ch);
    case _ =>
  }

  lemma BodyFramed(c: Core, ch: Byte)
    requires Inv(c) && c.errno == OK && c.state.Msg?
    ensures StepBody(c, ch).verdict.Fail? || BodyFits(StepBody(c, ch).core)
  {
    hide NumbersFit, MethodFits;
  }

  lemma BodySound(c: Core, ch: Byte)
    requires Inv(c) && c.errno == OK && c.state.Msg?
    ensures StepBody(c, ch).verdict.Fail? <==> StepBody(c, ch).core.errno != OK
    ensures CountersFit(StepBody(c, ch).core)
  {
    hide NumbersFit, MethodFits, MessageNeedsEof;
  }

  lemma BodyLines(c: Core, ch: Byte)
    requires Inv(c) && c.errno == OK && c.state.Msg?
    ensures NumbersFit(StepBody(c, ch).core) && MethodFits(StepBody(c, ch).core)
    ensures StepBody(c, ch).verdict.Fail? || HeaderFits(StepBody(c, ch).core)
  {
    hide BodyFits, MethodString, MessageNeedsEof;
  }

  lemma BodyKept(c: Core, ch: Byte)
    requires Inv(c) && c.errno == OK && c.state.Msg?
    ensures Kept(StepBody(c, ch))
  {
    hide StepBody, NumbersFit, HeaderFits, MethodFits, BodyFits;
    BodyFramed(c, ch);
    BodySound(c, ch);
    BodyLines(c, ch);
  }

  /** Every step keeps the invariant, as long as the parser is not in error. */
  lemma StepKeepsInv(hc: HeadersCallback, c: Core, ch: Byte)
    requires Inv(c) && c.errno == OK
    ensures Kept(Step(hc, c, ch))
  {
    hide StepResponse, StepRequest, StepUrl, StepHeader, StepBody, Kept, Inv;
    match c.state
    case Res(_) => ResponseKept(c, ch);
    case Req(_) => RequestKept(c, ch);
    case Uri(_) => UrlKept(c, ch);
    case Hdr(_) => HeaderKept(hc, c, ch);
    case Msg(_) => BodyKept(c, ch);
  }
}
