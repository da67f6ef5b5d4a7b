/** The parser as a one-byte machine: what each state does with one input byte.  A state whose
    code says "reexecute" hands the same byte on to the next state. */
module HttpStep {
  import opened Bytes
  import opened HttpTypes

  datatype Option<+T> = None | Some(value: T)

  /** The mark and callback macros that one byte runs, in this order: an empty header value is
      handed over, a mark is set (unless it is set already), the data of a mark is handed over up
      to this byte or including it, and notifications are made. */
  datatype Calls = Calls(emptyValue: bool, mark: Option<Kind>, flush: Option<Kind>, withByte: bool,
                         notes: seq<Event>)

  const QUIET := Calls(false, None, None, false, [])
  function MarkOf(k: Kind): Calls { QUIET.(mark := Some(k)) }
  function FlushOf(k: Kind): Calls { QUIET.(flush := Some(k)) }
  function NoteOf(e: Event): Calls { QUIET.(notes := [e]) }

  datatype Verdict =
    | Go      // go on with the next byte
    | Fail    // this byte is not consumed
    | Exit    // this byte is consumed, the rest is another protocol

  datatype Out = Out(core: Core, calls: Calls, verdict: Verdict, resetNread: bool)

  function Goto(c: Core, s: State): Out { Out(c.(state := s), QUIET, Go, false) }
  function Err(c: Core, e: Errno): Out { Out(c.(errno := e), QUIET, Fail, false) }

  // ----- URL characters -----

  function ParseUrlChar(s: State, ch: Byte): State {
    if ch == SP || ch == CR || ch == LF || ch == TAB || ch == 12 then Res(Dead)
    else match s
      case Req(ReqSpacesBeforeUrl) =>
        if ch == '/' as int || ch == '*' as int then Uri(ReqPath)
        else if IsAlpha(ch) then Uri(ReqSchema)
        else Res(Dead)
      case Uri(ReqSchema) =>
        if IsAlpha(ch) then s else if ch == ':' as int then Uri(ReqSchemaSlash) else Res(Dead)
      case Uri(ReqSchemaSlash) =>
        if ch == '/' as int then Uri(ReqSchemaSlashSlash) else Res(Dead)
      case Uri(ReqSchemaSlashSlash) =>
        if ch == '/' as int then Uri(ReqServerStart) else Res(Dead)
      case Uri(ReqServerWithAt) =>
        if ch == '@' as int then Res(Dead) else ServerChar(ch)
      case Uri(ReqServerStart) => ServerChar(ch)
      case Uri(ReqServer) => ServerChar(ch)
      case Uri(ReqPath) =>
        if IsUrlChar(ch) then s
        else if ch == '?' as int then Uri(ReqQueryStringStart)
        else if ch == '#' as int then Uri(ReqFragmentStart)
        else Res(Dead)
      case Uri(ReqQueryStringStart) => QueryChar(ch)
      case Uri(ReqQueryString) => QueryChar(ch)
      case Uri(ReqFragmentStart) =>
        if IsUrlChar(ch) || ch == '?' as int then Uri(ReqFragment)
        else if ch == '#' as int then s
        else Res(Dead)
      case Uri(ReqFragment) =>
        if IsUrlChar(ch) || ch == '?' as int || ch == '#' as int then s else Res(Dead)
      case _ => Res(Dead)
  }

  function ServerChar(ch: Byte): State {
    if ch == '/' as int then Uri(ReqPath)
    else if ch == '?' as int then Uri(ReqQueryStringStart)
    else if ch == '@' as int then Uri(ReqServerWithAt)
    else if IsUserinfoChar(ch) || ch == '[' as int || ch == ']' as int then Uri(ReqServer)
    else Res(Dead)
  }

  function QueryChar(ch: Byte): State {
    if IsUrlChar(ch) || ch == '?' as int then Uri(ReqQueryString)
    else if ch == '#' as int then Uri(ReqFragmentStart)
    else Res(Dead)
  }

  // ----- message framing -----

  predicate MessageNeedsEof(c: Core) {
    !c.messageType.Request? &&
    !(c.statusCode / 100 == 1 || c.statusCode == 204 || c.statusCode == 304 || c.flags.skipBody) &&
    !(c.flags.chunked || c.contentLength != NO_LENGTH)
  }

  predicate ShouldKeepAlive(c: Core) {
    (if c.major > 0 && c.minor > 0 then !c.flags.close else c.flags.keepAlive) &&
    !MessageNeedsEof(c)
  }

  function NewMessage(c: Core): State {
    if !ShouldKeepAlive(c) then Res(Dead)
    else if c.messageType.Request? then Req(StartReq)
    else Res(StartRes)
  }

  /** The message is over; a message that asked for another protocol ends the call. */
  function Finish(c: Core, exit: bool): Out {
    Out(c.(state := NewMessage(c)), NoteOf(MessageComplete), if exit then Exit else Go, false)
  }

  predicate HasBody(c: Core) {
    c.flags.chunked || (c.contentLength > 0 && c.contentLength != NO_LENGTH)
  }

  /** s_headers_done: choose how the body is delimited. */
  function EnterBody(c: Core): (o: Out) {
    var o :=
      if c.upgrade && (c.mthd.CONNECT? || c.flags.skipBody || !HasBody(c)) then Finish(c, true)
      else if c.flags.skipBody then Finish(c, false)
      else if c.flags.chunked then Goto(c, Msg(ChunkSizeStart))
      else if c.contentLength == 0 then Finish(c, false)
      else if c.contentLength != NO_LENGTH then Goto(c, Msg(BodyIdentity))
      else if !MessageNeedsEof(c) then Finish(c, false)
      else Goto(c, Msg(BodyIdentityEof));
    o.(resetNread := true)
  }

  /** s_headers_almost_done and the states it runs into on the same byte. */
  function EndHeaders(hc: HeadersCallback, c: Core, ch: Byte): Out {
    if ch != LF then Err(c, Strict)
    else if c.flags.trailing then
      var o := Finish(c.(state := Msg(MessageDone)), c.upgrade);
      o.(calls := o.calls.(notes := [ChunkComplete] + o.calls.notes))
    else
      var up := (c.flags.upgrade && c.flags.connUpgrade) || c.mthd.CONNECT?;
      var c1 := c.(state := Msg(HeadersDone), upgrade := up);
      var r := hc(c1);
      if r == 0 then
        var o := EnterBody(c1);
        o.(calls := o.calls.(notes := [HeadersComplete(c1)] + o.calls.notes))
      else if r == 1 then
        var o := EnterBody(c1.(flags := c1.flags.(skipBody := true)));
        o.(calls := o.calls.(notes := [HeadersComplete(c1)] + o.calls.notes))
      else
        Out(c1.(errno := CbHeadersComplete), NoteOf(HeadersComplete(c1)), Fail, false)
  }

  // ----- header names and values -----

  const CONNECTION := "connection"
  const PROXY_CONNECTION := "proxy-connection"
  const CONTENT_LENGTH := "content-length"
  const TRANSFER_ENCODING := "transfer-encoding"
  const UPGRADE := "upgrade"
  const CHUNKED := "chunked"
  const KEEP_ALIVE := "keep-alive"
  const CLOSE := "close"

  /** The character of a C string, with its terminating zero. */
  function At(s: string, i: int): int
    requires 0 <= i
  {
    if i < |s| then s[i] as int else 0
  }

  /** The state of an incremental match that has just been shown its index-th character. */
  function MatchStep(name: string, index: int, c: Byte, on: HeaderState, done: HeaderState,
                     off: HeaderState): HeaderState
    requires 0 <= index
  {
    if index > |name| || c != At(name, index) then off
    else if index == |name| - 1 then done
    else on
  }

  function NameStep(h: HeaderState, index: nat, c: Byte): (HeaderState, nat) {
    match h
    case General => (General, index)
    case C => (if c == 'o' as int then CO else General, index + 1)
    case CO => (if c == 'n' as int then CON else General, index + 1)
    case CON =>
      (if c == 'n' as int then MatchingConnection
       else if c == 't' as int then MatchingContentLength else General, index + 1)
    case MatchingConnection =>
      (MatchStep(CONNECTION, index + 1, c, h, Connection, General), index + 1)
    case MatchingProxyConnection =>
      (MatchStep(PROXY_CONNECTION, index + 1, c, h, Connection, General), index + 1)
    case MatchingContentLength =>
      (MatchStep(CONTENT_LENGTH, index + 1, c, h, ContentLength, General), index + 1)
    case MatchingTransferEncoding =>
      (MatchStep(TRANSFER_ENCODING, index + 1, c, h, TransferEncoding, General), index + 1)
    case MatchingUpgrade =>
      (MatchStep(UPGRADE, index + 1, c, h, Upgrade, General), index + 1)
    case Connection => (General, index)
    case ContentLength => (General, index)
    case TransferEncoding => (General, index)
    case Upgrade => (General, index)
    case _ => (h, index)
  }

  function NameStart(c: Byte): HeaderState {
    if c == 'c' as int then C
    else if c == 'p' as int then MatchingProxyConnection
    else if c == 't' as int then MatchingTransferEncoding
    else if c == 'u' as int then MatchingUpgrade
    else General
  }

  function StartField(hc: HeadersCallback, c: Core, ch: Byte): Out {
    if ch == CR then Goto(c, Hdr(HeadersAlmostDone))
    else if ch == LF then EndHeaders(hc, c.(state := Hdr(HeadersAlmostDone)), ch)
    else
      var t := Token(ch);
      if t == 0 then Err(c, InvalidHeaderToken)
      else Out(c.(state := Hdr(HeaderField), index := 0, headerState := NameStart(t)),
               MarkOf(HField), Go, false)
  }

  function InField(c: Core, ch: Byte): Out
    requires 0 <= c.index
  {
    var t := Token(ch);
    if t != 0 then
      var (h, i) := NameStep(c.headerState, c.index, t);
      Out(c.(headerState := h, index := i), QUIET, Go, false)
    else if ch == ':' as int then
      Out(c.(state := Hdr(HeaderValueDiscardWs)), FlushOf(HField), Go, false)
    else Err(c, InvalidHeaderToken)
  }

  function ConnectionStart(c: Byte, other: HeaderState): HeaderState {
    if c == 'k' as int then MatchingConnectionKeepAlive
    else if c == 'c' as int then MatchingConnectionClose
    else if c == 'u' as int then MatchingConnectionUpgrade
    else other
  }

  function StartValue(c0: Core, ch: Byte): Out {
    var c := c0.(state := Hdr(HeaderValue), index := 0);
    var mark := MarkOf(HValue);
    match c.headerState
    case Upgrade =>
      Out(c.(flags := c.flags.(upgrade := true), headerState := General), mark, Go, false)
    case TransferEncoding =>
      Out(c.(headerState := if Lower(ch) == 'c' as int then MatchingTransferEncodingChunked
                            else General), mark, Go, false)
    case ContentLength =>
      if !IsNum(ch) then Out(c.(errno := InvalidContentLength), mark, Fail, false)
      else Out(c.(contentLength := ch - 48), mark, Go, false)
    case Connection =>
      Out(c.(headerState := ConnectionStart(Lower(ch), MatchingConnectionToken)), mark, Go, false)
    case MatchingConnectionTokenStart => Out(c, mark, Go, false)
    case _ => Out(c.(headerState := General), mark, Go, false)
  }

  /** The flag that a finished connection token or transfer coding sets. */
  function SetFlag(f: Flags, h: HeaderState): Flags {
    match h
    case ConnectionKeepAlive => f.(keepAlive := true)
    case ConnectionClose => f.(close := true)
    case ConnectionUpgrade => f.(connUpgrade := true)
    case TransferEncodingChunked => f.(chunked := true)
    case _ => f
  }

  /** (ULLONG_MAX - base) / base: above this another digit is refused. */
  predicate LengthFull(length: int, base: int)
    requires base > 0
  {
    (NO_LENGTH - base) / base < length
  }

  /** A byte of a header value other than CR and LF. */
  function ValueStep(c: Core, ch: Byte): Out
    requires 0 <= c.index
  {
    var l := Lower(ch);
    var i := c.index + 1;
    match c.headerState
    case General => Out(c, QUIET, Go, false)
    case Connection => Out(c, QUIET, Go, false)
    case TransferEncoding => Out(c, QUIET, Go, false)
    case ContentLength =>
      if ch == SP then Out(c, QUIET, Go, false)
      else if !IsNum(ch) || LengthFull(c.contentLength, 10) then Err(c, InvalidContentLength)
      else Out(c.(contentLength := c.contentLength * 10 + (ch - 48)), QUIET, Go, false)
    case MatchingTransferEncodingChunked =>
      var h := MatchStep(CHUNKED, i, l, c.headerState, TransferEncodingChunked, General);
      Out(c.(headerState := h, index := i), QUIET, Go, false)
    case MatchingConnectionTokenStart =>
      var h := if Token(l) != 0 then MatchingConnectionToken
               else if l == SP || l == TAB then MatchingConnectionTokenStart
               else General;
      Out(c.(headerState := ConnectionStart(l, h)), QUIET, Go, false)
    case MatchingConnectionKeepAlive =>
      var h := MatchStep(KEEP_ALIVE, i, l, c.headerState, ConnectionKeepAlive, MatchingConnectionToken);
      Out(c.(headerState := h, index := i), QUIET, Go, false)
    case MatchingConnectionClose =>
      var h := MatchStep(CLOSE, i, l, c.headerState, ConnectionClose, MatchingConnectionToken);
      Out(c.(headerState := h, index := i), QUIET, Go, false)
    case MatchingConnectionUpgrade =>
      var h := MatchStep(UPGRADE, i, l, c.headerState, ConnectionUpgrade, MatchingConnectionToken);
      Out(c.(headerState := h, index := i), QUIET, Go, false)
    case MatchingConnectionToken =>
      if ch == ',' as int
      then Out(c.(headerState := MatchingConnectionTokenStart, index := 0), QUIET, Go, false)
      else Out(c, QUIET, Go, false)
    case TransferEncodingChunked =>
      Out(if ch != SP then c.(headerState := General) else c, QUIET, Go, false)
    case ConnectionKeepAlive => TokenDone(c, ch)
    case ConnectionClose => TokenDone(c, ch)
    case ConnectionUpgrade => TokenDone(c, ch)
    case _ => Out(c.(headerState := General), QUIET, Go, false)
  }

  function TokenDone(c: Core, ch: Byte): Out {
    if ch == ',' as int then
      Out(c.(flags := SetFlag(c.flags, c.headerState), headerState := MatchingConnectionTokenStart,
             index := 0), QUIET, Go, false)
    else Out(if ch != SP then c.(headerState := MatchingConnectionToken) else c, QUIET, Go, false)
  }

  function InValue(c: Core, ch: Byte): Out
    requires 0 <= c.index
  {
    if ch == CR then Out(c.(state := Hdr(HeaderAlmostDone)), FlushOf(HValue), Go, false)
    else if ch == LF then Out(c.(state := Hdr(HeaderValueLws)), FlushOf(HValue), Go, false)
    else ValueStep(c, ch)
  }

  function StepHeader(hc: HeadersCallback, c: Core, ch: Byte): Out
    requires 0 <= c.index && c.state.Hdr?
  {
    match c.state.hdr
    case HeaderFieldStart => StartField(hc, c, ch)
    case HeaderField => InField(c, ch)
    case HeaderValueDiscardWs =>
      if ch == SP || ch == TAB then Goto(c, Hdr(HeaderValueDiscardWs))
      else if ch == CR then Goto(c, Hdr(HeaderValueDiscardWsAlmostDone))
      else if ch == LF then Goto(c, Hdr(HeaderValueDiscardLws))
      else StartValue(c, ch)
    case HeaderValueStart => StartValue(c, ch)
    case HeaderValue => InValue(c, ch)
    case HeaderAlmostDone =>
      if ch != LF then Err(c, Strict) else Goto(c, Hdr(HeaderValueLws))
    case HeaderValueLws =>
      if ch == SP || ch == TAB then StartValue(c.(state := Hdr(HeaderValueStart)), ch)
      else StartField(hc, c.(state := Hdr(HeaderFieldStart), flags := SetFlag(c.flags, c.headerState)), ch)
    case HeaderValueDiscardWsAlmostDone =>
      if ch != LF then Err(c, Strict) else Goto(c, Hdr(HeaderValueDiscardLws))
    case HeaderValueDiscardLws =>
      if ch == SP || ch == TAB then Goto(c, Hdr(HeaderValueDiscardWs))
      else
        // the header value was empty
        var o := StartField(hc, c.(state := Hdr(HeaderFieldStart), flags := SetFlag(c.flags, c.headerState)), ch);
        o.(calls := o.calls.(emptyValue := true))
    case HeadersAlmostDone => EndHeaders(hc, c, ch)
  }

  // ----- bodies -----

  function StepBody(c: Core, ch: Byte): Out
    requires c.state.Msg?
  {
    match c.state.msg
    case BodyIdentity =>
      var c1 := c.(contentLength := c.contentLength - 1);
      if c1.contentLength == 0 then
        var o := Finish(c1.(state := Msg(MessageDone)), c1.upgrade);
        o.(calls := o.calls.(mark := Some(Body), flush := Some(Body), withByte := true))
      else Out(c1, MarkOf(Body), Go, false)
    case BodyIdentityEof => Out(c, MarkOf(Body), Go, false)
    case ChunkSizeStart =>
      if Unhex(ch) == -1 then Err(c, InvalidChunkSize)
      else Goto(c.(contentLength := Unhex(ch)), Msg(ChunkSize))
    case ChunkSize =>
      if ch == CR then Goto(c, Msg(ChunkSizeAlmostDone))
      else if Unhex(ch) == -1 then
        if ch == ';' as int || ch == SP then Goto(c, Msg(ChunkParameters)) else Err(c, InvalidChunkSize)
      else if LengthFull(c.contentLength, 16) then Err(c, InvalidContentLength)
      else Goto(c.(contentLength := c.contentLength * 16 + Unhex(ch)), Msg(ChunkSize))
    case ChunkParameters =>
      Goto(c, if ch == CR then Msg(ChunkSizeAlmostDone) else Msg(ChunkParameters))
    case ChunkSizeAlmostDone =>
      if ch != LF then Err(c, Strict)
      else
        var c1 := if c.contentLength == 0
                  then c.(flags := c.flags.(trailing := true), state := Hdr(HeaderFieldStart))
                  else c.(state := Msg(ChunkData));
        Out(c1, NoteOf(ChunkHeader(c.contentLength)), Go, true)
    case ChunkData =>
      var c1 := c.(contentLength := c.contentLength - 1);
      Out(if c1.contentLength == 0 then c1.(state := Msg(ChunkDataAlmostDone)) else c1,
          MarkOf(Body), Go, false)
    case ChunkDataAlmostDone =>
      if ch != CR then Err(c, Strict)
      else Out(c.(state := Msg(ChunkDataDone)), FlushOf(Body), Go, false)
    case ChunkDataDone =>
      if ch != LF then Err(c, Strict)
      else Out(c.(state := Msg(ChunkSizeStart)), NoteOf(ChunkComplete), Go, true)
    case HeadersDone => if ch != LF then Err(c, Strict) else EnterBody(c)
    case MessageDone => Finish(c, c.upgrade)
  }

  // ----- first lines -----

  function Restart(c: Core): Core { c.(flags := NO_FLAGS, contentLength := NO_LENGTH) }

  function FirstMethod(ch: Byte): Method {
    if ch == 'A' as int then ACL else if ch == 'B' as int then BIND
    else if ch == 'C' as int then CONNECT else if ch == 'D' as int then DELETE
    else if ch == 'G' as int then GET else if ch == 'H' as int then HEAD
    else if ch == 'L' as int then LOCK else if ch == 'M' as int then MKCOL
    else if ch == 'N' as int then NOTIFY else if ch == 'O' as int then OPTIONS
    else if ch == 'P' as int then POST else if ch == 'R' as int then REPORT
    else if ch == 'S' as int then SUBSCRIBE else if ch == 'T' as int then TRACE
    else UNLOCK
  }

  predicate StartsMethod(ch: Byte) {
    ch == 'A' as int || ch == 'B' as int || ch == 'C' as int || ch == 'D' as int ||
    ch == 'G' as int || ch == 'H' as int || ch == 'L' as int || ch == 'M' as int ||
    ch == 'N' as int || ch == 'O' as int || ch == 'P' as int || ch == 'R' as int ||
    ch == 'S' as int || ch == 'T' as int || ch == 'U' as int
  }

  function StartRequest(c: Core, ch: Byte): Out {
    if ch == CR || ch == LF then Goto(c, Req(StartReq))
    else if !IsAlpha(ch) then Err(Restart(c), InvalidMethod)
    else if !StartsMethod(ch) then Err(Restart(c).(mthd := DELETE, index := 1), InvalidMethod)
    else Out(Restart(c).(mthd := FirstMethod(ch), index := 1, state := Req(ReqMethod)),
             NoteOf(MessageBegin), Go, false)
  }

  /** The method to go on with when the byte at index is not the current method's. */
  function SwitchMethod(m: Method, index: int, ch: Byte): Option<Method> {
    match m
    case CONNECT =>
      if index == 1 && ch == 'H' as int then Some(CHECKOUT)
      else if index == 2 && ch == 'P' as int then Some(COPY) else None
    case MKCOL =>
      if index == 1 && ch == 'O' as int then Some(MOVE)
      else if index == 1 && ch == 'E' as int then Some(MERGE)
      else if index == 1 && ch == '-' as int then Some(MSEARCH)
      else if index == 2 && ch == 'A' as int then Some(MKACTIVITY)
      else if index == 3 && ch == 'A' as int then Some(MKCALENDAR) else None
    case SUBSCRIBE => if index == 1 && ch == 'E' as int then Some(SEARCH) else None
    case REPORT => if index == 2 && ch == 'B' as int then Some(REBIND) else None
    case POST =>
      if index != 1 then None
      else if ch == 'R' as int then Some(PROPFIND)
      else if ch == 'U' as int then Some(PUT)
      else if ch == 'A' as int then Some(PATCH) else None
    case PUT => if index == 2 && ch == 'R' as int then Some(PURGE) else None
    case UNLOCK =>
      if index != 2 then None
      else if ch == 'S' as int then Some(UNSUBSCRIBE)
      else if ch == 'B' as int then Some(UNBIND) else None
    case PROPFIND => if index == 4 && ch == 'P' as int then Some(PROPPATCH) else None
    case _ => None
  }

  function InMethod(c: Core, ch: Byte): Out
    requires 0 <= c.index
  {
    var want := At(MethodString(c.mthd), c.index);
    if ch == 0 then Err(c, InvalidMethod)
    else if ch == SP && want == 0 then
      Out(c.(state := Req(ReqSpacesBeforeUrl), index := c.index + 1), QUIET, Go, false)
    else if ch == want then Out(c.(index := c.index + 1), QUIET, Go, false)
    else match SwitchMethod(c.mthd, c.index, ch)
      case Some(m) => Out(c.(mthd := m, index := c.index + 1), QUIET, Go, false)
      case None => Err(c, InvalidMethod)
  }

  function UrlChar(c: Core, s: State, ch: Byte, calls: Calls): Out {
    var n := ParseUrlChar(s, ch);
    if n == Res(Dead) then Out(c.(state := Res(Dead), errno := InvalidUrl), calls, Fail, false)
    else Out(c.(state := n), calls, Go, false)
  }

  function StepUrl(c: Core, ch: Byte): Out
    requires c.state.Uri?
  {
    if ch != SP && ch != CR && ch != LF then UrlChar(c, c.state, ch, QUIET)
    else if c.state.uri.ReqSchema? || c.state.uri.ReqSchemaSlash? || c.state.uri.ReqSchemaSlashSlash? ||
            c.state.uri.ReqServerStart?
    then Err(c, InvalidUrl)   // no whitespace allowed here
    else if ch == SP then Out(c.(state := Req(ReqHttpStart)), FlushOf(Url), Go, false)
    else Out(c.(major := 0, minor := 9,
                state := if ch == CR then Req(ReqLineAlmostDone) else Hdr(HeaderFieldStart)),
             FlushOf(Url), Go, false)
  }

  function Expect(c: Core, ch: Byte, want: char, next: State): Out {
    if ch != want as int then Err(c, Strict) else Goto(c, next)
  }

  function StepRequest(c: Core, ch: Byte): Out
    requires 0 <= c.index && c.state.Req?
  {
    match c.state.req
    case StartReq => StartRequest(c, ch)
    case ReqMethod => InMethod(c, ch)
    case ReqSpacesBeforeUrl =>
      if ch == SP then Goto(c, Req(ReqSpacesBeforeUrl))
      else UrlChar(c, if c.mthd.CONNECT? then Uri(ReqServerStart) else Req(ReqSpacesBeforeUrl), ch, MarkOf(Url))
    case ReqHttpStart =>
      if ch == 'H' as int then Goto(c, Req(ReqHttpH))
      else if ch == SP then Goto(c, Req(ReqHttpStart))
      else Err(c, InvalidConstant)
    case ReqHttpH => Expect(c, ch, 'T', Req(ReqHttpHT))
    case ReqHttpHT => Expect(c, ch, 'T', Req(ReqHttpHTT))
    case ReqHttpHTT => Expect(c, ch, 'P', Req(ReqHttpHTTP))
    case ReqHttpHTTP => Expect(c, ch, '/', Req(ReqFirstHttpMajor))
    case ReqFirstHttpMajor =>
      if !IsNum(ch) || ch == '0' as int then Err(c, InvalidVersion)
      else Goto(c.(major := ch - 48), Req(ReqHttpMajor))
    case ReqHttpMajor => InMajor(c, ch, Req(ReqFirstHttpMinor))
    case ReqFirstHttpMinor =>
      if !IsNum(ch) then Err(c, InvalidVersion) else Goto(c.(minor := ch - 48), Req(ReqHttpMinor))
    case ReqHttpMinor =>
      if ch == CR then Goto(c, Req(ReqLineAlmostDone))
      else if ch == LF then Goto(c, Hdr(HeaderFieldStart))
      else InMinor(c, ch)
    case ReqLineAlmostDone =>
      if ch != LF then Err(c, LfExpected) else Goto(c, Hdr(HeaderFieldStart))
  }

  function InMajor(c: Core, ch: Byte, next: State): Out {
    if ch == '.' as int then Goto(c, next)
    else if !IsNum(ch) then Err(c, InvalidVersion)
    else
      var c1 := c.(major := c.major * 10 + (ch - 48));
      if c1.major > 999 then Err(c1, InvalidVersion) else Goto(c1, c.state)
  }

  function InMinor(c: Core, ch: Byte): Out {
    if !IsNum(ch) then Err(c, InvalidVersion)
    else
      var c1 := c.(minor := c.minor * 10 + (ch - 48));
      if c1.minor > 999 then Err(c1, InvalidVersion) else Goto(c1, c.state)
  }

  function InStatusCode(c: Core, ch: Byte): Out {
    if IsNum(ch) then
      var c1 := c.(statusCode := c.statusCode * 10 + (ch - 48));
      if c1.statusCode > 999 then Err(c1, InvalidStatus) else Goto(c1, Res(ResStatusCode))
    else if ch == SP then Goto(c, Res(ResStatusStart))
    else if ch == CR then Goto(c, Res(ResLineAlmostDone))
    else if ch == LF then Goto(c, Hdr(HeaderFieldStart))
    else Err(c, InvalidStatus)
  }

  function StepResponse(c: Core, ch: Byte): Out
    requires c.state.Res?
  {
    match c.state.res
    case Dead => if ch == CR || ch == LF then Goto(c, Res(Dead)) else Err(c, ClosedConnection)
    case StartReqOrRes =>
      if ch == CR || ch == LF then Goto(c, Res(StartReqOrRes))
      else if ch == 'H' as int then
        Out(Restart(c).(state := Res(ResOrRespH)), NoteOf(MessageBegin), Go, false)
      else StartRequest(Restart(c).(messageType := Request, state := Req(StartReq)), ch)
    case ResOrRespH =>
      if ch == 'T' as int then Goto(c.(messageType := Response), Res(ResHT))
      else if ch != 'E' as int then Err(c, InvalidConstant)
      else Goto(c.(messageType := Request, mthd := HEAD, index := 2), Req(ReqMethod))
    case StartRes =>
      if ch == 'H' as int then Out(Restart(c).(state := Res(ResH)), NoteOf(MessageBegin), Go, false)
      else if ch == CR || ch == LF then Out(Restart(c), NoteOf(MessageBegin), Go, false)
      else Err(Restart(c), InvalidConstant)
    case ResH => Expect(c, ch, 'T', Res(ResHT))
    case ResHT => Expect(c, ch, 'T', Res(ResHTT))
    case ResHTT => Expect(c, ch, 'P', Res(ResHTTP))
    case ResHTTP => Expect(c, ch, '/', Res(ResFirstHttpMajor))
    case ResFirstHttpMajor =>
      if !IsNum(ch) then Err(c, InvalidVersion) else Goto(c.(major := ch - 48), Res(ResHttpMajor))
    case ResHttpMajor => InMajor(c, ch, Res(ResFirstHttpMinor))
    case ResFirstHttpMinor =>
      if !IsNum(ch) then Err(c, InvalidVersion) else Goto(c.(minor := ch - 48), Res(ResHttpMinor))
    case ResHttpMinor =>
      if ch == SP then Goto(c, Res(ResFirstStatusCode)) else InMinor(c, ch)
    case ResFirstStatusCode =>
      if IsNum(ch) then Goto(c.(statusCode := ch - 48), Res(ResStatusCode))
      else if ch == SP then Goto(c, Res(ResFirstStatusCode))
      else Err(c, InvalidStatus)
    case ResStatusCode => InStatusCode(c, ch)
    case ResStatusStart =>
      if ch == CR then Goto(c, Res(ResLineAlmostDone))
      else if ch == LF then Goto(c, Hdr(HeaderFieldStart))
      else Out(c.(state := Res(ResStatus), index := 0), MarkOf(Status), Go, false)
    case ResStatus =>
      if ch == CR then Out(c.(state := Res(ResLineAlmostDone)), FlushOf(Status), Go, false)
      else if ch == LF then Out(c.(state := Hdr(HeaderFieldStart)), FlushOf(Status), Go, false)
      else Goto(c, Res(ResStatus))
    case ResLineAlmostDone =>
      if ch != LF then Err(c, Strict) else Goto(c, Hdr(HeaderFieldStart))
  }

  // ----- the machine -----

  function Step(hc: HeadersCallback, c: Core, ch: Byte): Out
    requires 0 <= c.index
  {
    match c.state
    case Res(_) => StepResponse(c, ch)
    case Req(_) => StepRequest(c, ch)
    case Uri(_) => StepUrl(c, ch)
    case Hdr(_) => StepHeader(hc, c, ch)
    case Msg(_) => StepBody(c, ch)
  }
}
