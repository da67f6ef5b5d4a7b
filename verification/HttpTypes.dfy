/** Data model of the HTTP/1.x push parser: parser fields, character classes, callbacks. */
module HttpTypes {

  import opened Bytes

  const CR: Byte := 13
  const LF: Byte := 10
  const SP: Byte := 32
  const TAB: Byte := 9

  /** ULLONG_MAX, the "no Content-Length seen" marker of the content_length field. */
  const NO_LENGTH: int := 0xffff_ffff_ffff_ffff

  const HTTP_MAX_HEADER_SIZE: int := 80 * 1024

  datatype MessageType = Request | Response | Both

  /** enum state, grouped by the part of the message that is being read. */
  datatype State =
    | Res(res: ResponseState) | Req(req: RequestState) | Uri(uri: UriState)
    | Hdr(hdr: HeaderLineState) | Msg(msg: BodyState)

  datatype ResponseState =
    | Dead
    | StartReqOrRes | ResOrRespH
    | StartRes | ResH | ResHT | ResHTT | ResHTTP
    | ResFirstHttpMajor | ResHttpMajor | ResFirstHttpMinor | ResHttpMinor
    | ResFirstStatusCode | ResStatusCode | ResStatusStart | ResStatus | ResLineAlmostDone

  datatype RequestState =
    | StartReq | ReqMethod | ReqSpacesBeforeUrl
    | ReqHttpStart | ReqHttpH | ReqHttpHT | ReqHttpHTT | ReqHttpHTTP
    | ReqFirstHttpMajor | ReqHttpMajor | ReqFirstHttpMinor | ReqHttpMinor | ReqLineAlmostDone

  datatype UriState =
    | ReqSchema | ReqSchemaSlash | ReqSchemaSlashSlash
    | ReqServerStart | ReqServer | ReqServerWithAt
    | ReqPath | ReqQueryStringStart | ReqQueryString | ReqFragmentStart | ReqFragment

  datatype HeaderLineState =
    | HeaderFieldStart | HeaderField
    | HeaderValueDiscardWs | HeaderValueDiscardWsAlmostDone | HeaderValueDiscardLws
    | HeaderValueStart | HeaderValue | HeaderValueLws | HeaderAlmostDone
    | HeadersAlmostDone

  datatype BodyState =
    | ChunkSizeStart | ChunkSize | ChunkParameters | ChunkSizeAlmostDone
    | HeadersDone
    | ChunkData | ChunkDataAlmostDone | ChunkDataDone
    | BodyIdentity | BodyIdentityEof
    | MessageDone

  /** PARSING_HEADER: the states up to s_headers_done. */
  predicate ParsingHeader(s: State) {
    s.Msg? ==> s.msg.ChunkSizeStart? || s.msg.ChunkSize? || s.msg.ChunkParameters? ||
               s.msg.ChunkSizeAlmostDone? || s.msg.HeadersDone?
  }

  datatype HeaderState =
    | General | C | CO | CON
    | MatchingConnection | MatchingProxyConnection | MatchingContentLength
    | MatchingTransferEncoding | MatchingUpgrade
    | Connection | ContentLength | TransferEncoding | Upgrade
    | MatchingTransferEncodingChunked
    | MatchingConnectionTokenStart | MatchingConnectionKeepAlive
    | MatchingConnectionClose | MatchingConnectionUpgrade | MatchingConnectionToken
    | TransferEncodingChunked | ConnectionKeepAlive | ConnectionClose | ConnectionUpgrade

  datatype Method =
    | DELETE | GET | HEAD | POST | PUT | CONNECT | OPTIONS | TRACE
    | COPY | LOCK | MKCOL | MOVE | PROPFIND | PROPPATCH | SEARCH | UNLOCK
    | BIND | REBIND | UNBIND | ACL
    | REPORT | MKACTIVITY | CHECKOUT | MERGE
    | MSEARCH | NOTIFY | SUBSCRIBE | UNSUBSCRIBE
    | PATCH | PURGE | MKCALENDAR

  function MethodString(m: Method): string {
    match m
    case DELETE => "DELETE" case GET => "GET" case HEAD => "HEAD" case POST => "POST"
    case PUT => "PUT" case CONNECT => "CONNECT" case OPTIONS => "OPTIONS" case TRACE => "TRACE"
    case COPY => "COPY" case LOCK => "LOCK" case MKCOL => "MKCOL" case MOVE => "MOVE"
    case PROPFIND => "PROPFIND" case PROPPATCH => "PROPPATCH" case SEARCH => "SEARCH"
    case UNLOCK => "UNLOCK" case BIND => "BIND" case REBIND => "REBIND" case UNBIND => "UNBIND"
    case ACL => "ACL" case REPORT => "REPORT" case MKACTIVITY => "MKACTIVITY"
    case CHECKOUT => "CHECKOUT" case MERGE => "MERGE" case MSEARCH => "M-SEARCH"
    case NOTIFY => "NOTIFY" case SUBSCRIBE => "SUBSCRIBE" case UNSUBSCRIBE => "UNSUBSCRIBE"
    case PATCH => "PATCH" case PURGE => "PURGE" case MKCALENDAR => "MKCALENDAR"
  }

  datatype Errno =
    | OK | CbHeadersComplete | InvalidEofState | HeaderOverflow | ClosedConnection
    | InvalidVersion | InvalidStatus | InvalidMethod | InvalidUrl | LfExpected
    | InvalidHeaderToken | InvalidContentLength | InvalidChunkSize | InvalidConstant | Strict

  datatype Flags = Flags(chunked: bool, keepAlive: bool, close: bool, connUpgrade: bool,
                         trailing: bool, upgrade: bool, skipBody: bool)

  const NO_FLAGS := Flags(false, false, false, false, false, false, false)

  /** The fields of struct http_parser, except nread and the user's data pointer. */
  datatype Core = Core(
    messageType: MessageType, flags: Flags, state: State, headerState: HeaderState, index: int,
    contentLength: int, major: int, minor: int, statusCode: int, mthd: Method,
    errno: Errno, upgrade: bool)

  /** What http_parser_init leaves behind. */
  function InitCore(t: MessageType): Core {
    Core(t, NO_FLAGS,
         match t case Request => Req(StartReq) case Response => Res(StartRes) case Both => Res(StartReqOrRes),
         General, 0, 0, 0, 0, 0, DELETE, OK, false)
  }

  // ----- callbacks -----

  /** The five kinds of data callback, each with its own mark. */
  datatype Kind = HField | HValue | Url | Body | Status

  /** What the user's callbacks see.  A headers_complete callback can read the whole parser and
      a chunk_header callback finds the chunk length in content_length. */
  datatype Event =
    | Data(kind: Kind, bytes: seq<Byte>)
    | MessageBegin
    | HeadersComplete(parser: Core)
    | ChunkHeader(length: int)
    | ChunkComplete
    | MessageComplete

  /** The return value of the on_headers_complete callback as a function of what it can read. */
  type HeadersCallback = Core -> int

  /** Append a callback to a trace, joining it to the previous one when both carry data of the
      same kind: a data callback may run many times for one string. */
  function Push(trace: seq<Event>, e: Event): seq<Event> {
    if e.Data? && |trace| > 0 && trace[|trace| - 1].Data? && trace[|trace| - 1].kind == e.kind
    then trace[..|trace| - 1] + [Data(e.kind, trace[|trace| - 1].bytes + e.bytes)]
    else trace + [e]
  }

  // ----- character classes, strict build -----

  /** c | 0x20 */
  function Lower(c: Byte): Byte {
    if (c / 32) % 2 == 0 then c + 32 else c
  }

  predicate IsAlpha(c: Byte) { 'a' as int <= Lower(c) <= 'z' as int }
  predicate IsNum(c: Byte) { '0' as int <= c <= '9' as int }
  predicate IsAlphaNum(c: Byte) { IsAlpha(c) || IsNum(c) }
  predicate IsHex(c: Byte) { IsNum(c) || 'a' as int <= Lower(c) <= 'f' as int }

  predicate IsMark(c: Byte) {
    c == '-' as int || c == '_' as int || c == '.' as int || c == '!' as int || c == '~' as int ||
    c == '*' as int || c == '\'' as int || c == '(' as int || c == ')' as int
  }

  predicate IsUserinfoChar(c: Byte) {
    IsAlphaNum(c) || IsMark(c) || c == '%' as int || c == ';' as int || c == ':' as int ||
    c == '&' as int || c == '=' as int || c == '+' as int || c == '$' as int || c == ',' as int
  }

  predicate IsHostChar(c: Byte) { IsAlphaNum(c) || c == '.' as int || c == '-' as int }

  /** normal_url_char: the printable characters except '#' and '?'. */
  predicate IsUrlChar(c: Byte) { 33 <= c <= 126 && c != '#' as int && c != '?' as int }

  /** The tokens table: the lower-cased character, or 0 for a non-token. */
  function Token(c: Byte): Byte {
    if 65 <= c <= 90 then c + 32
    else if 97 <= c <= 122 || IsNum(c) || c == '!' as int || 35 <= c <= 39 ||
            c == '*' as int || c == '+' as int || c == '-' as int || c == '.' as int ||
            94 <= c <= 96 || c == '|' as int || c == '~' as int
    then c
    else 0
  }

  /** The unhex table: the value of a hex digit, or -1. */
  function Unhex(c: Byte): int {
    if IsNum(c) then c - 48
    else if 65 <= c <= 70 then c - 55
    else if 97 <= c <= 102 then c - 87
    else -1
  }
}
