/** The fields of a URL: byte by byte, as the parser's states tell them, and from its text. */
module HttpUrlText {
  import opened Bytes
  import opened HttpTypes
  import opened HttpStep

  datatype Field = Schema | Host | Port | Path | Query | Fragment | Userinfo

  // ----- what each byte of a URL belongs to -----

  function UrlStart(isConnect: bool): State {
    if isConnect then Uri(ReqServerStart) else Req(ReqSpacesBeforeUrl)
  }

  /** The URL state after the first n bytes. */
  function UrlAfter(isConnect: bool, buf: seq<Byte>, n: nat): State
    requires n <= |buf|
  {
    if n == 0 then UrlStart(isConnect) else ParseUrlChar(UrlAfter(isConnect, buf, n - 1), buf[n - 1])
  }

  function FieldOf(s: State): Option<Field> {
    match s
    case Uri(ReqSchema) => Some(Schema)
    case Uri(ReqServer) => Some(Host)
    case Uri(ReqServerWithAt) => Some(Host)
    case Uri(ReqPath) => Some(Path)
    case Uri(ReqQueryString) => Some(Query)
    case Uri(ReqFragment) => Some(Fragment)
    case _ => None
  }

  /** The field that the outer splitter gives byte i to; the authority as a whole is Host. */
  function Part(isConnect: bool, buf: seq<Byte>, i: nat): Option<Field>
    requires i < |buf|
  {
    FieldOf(UrlAfter(isConnect, buf, i + 1))
  }

  /** The states of a URL in the order in which they can follow each other. */
  function UrlRank(s: State): nat {
    match s
    case Req(_) => 0
    case Uri(ReqSchema) => 1
    case Uri(ReqSchemaSlash) => 2
    case Uri(ReqSchemaSlashSlash) => 3
    case Uri(ReqServerStart) => 4
    case Uri(ReqServer) => 5
    case Uri(ReqServerWithAt) => 5
    case Uri(ReqPath) => 6
    case Uri(ReqQueryStringStart) => 7
    case Uri(ReqQueryString) => 8
    case Uri(ReqFragmentStart) => 9
    case Uri(ReqFragment) => 10
    case _ => 11
  }

  function FieldRank(f: Field): nat {
    match f case Schema => 1 case Host => 5 case Path => 6 case Query => 8 case Fragment => 10
    case Port => 12 case Userinfo => 13
  }

  lemma UrlCharRises(s: State, ch: Byte)
    requires s == Req(ReqSpacesBeforeUrl) || s.Uri? || s == Res(Dead)
    ensures var t := ParseUrlChar(s, ch);
            UrlRank(s) <= UrlRank(t) && (t.Uri? || t == Res(Dead))
  {
  }

  lemma PartRank(s: State)
    requires s == Req(ReqSpacesBeforeUrl) || s.Uri? || s == Res(Dead)
    ensures forall f :: FieldOf(s) == Some(f) <==> UrlRank(s) == FieldRank(f)
  {
  }

  lemma {:induction false} UrlRises(isConnect: bool, buf: seq<Byte>, m: nat, n: nat)
    requires m <= n <= |buf|
    ensures UrlRank(UrlAfter(isConnect, buf, m)) <= UrlRank(UrlAfter(isConnect, buf, n))
    ensures var s := UrlAfter(isConnect, buf, n);
            if n == 0 then s == UrlStart(isConnect) else s.Uri? || s == Res(Dead)
  {
    if n > 0 {
      UrlRises(isConnect, buf, if m < n then m else n - 1, n - 1);
      UrlCharRises(UrlAfter(isConnect, buf, n - 1), buf[n - 1]);
    }
  }

  // ----- the authority -----

  datatype HostState =
    | HostDead | UserinfoStart | UserinfoChars | HostStart | HostV6Start | HostChars | HostV6 | HostV6End
    | HostV6ZoneStart | HostV6Zone | HostPortStart | HostPort

  function ParseHostChar(s: HostState, ch: Byte): HostState {
    match s
    case UserinfoChars => UserinfoChar(ch)
    case UserinfoStart => UserinfoChar(ch)
    case HostStart =>
      if ch == '[' as int then HostV6Start else if IsHostChar(ch) then HostChars else HostDead
    case HostChars => if IsHostChar(ch) then HostChars else PortColon(ch)
    case HostV6End => PortColon(ch)
    case HostV6 =>
      if ch == ']' as int then HostV6End
      else if IsV6Char(ch) then HostV6
      else if ch == '%' as int then HostV6ZoneStart else HostDead
    case HostV6Start => if IsV6Char(ch) then HostV6 else HostDead
    case HostV6Zone => if ch == ']' as int then HostV6End else ZoneChar(ch)
    case HostV6ZoneStart => ZoneChar(ch)
    case HostPort => if IsNum(ch) then HostPort else HostDead
    case HostPortStart => if IsNum(ch) then HostPort else HostDead
    case HostDead => HostDead
  }

  function UserinfoChar(ch: Byte): HostState {
    if ch == '@' as int then HostStart else if IsUserinfoChar(ch) then UserinfoChars else HostDead
  }

  function PortColon(ch: Byte): HostState { if ch == ':' as int then HostPortStart else HostDead }

  predicate IsV6Char(ch: Byte) { IsHex(ch) || ch == ':' as int || ch == '.' as int }

  function ZoneChar(ch: Byte): HostState { if IsZoneChar(ch) then HostV6Zone else HostDead }

  predicate IsZoneChar(ch: Byte) {
    IsAlphaNum(ch) || ch == '%' as int || ch == '.' as int || ch == '-' as int || ch == '_' as int || ch == '~' as int
  }

  function AuthorityStart(foundAt: bool): HostState { if foundAt then UserinfoStart else HostStart }

  /** The host state after the first n bytes of an authority. */
  function HostAfter(foundAt: bool, auth: seq<Byte>, n: nat): HostState
    requires n <= |auth|
  {
    if n == 0 then AuthorityStart(foundAt) else ParseHostChar(HostAfter(foundAt, auth, n - 1), auth[n - 1])
  }

  function HostFieldOf(s: HostState): Option<Field> {
    match s
    case HostChars => Some(Host)
    case HostV6 => Some(Host)
    case HostV6ZoneStart => Some(Host)
    case HostV6Zone => Some(Host)
    case HostPort => Some(Port)
    case UserinfoChars => Some(Userinfo)
    case _ => None
  }

  /** The field that byte i of an authority belongs to. */
  function HostPart(foundAt: bool, auth: seq<Byte>, i: nat): Option<Field>
    requires i < |auth|
  {
    HostFieldOf(HostAfter(foundAt, auth, i + 1))
  }

  function HostRank(s: HostState): nat {
    match s
    case UserinfoStart => 0
    case UserinfoChars => 1
    case HostStart => 2
    case HostV6Start => 3
    case HostChars => 4
    case HostV6 => 4
    case HostV6ZoneStart => 5
    case HostV6Zone => 6
    case HostV6End => 7
    case HostPortStart => 8
    case HostPort => 9
    case HostDead => 10
  }

  lemma {:induction false} HostRises(foundAt: bool, auth: seq<Byte>, m: nat, n: nat)
    requires m <= n <= |auth|
    ensures HostRank(HostAfter(foundAt, auth, m)) <= HostRank(HostAfter(foundAt, auth, n))
  {
    if m < n {
      HostRises(foundAt, auth, m, n - 1);
    }
  }

  /** The states in which an authority may end. */
  predicate HostEnds(s: HostState) { s.HostChars? || s.HostV6End? || s.HostPort? }

  /** A complete authority has a host. */
  lemma {:induction false} HostPresent(foundAt: bool, auth: seq<Byte>, n: nat)
    requires n <= |auth|
    ensures HostRank(HostAfter(foundAt, auth, n)) in {4, 5, 6, 7, 8, 9} ==>
              exists i :: 0 <= i < n && HostPart(foundAt, auth, i) == Some(Host)
    ensures HostAfter(foundAt, auth, n).HostPort? ==> HostPart(foundAt, auth, n - 1) == Some(Port)
  {
    if n > 0 {
      HostPresent(foundAt, auth, n - 1);
      var s, t := HostAfter(foundAt, auth, n - 1), HostAfter(foundAt, auth, n);
      if 4 <= HostRank(t) <= 9 && !(4 <= HostRank(s) <= 9) {
        assert HostPart(foundAt, auth, n - 1) == Some(Host);
      }
    }
  }

  // ----- where the fields of a URL are, from its text -----

  /** The first place from m on with one of two bytes, or the end. */
  function Until(b: seq<Byte>, m: nat, x: char, y: char): (r: nat)
    requires m <= |b|
    ensures m <= r <= |b| && (r < |b| ==> b[r] == x as int || b[r] == y as int)
    ensures forall i :: m <= i < r ==> b[i] != x as int && b[i] != y as int
    decreases |b| - m
  {
    if m == |b| || b[m] == x as int || b[m] == y as int then m else Until(b, m + 1, x, y)
  }

  /** The first place from m on with another byte, or the end. */
  function Past(b: seq<Byte>, m: nat, x: char): (r: nat)
    requires m <= |b|
    ensures m <= r <= |b| && (r < |b| ==> b[r] != x as int)
    ensures forall i :: m <= i < r ==> b[i] == x as int
    decreases |b| - m
  {
    if m == |b| || b[m] != x as int then m else Past(b, m + 1, x)
  }

  function Least(a: nat, b: nat): nat { if a < b then a else b }

  /** A URL: schema [..schema), authority [host..path), path [path..query), query [query + 1..mark), fragment [fragment..). */
  datatype Layout = Layout(schema: nat, host: nat, path: nat, query: nat, mark: nat, fragment: nat)

  predicate PathFirst(buf: seq<Byte>) {
    buf != [] && (buf[0] == '/' as int || buf[0] == '*' as int)
  }

  /** The schema runs to the first ':'; the authority, behind "://", to the first '/' or '?' behind that; the path to
      the first '?' or '#'; the query to the first '#'; and the fragment is what follows that and any '#' right behind
      it.  Without a schema the URL begins with its path, and that of a CONNECT with its authority. */
  function LayoutOf(isConnect: bool, buf: seq<Byte>): (l: Layout)
    ensures l.schema <= l.host <= l.path <= l.query <= l.mark <= l.fragment <= |buf|
  {
    var n := |buf|;
    var schema := if isConnect || PathFirst(buf) then 0 else Until(buf, 0, ':', ':');
    var host := if schema == 0 then 0 else Least(schema + 3, n);
    var path := if isConnect || schema > 0 then Until(buf, host, '/', '?') else host;
    var query := Until(buf, path, '?', '#');
    var mark := Until(buf, query, '#', '#');
    Layout(schema, host, path, query, mark, Past(buf, mark, '#'))
  }

  /** The field that byte i belongs to; the authority as a whole is Host. */
  function OuterLabel(l: Layout, i: nat): Option<Field> {
    if i < l.schema then Some(Schema)
    else if l.host <= i < l.path then Some(Host)
    else if l.path <= i < l.query then Some(Path)
    else if l.query < i < l.mark then Some(Query)
    else if l.fragment <= i then Some(Fragment)
    else None
  }

  /** Whether byte i can stand where it stands. */
  predicate OuterOk(isConnect: bool, buf: seq<Byte>, l: Layout, i: nat)
    requires i < |buf|
  {
    var c := buf[i];
    && (i == 0 && !isConnect ==> PathFirst(buf) || IsAlpha(c))
    && (i < l.schema ==> IsAlpha(c))
    && (l.schema < i < l.host ==> c == '/' as int)
    && (l.host <= i < l.path ==>
          && (IsUserinfoChar(c) || c == '@' as int || c == '[' as int || c == ']' as int)
          && (c == '@' as int && l.host < i ==> buf[i - 1] != '@' as int))
    && (l.path <= i < l.query ==> IsUrlChar(c))
    && (l.query < i < l.mark ==> IsUrlChar(c) || c == '?' as int)
    && (l.fragment <= i ==> IsUrlChar(c) || c == '?' as int || c == '#' as int)
  }

  /** The state behind the first i bytes, if they are all right. */
  function OuterState(isConnect: bool, buf: seq<Byte>, l: Layout, i: nat): State
    requires i <= |buf|
  {
    if i == 0 then UrlStart(isConnect)
    else if i <= l.schema then Uri(ReqSchema)
    else if i <= l.host then
      Uri(if i == l.schema + 1 then ReqSchemaSlash else if i == l.schema + 2 then ReqSchemaSlashSlash else ReqServerStart)
    else if i <= l.path then Uri(if buf[i - 1] == '@' as int then ReqServerWithAt else ReqServer)
    else if i <= l.query then Uri(ReqPath)
    else if i <= l.mark then Uri(if i == l.query + 1 then ReqQueryStringStart else ReqQueryString)
    else if i <= l.fragment then Uri(ReqFragmentStart)
    else Uri(ReqFragment)
  }

  /** How one byte goes on from the state that the text tells. */
  ghost predicate OuterGoesOn(isConnect: bool, buf: seq<Byte>, i: nat)
    requires i < |buf|
  {
    var l := LayoutOf(isConnect, buf);
    ParseUrlChar(OuterState(isConnect, buf, l, i), buf[i]) ==
    if OuterOk(isConnect, buf, l, i) then OuterState(isConnect, buf, l, i + 1) else Res(Dead)
  }

  lemma FrontStep(isConnect: bool, buf: seq<Byte>, i: nat)
    requires i < |buf| && i <= LayoutOf(isConnect, buf).path
    requires i > 0 ==> OuterOk(isConnect, buf, LayoutOf(isConnect, buf), 0)
    ensures OuterGoesOn(isConnect, buf, i)
  {
  }

  lemma RestStep(isConnect: bool, buf: seq<Byte>, i: nat)
    requires LayoutOf(isConnect, buf).path < i < |buf|
    ensures OuterGoesOn(isConnect, buf, i)
  {
  }

  /** The first n bytes are all right. */
  ghost predicate OuterAllOk(isConnect: bool, buf: seq<Byte>, n: nat)
    requires n <= |buf|
  {
    forall i :: 0 <= i < n ==> OuterOk(isConnect, buf, LayoutOf(isConnect, buf), i)
  }

  /** The states of the parser follow the text, up to the first byte that cannot stand where it stands. */
  lemma {:induction false} StatesFollowText(isConnect: bool, buf: seq<Byte>, n: nat)
    requires n <= |buf|
    ensures UrlAfter(isConnect, buf, n) ==
            if OuterAllOk(isConnect, buf, n) then OuterState(isConnect, buf, LayoutOf(isConnect, buf), n) else Res(Dead)
  {
    hide ParseUrlChar, LayoutOf, OuterOk, OuterState;
    if n > 0 {
      StatesFollowText(isConnect, buf, n - 1);
      if OuterAllOk(isConnect, buf, n - 1) {
        if n - 1 <= LayoutOf(isConnect, buf).path { FrontStep(isConnect, buf, n - 1); } else { RestStep(isConnect, buf, n - 1); }
      } else {
        DeadNext(buf[n - 1]);
      }
    } else {
      assert OuterState(isConnect, buf, LayoutOf(isConnect, buf), 0) == UrlStart(isConnect) by { AtStart(isConnect, buf); }
    }
  }

  lemma AtStart(isConnect: bool, buf: seq<Byte>)
    ensures OuterState(isConnect, buf, LayoutOf(isConnect, buf), 0) == UrlStart(isConnect)
  {
  }

  lemma DeadNext(ch: Byte)
    ensures ParseUrlChar(Res(Dead), ch) == Res(Dead)
  {
  }

  /** A URL survives exactly if every byte can stand where it stands, and then each byte has the field of its place. */
  lemma OuterByText(isConnect: bool, buf: seq<Byte>)
    ensures UrlAfter(isConnect, buf, |buf|) != Res(Dead) <==> OuterAllOk(isConnect, buf, |buf|)
    ensures OuterAllOk(isConnect, buf, |buf|) ==>
              forall i :: 0 <= i < |buf| ==> Part(isConnect, buf, i) == OuterLabel(LayoutOf(isConnect, buf), i)
  {
    hide ParseUrlChar, LayoutOf, OuterOk, OuterState, UrlAfter;
    StatesFollowText(isConnect, buf, |buf|);
    NeverDead(isConnect, buf, LayoutOf(isConnect, buf), |buf|);
    if OuterAllOk(isConnect, buf, |buf|) {
      forall i | 0 <= i < |buf| ensures Part(isConnect, buf, i) == OuterLabel(LayoutOf(isConnect, buf), i) {
        StatesFollowText(isConnect, buf, i + 1);
        StateLabel(isConnect, buf, i);
      }
    }
  }

  lemma NeverDead(isConnect: bool, buf: seq<Byte>, l: Layout, i: nat)
    requires i <= |buf|
    ensures OuterState(isConnect, buf, l, i) != Res(Dead)
  {
  }

  lemma StateLabel(isConnect: bool, buf: seq<Byte>, i: nat)
    requires i < |buf|
    ensures var l := LayoutOf(isConnect, buf); FieldOf(OuterState(isConnect, buf, l, i + 1)) == OuterLabel(l, i)
  {
  }

  // ----- where the fields of an authority are, from its text -----

  /** An authority: user info [..info), host [host..end), port [port..); the zone of an IPv6 address begins at zone, and
      the ':' in front of the port stands at colon. */
  datatype Inside = Inside(info: nat, bracket: bool, host: nat, zone: nat, end: nat, colon: nat, port: nat)

  /** The user info runs to the first '@'.  The host begins behind that; if it is in brackets it runs to the first ']',
      and otherwise to the first ':'.  The port is what follows the ':'. */
  function InsideOf(foundAt: bool, auth: seq<Byte>): (l: Inside)
    ensures l.info <= l.host <= l.zone <= l.end <= l.colon <= l.port <= |auth|
  {
    var n := |auth|;
    var info := if foundAt then Until(auth, 0, '@', '@') else 0;
    var begin := if foundAt then Least(info + 1, n) else 0;
    var bracket := begin < n && auth[begin] == '[' as int;
    var host := if bracket then begin + 1 else begin;
    var end := if bracket then Until(auth, host, ']', ']') else Until(auth, host, ':', ':');
    var zone := if bracket then Least(Until(auth, host, '%', '%'), end) else end;
    var colon := if bracket then Least(end + 1, n) else end;
    Inside(info, bracket, host, zone, end, colon, Least(colon + 1, n))
  }

  function InnerLabel(l: Inside, i: nat): Option<Field> {
    if i < l.info then Some(Userinfo)
    else if l.host <= i < l.end then Some(Host)
    else if l.port <= i then Some(Port)
    else None
  }

  predicate InnerOk(foundAt: bool, auth: seq<Byte>, l: Inside, i: nat)
    requires i < |auth|
  {
    var c := auth[i];
    && (i < l.info ==> IsUserinfoChar(c))
    && (l.host <= i < l.zone ==> if l.bracket then IsV6Char(c) else IsHostChar(c))
    && (i == l.zone < l.end ==> l.host < l.zone)
    && (l.zone < i < l.end ==> IsZoneChar(c))
    && (i == l.end ==> l.host < l.end && (l.bracket ==> l.zone != l.end - 1))
    && (i == l.colon ==> c == ':' as int)
    && (l.port <= i ==> IsNum(c))
  }

  function InnerState(foundAt: bool, auth: seq<Byte>, l: Inside, i: nat): HostState
    requires i <= |auth|
  {
    if i == 0 then AuthorityStart(foundAt)
    else if foundAt && i <= l.info then UserinfoChars
    else if foundAt && i == l.info + 1 then HostStart
    else if l.bracket && i == l.host then HostV6Start
    else if i <= l.zone then (if l.bracket then HostV6 else HostChars)
    else if i <= l.end then (if i == l.zone + 1 then HostV6ZoneStart else HostV6Zone)
    else if l.bracket && i == l.end + 1 then HostV6End
    else if i == l.colon + 1 then HostPortStart
    else HostPort
  }

  ghost predicate InnerGoesOn(foundAt: bool, auth: seq<Byte>, i: nat)
    requires i < |auth|
  {
    var l := InsideOf(foundAt, auth);
    ParseHostChar(InnerState(foundAt, auth, l, i), auth[i]) ==
    if InnerOk(foundAt, auth, l, i) then InnerState(foundAt, auth, l, i + 1) else HostDead
  }

  lemma HostStep(foundAt: bool, auth: seq<Byte>, i: nat)
    requires i < |auth|
    ensures InnerGoesOn(foundAt, auth, i)
  {
  }

  ghost predicate InnerAllOk(foundAt: bool, auth: seq<Byte>, n: nat)
    requires n <= |auth|
  {
    forall i :: 0 <= i < n ==> InnerOk(foundAt, auth, InsideOf(foundAt, auth), i)
  }

  lemma {:induction false} HostStatesFollowText(foundAt: bool, auth: seq<Byte>, n: nat)
    requires n <= |auth|
    ensures HostAfter(foundAt, auth, n) ==
            if InnerAllOk(foundAt, auth, n) then InnerState(foundAt, auth, InsideOf(foundAt, auth), n) else HostDead
  {
    hide ParseHostChar, InsideOf, InnerOk;
    if n > 0 {
      HostStatesFollowText(foundAt, auth, n - 1);
      if InnerAllOk(foundAt, auth, n - 1) { HostStep(foundAt, auth, n - 1); } else { HostDeadNext(auth[n - 1]); }
    }
  }

  lemma HostDeadNext(ch: Byte)
    ensures ParseHostChar(HostDead, ch) == HostDead
  {
  }

  /** The authority is complete: a host, with both brackets or none, and a port if there is a ':' for it. */
  predicate Complete(foundAt: bool, auth: seq<Byte>) {
    var l := InsideOf(foundAt, auth);
    && l.host < l.end && (l.bracket ==> l.end < |auth| && l.zone != l.end - 1) && (l.colon < |auth| ==> l.port < |auth|)
  }

  /** An authority is accepted exactly if every byte can stand where it stands and it is complete, and then each byte
      has the field of its place. */
  lemma InnerByText(foundAt: bool, auth: seq<Byte>)
    ensures HostEnds(HostAfter(foundAt, auth, |auth|)) <==> InnerAllOk(foundAt, auth, |auth|) && Complete(foundAt, auth)
    ensures InnerAllOk(foundAt, auth, |auth|) ==>
              forall i :: 0 <= i < |auth| ==> HostPart(foundAt, auth, i) == InnerLabel(InsideOf(foundAt, auth), i)
  {
    hide ParseHostChar, InsideOf, InnerOk, InnerState, HostAfter, HostFieldOf;
    HostStatesFollowText(foundAt, auth, |auth|);
    if InnerAllOk(foundAt, auth, |auth|) { EndState(foundAt, auth); }
    if InnerAllOk(foundAt, auth, |auth|) {
      forall i | 0 <= i < |auth| ensures HostPart(foundAt, auth, i) == InnerLabel(InsideOf(foundAt, auth), i) {
        HostStatesFollowText(foundAt, auth, i + 1);
        InnerStateLabel(foundAt, auth, i);
      }
    }
  }

  lemma EndState(foundAt: bool, auth: seq<Byte>)
    requires InnerAllOk(foundAt, auth, |auth|)
    ensures HostEnds(InnerState(foundAt, auth, InsideOf(foundAt, auth), |auth|)) <==> Complete(foundAt, auth)
  {
    var l := InsideOf(foundAt, auth);
    assert l.end < |auth| ==> InnerOk(foundAt, auth, l, l.end);
  }

  lemma InnerStateLabel(foundAt: bool, auth: seq<Byte>, i: nat)
    requires i < |auth| && InnerOk(foundAt, auth, InsideOf(foundAt, auth), i)
    ensures var l := InsideOf(foundAt, auth); HostFieldOf(InnerState(foundAt, auth, l, i + 1)) == InnerLabel(l, i)
  {
  }
}
