/** First lines: the version and status numbers, and the request line and the status line as a whole. */
module HttpFirst {
  import opened Bytes
  import opened HttpTypes
  import opened HttpStep
  import opened HttpRun
  import opened HttpFeed
  import opened HttpMatchers
  import opened HttpSplit
  import opened HttpBody
  import opened HttpLength
  import opened HttpUrlText

  // ----- numbers -----

  /** The three numbers of first lines: http_major, http_minor and status_code. */
  datatype Number = Major | Minor | Code

  /** The state in front of the first digit of the number. */
  predicate Before(s: State, k: Number) {
    match k
    case Major => s == Req(ReqFirstHttpMajor) || s == Res(ResFirstHttpMajor)
    case Minor => s == Req(ReqFirstHttpMinor) || s == Res(ResFirstHttpMinor)
    case Code => s == Res(ResFirstStatusCode)
  }

  predicate Within(s: State, k: Number) {
    match k
    case Major => s == Req(ReqHttpMajor) || s == Res(ResHttpMajor)
    case Minor => s == Req(ReqHttpMinor) || s == Res(ResHttpMinor)
    case Code => s == Res(ResStatusCode)
  }

  /** The state behind the first digit. */
  function AfterDigit(request: bool, k: Number): State {
    match k
    case Major => if request then Req(ReqHttpMajor) else Res(ResHttpMajor)
    case Minor => if request then Req(ReqHttpMinor) else Res(ResHttpMinor)
    case Code => Res(ResStatusCode)
  }

  function Get(c: Core, k: Number): int {
    match k case Major => c.major case Minor => c.minor case Code => c.statusCode
  }

  function Set(c: Core, k: Number, v: int): Core {
    match k case Major => c.(major := v) case Minor => c.(minor := v) case Code => c.(statusCode := v)
  }

  function Refusal(k: Number): Errno {
    if k.Code? then InvalidStatus else InvalidVersion
  }

  predicate IsDigits(text: seq<Byte>) { forall i :: 0 <= i < |text| ==> IsNum(text[i]) }

  /** A byte that is accepted without any call */
  lemma Silent(hc: HeadersCallback, s: Sys, ch: Byte, c: Core)
    requires Live(s) && s.obs.pending.Idle? && Step(hc, s.core, ch) == Out(c, QUIET, Go, false)
    ensures StepSys(hc, s, ch) == s.(core := c, used := s.used + 1) && Live(StepSys(hc, s, ch))
    ensures Feed(hc, s, [ch]) == s.(core := c, used := s.used + 1)
  {
    hide Step, Inv, MarkFits;
    assert [ch][1..] == [];
  }

  lemma Refused(hc: HeadersCallback, s: Sys, ch: Byte, c: Core)
    requires Live(s) && s.obs.pending.Idle? && Step(hc, s.core, ch) == Out(c, QUIET, Fail, false)
    ensures StepSys(hc, s, ch) == s.(core := c, halted := true)
  {
    hide Step, Inv, MarkFits;
  }

  lemma NoMarkYet(s: Sys)
    requires Live(s) && (exists k :: Before(s.core.state, k) || Within(s.core.state, k))
    ensures s.obs.pending.Idle? && s.core.index >= 0 && 0 <= s.core.major && 0 <= s.core.minor && 0 <= s.core.statusCode
  {
  }

  lemma FirstOfNumber(hc: HeadersCallback, s: Sys, k: Number, d: Byte)
    requires Live(s) && Before(s.core.state, k) && IsNum(d)
    ensures var c := Set(s.core.(state := AfterDigit(s.core.state.Req?, k)), k, d - 48);
            if s.core.state == Req(ReqFirstHttpMajor) && d == '0' as int
            then StepSys(hc, s, d).halted && StepSys(hc, s, d).core.errno == InvalidVersion
            else StepSys(hc, s, d) == s.(core := c, used := s.used + 1) && Live(StepSys(hc, s, d)) && Within(c.state, k)
  {
    NoMarkYet(s);
    var c := Set(s.core.(state := AfterDigit(s.core.state.Req?, k)), k, d - 48);
    if s.core.state == Req(ReqFirstHttpMajor) && d == '0' as int {
      Refused(hc, s, d, s.core.(errno := InvalidVersion));
    } else {
      Silent(hc, s, d, c);
    }
  }

  lemma NextOfNumber(hc: HeadersCallback, s: Sys, k: Number, d: Byte)
    requires Live(s) && Within(s.core.state, k) && IsNum(d)
    ensures var v := Get(s.core, k) * 10 + (d - 48);
            && v >= 0
            && if v > 999 then StepSys(hc, s, d).halted && StepSys(hc, s, d).core.errno == Refusal(k)
               else StepSys(hc, s, d) == s.(core := Set(s.core, k, v), used := s.used + 1) && Live(StepSys(hc, s, d))
  {
    NoMarkYet(s);
    var v := Get(s.core, k) * 10 + (d - 48);
    if v > 999 {
      Refused(hc, s, d, Set(s.core, k, v).(errno := Refusal(k)));
    } else {
      Silent(hc, s, d, Set(s.core, k, v));
    }
  }

  lemma {:induction false} RestOfNumber(hc: HeadersCallback, s: Sys, k: Number, text: seq<Byte>)
    requires Live(s) && Within(s.core.state, k) && IsDigits(text) && 0 <= Get(s.core, k) <= 999
    ensures var r, v := Feed(hc, s, text), DecValue(Get(s.core, k), text);
            if v > 999 then r.halted && r.core.errno == Refusal(k)
            else r == s.(core := Set(s.core, k, v), used := s.used + |text|)
    decreases |text|
  {
    hide StepSys, Inv, MarkFits;
    if text != [] {
      NextOfNumber(hc, s, k, text[0]);
      var t := StepSys(hc, s, text[0]);
      assert Feed(hc, s, text) == Feed(hc, t, text[1..]);
      if !t.halted { RestOfNumber(hc, t, k, text[1..]); }
    }
  }

  /** A version or status number is the decimal value of all its digits.  It is refused exactly if that is above 999, or,
      for the major version of a request, if the number begins with a zero. */
  lemma NumberExact(hc: HeadersCallback, s: Sys, k: Number, text: seq<Byte>)
    requires Live(s) && Before(s.core.state, k) && text != [] && IsDigits(text)
    ensures var r, v := Feed(hc, s, text), DecValue(0, text);
            if v > 999 || (s.core.state == Req(ReqFirstHttpMajor) && text[0] == '0' as int)
            then r.halted && r.core.errno == Refusal(k)
            else r == s.(core := Set(s.core.(state := AfterDigit(s.core.state.Req?, k)), k, v), used := s.used + |text|)
  {
    hide StepSys, Inv, MarkFits;
    FirstOfNumber(hc, s, k, text[0]);
    var t := StepSys(hc, s, text[0]);
    assert Feed(hc, s, text) == Feed(hc, t, text[1..]);
    if !t.halted { RestOfNumber(hc, t, k, text[1..]); }
  }

  // ----- the method and the URL of a request -----

  /** A method word that is accepted so far has changed nothing but the method. */
  lemma {:induction false} WordKeeps(hc: HeadersCallback, s: Sys, w: seq<Byte>)
    requires Live(s) && s.core.state == Req(StartReq) && w != [] && SP !in w && w[0] != CR && w[0] != LF
    ensures var t := Feed(hc, s, w);
            !t.halted ==> t == Sys(Restart(s.core).(mthd := t.core.mthd, index := |w|, state := Req(ReqMethod)),
                                   Obs(Push(s.obs.trace, MessageBegin), Idle), false, s.used + |w|)
    decreases |w|
  {
    hide StepSys, Inv, MarkFits;
    var n := |w| - 1;
    var init, last := w[..n], w[n];
    assert w == init + [last];
    FeedAppend(hc, s, init, [last]);
    if init == [] {
      assert w == [last];
      One(hc, s, last);
      WordFirst(hc, s, last);
    } else {
      WordKeeps(hc, s, init);
      var t := Feed(hc, s, init);
      if !t.halted {
        One(hc, t, last);
        WordByte(hc, t, last);
      }
    }
  }

  lemma WordFirst(hc: HeadersCallback, s: Sys, ch: Byte)
    requires Live(s) && s.core.state == Req(StartReq) && ch != CR && ch != LF
    ensures var t := StepSys(hc, s, ch);
            !t.halted ==> t == Sys(Restart(s.core).(mthd := t.core.mthd, index := 1, state := Req(ReqMethod)),
                                   Obs(Push(s.obs.trace, MessageBegin), Idle), false, s.used + 1)
  {
    NothingOpen(s);
    assert s.core.index >= 0;
    assert StepRequest(s.core, ch) == StartRequest(s.core, ch);
    hide StepRequest, Inv, FirstMethod, StartsMethod, MarkFits;
    OneNote(s.obs.trace, MessageBegin);
  }

  lemma OneNote(t: seq<Event>, e: Event)
    ensures PushAll(t, [e]) == Push(t, e)
  {
    assert [e][1..] == [];
  }

  lemma WordByte(hc: HeadersCallback, s: Sys, ch: Byte)
    requires Live(s) && s.core.state == Req(ReqMethod) && ch != SP
    ensures var t := StepSys(hc, s, ch);
            !t.halted ==> t == s.(core := s.core.(mthd := t.core.mthd, index := s.core.index + 1), used := s.used + 1)
  {
    NothingOpen(s);
    assert s.core.index >= 0;
    assert StepRequest(s.core, ch) == InMethod(s.core, ch);
    hide StepRequest, Inv, SwitchMethod, MethodString, MarkFits;
  }

  predicate IsWord(m: Method, w: seq<Byte>) {
    |w| == |MethodString(m)| && Spells(w, MethodString(m), |w|)
  }

  /** The name of a method and a space */
  lemma MethodRead(hc: HeadersCallback, s: Sys, m: Method, w: seq<Byte>)
    requires Live(s) && s.core.state == Req(StartReq) && IsWord(m, w)
    ensures var r := Feed(hc, s, w + [SP]);
            r == Sys(Restart(s.core).(mthd := m, index := |w| + 1, state := Req(ReqSpacesBeforeUrl)),
                     Obs(Push(s.obs.trace, MessageBegin), Idle), false, s.used + |w| + 1)
  {
    hide StepSys, Inv, MarkFits;
    WordPlain(m, w);
    MethodExact(hc, s, w, m);
    WordKeeps(hc, s, w);
    FeedAppend(hc, s, w, [SP]);
    var t := Feed(hc, s, w);
    if !t.halted {
      One(hc, t, SP);
      WordSpace(hc, t);
    }
  }

  lemma BeginsWithLetter(m: Method)
    ensures MethodString(m) != [] && MethodString(m)[0] as int != CR && MethodString(m)[0] as int != LF
  {
  }

  lemma WordPlain(m: Method, w: seq<Byte>)
    requires IsWord(m, w)
    ensures w != [] && SP !in w && w[0] != CR && w[0] != LF
  {
    hide MethodString;
    BeginsWithLetter(m);
    forall i | 0 <= i < |w| ensures w[i] != SP { MethodText(m, i); }
  }

  lemma WordSpace(hc: HeadersCallback, s: Sys)
    requires Live(s) && s.core.state == Req(ReqMethod)
    ensures var t := StepSys(hc, s, SP);
            !t.halted ==> t == s.(core := s.core.(state := t.core.state, mthd := t.core.mthd, index := s.core.index + 1),
                                  used := s.used + 1)
  {
    NothingOpen(s);
    assert s.core.index >= 0;
    assert StepRequest(s.core, SP) == InMethod(s.core, SP);
    hide StepRequest, Inv, SwitchMethod, MethodString, MarkFits;
  }

  /** A URL that a request line can have: every byte can stand where it stands, and it does not end before the host. */
  ghost predicate RequestUrl(m: Method, url: seq<Byte>) {
    && url != [] && OuterAllOk(m.CONNECT?, url, |url|) && LayoutOf(m.CONNECT?, url).host < |url|
  }

  lemma {:induction false} UrlRead(hc: HeadersCallback, s: Sys, url: seq<Byte>, n: nat)
    requires Live(s) && s.core.state == Req(ReqSpacesBeforeUrl) && 0 < n <= |url|
    requires UrlAfter(s.core.mthd.CONNECT?, url, |url|) != Res(Dead)
    ensures Feed(hc, s, url[..n]) ==
            Sys(s.core.(state := UrlAfter(s.core.mthd.CONNECT?, url, n)), Obs(s.obs.trace, Collecting(Url, url[..n])), false, s.used + n)
    ensures UrlAfter(s.core.mthd.CONNECT?, url, n).Uri?
    decreases n
  {
    hide StepSys, Inv, MarkFits, ParseUrlChar;
    var ch := url[n - 1];
    var isConnect := s.core.mthd.CONNECT?;
    assert url[..n] == url[..n - 1] + [ch];
    NotDead(isConnect, url, n);
    assert UrlAfter(isConnect, url, n) == ParseUrlChar(UrlAfter(isConnect, url, n - 1), ch);
    assert UrlAfter(isConnect, url, 0) == UrlStart(isConnect);
    FeedAppend(hc, s, url[..n - 1], [ch]);
    if n == 1 {
      assert url[..1] == [ch];
      One(hc, s, ch);
      FirstUrlByte(hc, s, ch);
    } else {
      UrlRead(hc, s, url, n - 1);
      var t := Feed(hc, s, url[..n - 1]);
      One(hc, t, ch);
      NextUrlByte(hc, t, url[..n - 1], ch);
    }
  }

  lemma NotDead(isConnect: bool, url: seq<Byte>, n: nat)
    requires n <= |url| && UrlAfter(isConnect, url, |url|) != Res(Dead)
    ensures UrlAfter(isConnect, url, n) != Res(Dead) && (n > 0 ==> UrlAfter(isConnect, url, n).Uri?)
  {
    hide ParseUrlChar;
    UrlRises(isConnect, url, n, |url|);
    UrlRises(isConnect, url, n, n);
    UrlRises(isConnect, url, |url|, |url|);
  }

  lemma FirstUrlByte(hc: HeadersCallback, s: Sys, ch: Byte)
    requires Live(s) && s.core.state == Req(ReqSpacesBeforeUrl)
    requires ParseUrlChar(UrlStart(s.core.mthd.CONNECT?), ch).Uri?
    ensures StepSys(hc, s, ch) ==
            Sys(s.core.(state := ParseUrlChar(UrlStart(s.core.mthd.CONNECT?), ch)), Obs(s.obs.trace, Collecting(Url, [ch])), false, s.used + 1)
  {
    NothingOpen(s);
    assert s.core.index >= 0;
    assert ch != SP;
    hide ParseUrlChar, Inv, MarkFits;
    assert [] + [ch] == [ch];
  }

  lemma NextUrlByte(hc: HeadersCallback, s: Sys, b: seq<Byte>, ch: Byte)
    requires Live(s) && s.core.state.Uri? && s.obs.pending == Collecting(Url, b) && ParseUrlChar(s.core.state, ch).Uri?
    ensures StepSys(hc, s, ch) ==
            Sys(s.core.(state := ParseUrlChar(s.core.state, ch)), Obs(s.obs.trace, Collecting(Url, b + [ch])), false, s.used + 1)
  {
    assert s.core.index >= 0;
    assert ch != SP && ch != CR && ch != LF;
    hide ParseUrlChar, Inv, MarkFits;
  }

  lemma UrlSpace(hc: HeadersCallback, s: Sys, b: seq<Byte>)
    requires Live(s) && s.core.state.Uri? && s.obs.pending == Collecting(Url, b)
    requires !s.core.state.uri.ReqSchema? && !s.core.state.uri.ReqSchemaSlash? && !s.core.state.uri.ReqSchemaSlashSlash? &&
             !s.core.state.uri.ReqServerStart?
    ensures var t := StepSys(hc, s, SP);
            t == Sys(s.core.(state := Req(ReqHttpStart)), Obs(Push(s.obs.trace, Data(Url, b)), Idle), false, s.used + 1) && Live(t)
  {
    assert s.core.index >= 0;
    hide ParseUrlChar, Inv, MarkFits;
    assert b + [] == b;
  }

  lemma UrlEnds(m: Method, url: seq<Byte>)
    requires RequestUrl(m, url)
    ensures url != []
    ensures var s := UrlAfter(m.CONNECT?, url, |url|);
            s.Uri? && !s.uri.ReqSchema? && !s.uri.ReqSchemaSlash? && !s.uri.ReqSchemaSlashSlash? && !s.uri.ReqServerStart?
  {
    hide OuterAllOk, UrlAfter, LayoutOf;
    StatesFollowText(m.CONNECT?, url, |url|);
  }

  /** A URL and the space behind it */
  lemma UrlExact(hc: HeadersCallback, s: Sys, url: seq<Byte>)
    requires Live(s) && s.core.state == Req(ReqSpacesBeforeUrl) && RequestUrl(s.core.mthd, url)
    ensures Feed(hc, s, url + [SP]) ==
            Sys(s.core.(state := Req(ReqHttpStart)), Obs(Push(s.obs.trace, Data(Url, url)), Idle), false, s.used + |url| + 1)
  {
    hide StepSys, Inv, MarkFits, RequestUrl, UrlAfter;
    var isConnect := s.core.mthd.CONNECT?;
    UrlEnds(s.core.mthd, url);
    UrlRead(hc, s, url, |url|);
    assert url[..|url|] == url;
    FeedAppend(hc, s, url, [SP]);
    var t := Feed(hc, s, url);
    One(hc, t, SP);
    UrlSpace(hc, t, url);
  }

  // ----- whole first lines -----

  const HTTP: seq<Byte> := [72, 84, 84, 80, 47]

  /** The state behind the first i bytes of "HTTP/" */
  function ProtocolState(request: bool, i: nat): State {
    if request then
      (if i == 0 then Req(ReqHttpStart) else if i == 1 then Req(ReqHttpH) else if i == 2 then Req(ReqHttpHT)
       else if i == 3 then Req(ReqHttpHTT) else if i == 4 then Req(ReqHttpHTTP) else Req(ReqFirstHttpMajor))
    else
      (if i == 0 then Res(StartRes) else if i == 1 then Res(ResH) else if i == 2 then Res(ResHT)
       else if i == 3 then Res(ResHTT) else if i == 4 then Res(ResHTTP) else Res(ResFirstHttpMajor))
  }

  lemma ProtocolByte(hc: HeadersCallback, s: Sys, request: bool, i: nat)
    requires Live(s) && i < 5 && s.core.state == ProtocolState(request, i) && (request || i > 0)
    ensures var t := s.(core := s.core.(state := ProtocolState(request, i + 1)), used := s.used + 1);
            StepSys(hc, s, HTTP[i]) == t && Live(t)
  {
    NothingOpen(s);
    assert s.core.index >= 0;
    Silent(hc, s, HTTP[i], s.core.(state := ProtocolState(request, i + 1)));
  }

  lemma {:induction false} ProtocolRead(hc: HeadersCallback, s: Sys, request: bool, i: nat)
    requires Live(s) && i <= 5 && s.core.state == ProtocolState(request, i) && (request || i > 0)
    ensures Feed(hc, s, HTTP[i..]) == s.(core := s.core.(state := ProtocolState(request, 5)), used := s.used + (5 - i))
    decreases 5 - i
  {
    hide StepSys, Inv, MarkFits, ProtocolState;
    if i < 5 {
      ProtocolByte(hc, s, request, i);
      assert HTTP[i..][0] == HTTP[i] && HTTP[i..][1..] == HTTP[i + 1..];
      ProtocolRead(hc, StepSys(hc, s, HTTP[i]), request, i + 1);
    }
  }

  /** The version of a message: major, '.', minor */
  function VersionText(major: seq<Byte>, minor: seq<Byte>): seq<Byte> {
    major + (['.' as int] + minor)
  }

  predicate IsNumber(text: seq<Byte>) {
    text != [] && IsDigits(text) && DecValue(0, text) <= 999
  }

  lemma Dot(hc: HeadersCallback, s: Sys)
    requires Live(s) && Within(s.core.state, Major)
    ensures var t := s.(core := s.core.(state := if s.core.state.Req? then Req(ReqFirstHttpMinor) else Res(ResFirstHttpMinor)), used := s.used + 1);
            StepSys(hc, s, '.' as int) == t && Live(t)
  {
    NothingOpen(s);
    assert s.core.index >= 0;
    Silent(hc, s, '.' as int, s.core.(state := if s.core.state.Req? then Req(ReqFirstHttpMinor) else Res(ResFirstHttpMinor)));
  }

  lemma VersionRead(hc: HeadersCallback, s: Sys, major: seq<Byte>, minor: seq<Byte>)
    requires Live(s) && Before(s.core.state, Major) && IsNumber(major) && IsNumber(minor)
    requires s.core.state.Req? ==> major[0] != '0' as int
    ensures var c := s.core.(major := DecValue(0, major), minor := DecValue(0, minor), state := AfterDigit(s.core.state.Req?, Minor));
            Feed(hc, s, VersionText(major, minor)) == s.(core := c, used := s.used + |VersionText(major, minor)|)
  {
    hide StepSys, Inv, MarkFits, DecValue, IsDigits;
    NumberExact(hc, s, Major, major);
    var t := Feed(hc, s, major);
    Dot(hc, t);
    One(hc, t, '.' as int);
    var u := StepSys(hc, t, '.' as int);
    NumberExact(hc, u, Minor, minor);
    FeedAppend(hc, s, major, ['.' as int] + minor);
    FeedAppend(hc, t, ['.' as int], minor);
  }

  // ----- whole first lines -----

  /** A request line, with its method as it is written, or a status line */
  datatype FirstLine =
    | RequestLine(mthd: Method, word: seq<Byte>, url: seq<Byte>, major: seq<Byte>, minor: seq<Byte>)
    | StatusLine(major: seq<Byte>, minor: seq<Byte>, code: seq<Byte>, reason: seq<Byte>)
  {
    function Version(): seq<Byte> {
      HTTP + VersionText(major, minor)
    }

    function Text(): seq<Byte> {
      if RequestLine? then (word + [SP]) + ((url + [SP]) + (Version() + [CR, LF]))
      else Version() + ([SP] + (code + ([SP] + (reason + [CR, LF]))))
    }
  }

  ghost predicate FirstOk(l: FirstLine) {
    && IsNumber(l.major) && IsNumber(l.minor)
    && (l.RequestLine? ==> l.major[0] != '0' as int && IsWord(l.mthd, l.word) && RequestUrl(l.mthd, l.url))
    && (l.StatusLine? ==> IsNumber(l.code) && CR !in l.reason && LF !in l.reason)
  }

  /** The fields that a first line sets */
  ghost function FirstCore(c: Core, l: FirstLine): Core
    requires FirstOk(l)
  {
    var d := c.(flags := NO_FLAGS, contentLength := NO_LENGTH, major := DecValue(0, l.major), minor := DecValue(0, l.minor));
    if l.RequestLine? then d.(mthd := l.mthd) else d.(statusCode := DecValue(0, l.code))
  }

  function FirstTrace(t: seq<Event>, l: FirstLine): seq<Event> {
    var b := Push(t, MessageBegin);
    if l.RequestLine? then Push(b, Data(Url, l.url)) else if l.reason == [] then b else Push(b, Data(Status, l.reason))
  }

  /** CR and LF behind a first line */
  lemma LineEnd(hc: HeadersCallback, s: Sys)
    requires Live(s) && s.obs.pending.Idle? && s.core.index >= 0
    requires s.core.state == Req(ReqHttpMinor) || s.core.state == Res(ResStatusStart)
    ensures var t := s.(core := s.core.(state := Hdr(HeaderFieldStart)), used := s.used + 2);
            Feed(hc, s, [CR, LF]) == t && Live(t)
  {
    Silent(hc, s, CR, s.core.(state := if s.core.state.Req? then Req(ReqLineAlmostDone) else Res(ResLineAlmostDone)));
    var t := StepSys(hc, s, CR);
    LineLf(hc, t);
    hide StepSys, Inv, MarkFits;
    assert [CR, LF][1..] == [LF];
    One(hc, t, LF);
  }

  lemma LineLf(hc: HeadersCallback, t: Sys)
    requires Live(t) && t.obs.pending.Idle? && t.core.index >= 0
    requires t.core.state == Req(ReqLineAlmostDone) || t.core.state == Res(ResLineAlmostDone)
    ensures var u := t.(core := t.core.(state := Hdr(HeaderFieldStart)), used := t.used + 1); StepSys(hc, t, LF) == u && Live(u)
  {
    Silent(hc, t, LF, t.core.(state := Hdr(HeaderFieldStart)));
  }

  /** A request line sets method and version, and hands over the URL. */
  lemma RequestLineRead(hc: HeadersCallback, s: Sys, l: FirstLine)
    requires Live(s) && s.core.state == Req(StartReq) && FirstOk(l) && l.RequestLine?
    ensures var r := Feed(hc, s, l.Text());
            r == Sys(FirstCore(s.core, l).(state := Hdr(HeaderFieldStart), index := |l.word| + 1), Obs(FirstTrace(s.obs.trace, l), Idle),
                     false, s.used + |l.Text()|)
  {
    hide StepSys, Inv, MarkFits, Feed, IsNumber, IsWord, RequestUrl, DecValue;
    var tail := l.Version() + [CR, LF];
    MethodRead(hc, s, l.mthd, l.word);
    FeedAppend(hc, s, l.word + [SP], (l.url + [SP]) + tail);
    var t := Feed(hc, s, l.word + [SP]);
    UrlExact(hc, t, l.url);
    FeedAppend(hc, t, l.url + [SP], tail);
    var u := Feed(hc, t, l.url + [SP]);
    ProtocolAndVersion(hc, u, true, 0, l.major, l.minor);
    FeedAppend(hc, u, l.Version(), [CR, LF]);
    assert HTTP[0..] + VersionText(l.major, l.minor) == l.Version();
    LineEnd(hc, Feed(hc, u, l.Version()));
  }

  lemma ProtocolAndVersion(hc: HeadersCallback, s: Sys, request: bool, i: nat, major: seq<Byte>, minor: seq<Byte>)
    requires Live(s) && s.core.state == ProtocolState(request, i) && i < 5 && (request || i > 0)
    requires IsNumber(major) && IsNumber(minor) && (request ==> major[0] != '0' as int)
    ensures var c := s.core.(major := DecValue(0, major), minor := DecValue(0, minor), state := AfterDigit(request, Minor));
            var b := HTTP[i..] + VersionText(major, minor);
            Feed(hc, s, b) == s.(core := c, used := s.used + |b|) && s.obs.pending.Idle? && s.core.index >= 0
  {
    NothingOpen(s);
    assert s.core.index >= 0;
    hide StepSys, Inv, MarkFits, DecValue, IsNumber, Feed;
    ProtocolRead(hc, s, request, i);
    FeedAppend(hc, s, HTTP[i..], VersionText(major, minor));
    VersionRead(hc, Feed(hc, s, HTTP[i..]), major, minor);
  }

  lemma StatusFirst(hc: HeadersCallback, s: Sys)
    requires Live(s) && s.core.state == Res(StartRes)
    ensures var t := Sys(Restart(s.core).(state := Res(ResH)), Obs(Push(s.obs.trace, MessageBegin), Idle), false, s.used + 1);
            StepSys(hc, s, HTTP[0]) == t && Live(t)
  {
    NothingOpen(s);
    OneNote(s.obs.trace, MessageBegin);
    assert s.core.index >= 0;
    assert StepResponse(s.core, HTTP[0]) == Out(Restart(s.core).(state := Res(ResH)), NoteOf(MessageBegin), Go, false);
    hide StepResponse, Inv, MarkFits;
  }

  /** The space behind the version, and the one behind the status code */
  lemma StatusSpace(hc: HeadersCallback, s: Sys)
    requires Live(s) && (s.core.state == Res(ResHttpMinor) || s.core.state == Res(ResStatusCode))
    ensures var t := s.(core := s.core.(state := if s.core.state == Res(ResHttpMinor) then Res(ResFirstStatusCode) else Res(ResStatusStart)),
                        used := s.used + 1);
            StepSys(hc, s, SP) == t && Live(t)
  {
    NothingOpen(s);
    assert s.core.index >= 0;
    Silent(hc, s, SP, s.core.(state := if s.core.state == Res(ResHttpMinor) then Res(ResFirstStatusCode) else Res(ResStatusStart)));
  }

  lemma {:induction false} ReasonRead(hc: HeadersCallback, s: Sys, reason: seq<Byte>, n: nat)
    requires Live(s) && s.core.state == Res(ResStatusStart) && CR !in reason && LF !in reason && 0 < n <= |reason|
    ensures var t := Sys(s.core.(state := Res(ResStatus), index := 0), Obs(s.obs.trace, Collecting(Status, reason[..n])), false, s.used + n);
            Feed(hc, s, reason[..n]) == t && Live(t)
    decreases n
  {
    hide StepSys, Inv, MarkFits;
    var ch := reason[n - 1];
    assert reason[..n] == reason[..n - 1] + [ch];
    FeedAppend(hc, s, reason[..n - 1], [ch]);
    if n == 1 {
      assert reason[..1] == [ch];
      One(hc, s, ch);
      ReasonFirst(hc, s, ch);
    } else {
      ReasonRead(hc, s, reason, n - 1);
      var t := Feed(hc, s, reason[..n - 1]);
      One(hc, t, ch);
      ReasonByte(hc, t, reason[..n - 1], ch);
    }
  }

  lemma ReasonFirst(hc: HeadersCallback, s: Sys, ch: Byte)
    requires Live(s) && s.core.state == Res(ResStatusStart) && ch != CR && ch != LF
    ensures var t := Sys(s.core.(state := Res(ResStatus), index := 0), Obs(s.obs.trace, Collecting(Status, [ch])), false, s.used + 1);
            StepSys(hc, s, ch) == t && Live(t)
  {
    NothingOpen(s);
    assert s.core.index >= 0;
    assert [] + [ch] == [ch];
    hide Inv, MarkFits;
  }

  lemma ReasonByte(hc: HeadersCallback, s: Sys, b: seq<Byte>, ch: Byte)
    requires Live(s) && s.core.state == Res(ResStatus) && s.obs.pending == Collecting(Status, b) && ch != CR && ch != LF
    ensures var t := s.(obs := Obs(s.obs.trace, Collecting(Status, b + [ch])), used := s.used + 1);
            StepSys(hc, s, ch) == t && Live(t)
  {
    assert s.core.index >= 0;
    hide Inv, MarkFits;
  }

  lemma ReasonCr(hc: HeadersCallback, s: Sys, b: seq<Byte>)
    requires Live(s) && s.core.state == Res(ResStatus) && s.obs.pending == Collecting(Status, b)
    ensures var t := Sys(s.core.(state := Res(ResLineAlmostDone)), Obs(Push(s.obs.trace, Data(Status, b)), Idle), false, s.used + 1);
            StepSys(hc, s, CR) == t && Live(t) && t.core.index >= 0
  {
    assert s.core.index >= 0;
    assert b + [] == b;
    hide Inv, MarkFits;
  }

  /** The reason phrase and the end of the line */
  lemma ReasonExact(hc: HeadersCallback, s: Sys, reason: seq<Byte>)
    requires Live(s) && s.core.state == Res(ResStatusStart) && CR !in reason && LF !in reason
    ensures var r := Feed(hc, s, reason + [CR, LF]);
            r == Sys(s.core.(state := Hdr(HeaderFieldStart), index := r.core.index),
                     Obs(if reason == [] then s.obs.trace else Push(s.obs.trace, Data(Status, reason)), Idle), false, s.used + |reason| + 2)
  {
    hide StepSys, Inv, MarkFits, Feed;
    AtReason(s);
    if reason == [] {
      assert reason + [CR, LF] == [CR, LF];
      LineEnd(hc, s);
    } else {
      ReasonRead(hc, s, reason, |reason|);
      assert reason[..|reason|] == reason;
      FeedAppend(hc, s, reason, [CR, LF]);
      ReasonEnd(hc, Feed(hc, s, reason), reason);
    }
  }

  lemma AtReason(s: Sys)
    requires Live(s) && s.core.state == Res(ResStatusStart)
    ensures s.obs.pending.Idle? && s.core.index >= 0
  {
    NothingOpen(s);
  }

  lemma ReasonEnd(hc: HeadersCallback, s: Sys, reason: seq<Byte>)
    requires Live(s) && s.core.state == Res(ResStatus) && s.obs.pending == Collecting(Status, reason)
    ensures Feed(hc, s, [CR, LF]) ==
            Sys(s.core.(state := Hdr(HeaderFieldStart)), Obs(Push(s.obs.trace, Data(Status, reason)), Idle), false, s.used + 2)
  {
    hide StepSys, Inv, MarkFits;
    ReasonCr(hc, s, reason);
    var u := StepSys(hc, s, CR);
    LineLf(hc, u);
    One(hc, u, LF);
    assert [CR, LF][1..] == [LF];
  }

  /** A status line sets version and status code, and hands over the reason phrase. */
  lemma StatusLineRead(hc: HeadersCallback, s: Sys, l: FirstLine)
    requires Live(s) && s.core.state == Res(StartRes) && FirstOk(l) && l.StatusLine?
    ensures var r := Feed(hc, s, l.Text());
            r == Sys(FirstCore(s.core, l).(state := Hdr(HeaderFieldStart), index := r.core.index), Obs(FirstTrace(s.obs.trace, l), Idle),
                     false, s.used + |l.Text()|)
  {
    hide StepSys, Inv, MarkFits, Feed, IsNumber, DecValue;
    var version, rest := HTTP[1..] + VersionText(l.major, l.minor), l.reason + [CR, LF];
    assert l.Text() == [HTTP[0]] + (version + ([SP] + (l.code + ([SP] + rest))));
    StatusFirst(hc, s);
    One(hc, s, HTTP[0]);
    FeedAppend(hc, s, [HTTP[0]], version + ([SP] + (l.code + ([SP] + rest))));
    var t := StepSys(hc, s, HTTP[0]);
    ProtocolAndVersion(hc, t, false, 1, l.major, l.minor);
    FeedAppend(hc, t, version, [SP] + (l.code + ([SP] + rest)));
    CodeAndReason(hc, Feed(hc, t, version), l.code, l.reason);
  }

  lemma CodeAndReason(hc: HeadersCallback, s: Sys, code: seq<Byte>, reason: seq<Byte>)
    requires Live(s) && s.core.state == Res(ResHttpMinor) && IsNumber(code) && CR !in reason && LF !in reason
    ensures var b := [SP] + (code + ([SP] + (reason + [CR, LF])));
            var r := Feed(hc, s, b);
            r == Sys(s.core.(state := Hdr(HeaderFieldStart), index := r.core.index, statusCode := DecValue(0, code)),
                     Obs(if reason == [] then s.obs.trace else Push(s.obs.trace, Data(Status, reason)), Idle), false, s.used + |b|)
  {
    hide StepSys, Inv, MarkFits, Feed, DecValue;
    var rest := reason + [CR, LF];
    StatusSpace(hc, s);
    One(hc, s, SP);
    FeedAppend(hc, s, [SP], code + ([SP] + rest));
    var t := StepSys(hc, s, SP);
    NumberExact(hc, t, Code, code);
    FeedAppend(hc, t, code, [SP] + rest);
    var u := Feed(hc, t, code);
    StatusSpace(hc, u);
    One(hc, u, SP);
    FeedAppend(hc, u, [SP], rest);
    ReasonExact(hc, StepSys(hc, u, SP), reason);
  }

  // ----- both kinds -----

  /** Ready for a message that begins with this line */
  predicate StartsWith(c: Core, l: FirstLine) {
    if l.RequestLine? then c.state == Req(StartReq) && c.messageType.Request?
    else c.state == Res(StartRes) && c.messageType.Response?
  }

  /** A first line sets what it says, and hands over its URL or its reason. */
  lemma FirstLineRead(hc: HeadersCallback, s: Sys, l: FirstLine)
    requires Live(s) && StartsWith(s.core, l) && FirstOk(l)
    ensures var r := Feed(hc, s, l.Text());
            && Live(r) && r.core.state == Hdr(HeaderFieldStart) && r.core == FirstCore(s.core, l).(state := r.core.state, index := r.core.index)
            && r.obs == Obs(FirstTrace(s.obs.trace, l), Idle) && r.used == s.used + |l.Text()|
  {
    hide StepSys, Inv, MarkFits, Feed, FirstOk, FirstTrace;
    if l.RequestLine? { RequestLineRead(hc, s, l); } else { StatusLineRead(hc, s, l); }
  }

  // ----- what is taken besides -----

  /** The places where a line can end */
  predicate AtLineEnd(s: State) {
    match s
    case Req(r) => r.ReqHttpMinor?
    case Res(r) => r.ResStatusCode? || r.ResStatusStart? || r.ResStatus?
    case Hdr(h) => h.HeaderValueDiscardWs? || h.HeaderValue? || h.HeaderFieldStart?
    case Uri(u) => !u.ReqSchema? && !u.ReqSchemaSlash? && !u.ReqSchemaSlashSlash? && !u.ReqServerStart?
    case Msg(_) => false
  }

  /** A CR, and the LF behind it, compared with LF alone: the calls are made at the one or at the other. */
  predicate SameLineEnd(cr: Out, lf: Out, only: Out) {
    && cr.verdict.Go? && !cr.resetNread && cr.core.index >= 0
    && lf.core == only.core && lf.verdict == only.verdict && lf.resetNread == only.resetNread
    && ((cr.calls == QUIET && lf.calls == only.calls) || (cr.calls == only.calls && lf.calls == QUIET))
  }

  lemma FirstLineEnds(c: Core)
    requires c.index >= 0 && AtLineEnd(c.state) && !c.state.Hdr?
    ensures forall hc {:trigger Step(hc, c, CR)} :: var o := Step(hc, c, CR); o.core.index >= 0 && SameLineEnd(o, Step(hc, o.core, LF), Step(hc, c, LF))
  {
  }

  lemma HeaderLineEnds(hc: HeadersCallback, c: Core)
    requires c.index >= 0 && AtLineEnd(c.state) && c.state.Hdr?
    ensures var o := Step(hc, c, CR); o.core.index >= 0 && SameLineEnd(o, Step(hc, o.core, LF), Step(hc, c, LF))
  {
    hide EndHeaders, SetFlag;
  }

  /** Wherever a line can end, LF alone does what CR LF does. */
  lemma BareLf(hc: HeadersCallback, s: Sys)
    requires Live(s) && AtLineEnd(s.core.state)
    ensures var t, u := Feed(hc, s, [CR, LF]), Feed(hc, s, [LF]); t == u.(used := u.used + 1)
  {
    assert s.core.index >= 0;
    hide StepSys, Inv, MarkFits, Step;
    if s.core.state.Hdr? { HeaderLineEnds(hc, s.core); } else { FirstLineEnds(s.core); }
    CrThenLf(hc, s);
    var t := StepSys(hc, s, CR);
    One(hc, s, LF);
    One(hc, t, LF);
    assert [CR, LF][1..] == [LF];
  }

  lemma CrThenLf(hc: HeadersCallback, s: Sys)
    requires Live(s) && s.core.index >= 0 && AtLineEnd(s.core.state)
    requires var o := Step(hc, s.core, CR); o.core.index >= 0 && SameLineEnd(o, Step(hc, o.core, LF), Step(hc, s.core, LF))
    ensures var t := StepSys(hc, s, CR); Live(t) && StepSys(hc, t, LF) == StepSys(hc, s, LF).(used := StepSys(hc, s, LF).used + 1)
  {
    LineMark(hc, s);
    hide Step, Inv, MarkFits, AtLineEnd;
    var p, o := s.obs.pending, Step(hc, s.core, CR);
    if p.Collecting? { assert p.bytes + [] == p.bytes; }
  }

  /** At the end of a line the data of an open mark is handed over. */
  lemma LineMark(hc: HeadersCallback, s: Sys)
    requires Live(s) && s.core.index >= 0 && AtLineEnd(s.core.state)
    ensures Step(hc, s.core, CR).calls == if s.obs.pending.Idle? then QUIET else FlushOf(s.obs.pending.kind)
  {
  }

  /** Where more than one space may stand */
  predicate AtSpace(s: State) {
    s == Req(ReqSpacesBeforeUrl) || s == Req(ReqHttpStart) || s == Res(ResFirstStatusCode)
  }

  lemma MoreSpace(hc: HeadersCallback, s: Sys)
    requires Live(s) && AtSpace(s.core.state)
    ensures Feed(hc, s, [SP]) == s.(used := s.used + 1)
  {
    NothingOpen(s);
    assert s.core.index >= 0;
    Silent(hc, s, SP, s.core);
  }

  /** Empty lines in front of a request, and behind the last message, are skipped. */
  lemma EmptyLine(hc: HeadersCallback, s: Sys, ch: Byte)
    requires Live(s) && (ch == CR || ch == LF)
    requires s.core.state == Req(StartReq) || s.core.state == Res(StartReqOrRes) || s.core.state == Res(Dead)
    ensures Feed(hc, s, [ch]) == s.(used := s.used + 1)
  {
    NothingOpen(s);
    assert s.core.index >= 0;
    Silent(hc, s, ch, s.core);
  }

  /** In front of a response, each byte of an empty line announces a message. */
  lemma EmptyLineAnnounces(hc: HeadersCallback, s: Sys, ch: Byte)
    requires Live(s) && (ch == CR || ch == LF) && s.core.state == Res(StartRes)
    ensures Feed(hc, s, [ch]) == Sys(s.core.(flags := NO_FLAGS, contentLength := NO_LENGTH), Obs(Push(s.obs.trace, MessageBegin), Idle), false, s.used + 1)
  {
    NothingOpen(s);
    OneNote(s.obs.trace, MessageBegin);
    assert s.core.index >= 0;
    assert StepResponse(s.core, ch) == Out(Restart(s.core), NoteOf(MessageBegin), Go, false);
    One(hc, s, ch);
    hide StepResponse, Inv, MarkFits;
  }

  /** A URL with the end of the line behind it makes the version 0.9. */
  lemma OldRequestLine(hc: HeadersCallback, s: Sys, url: seq<Byte>)
    requires Live(s) && s.core.state == Req(ReqSpacesBeforeUrl) && RequestUrl(s.core.mthd, url)
    ensures Feed(hc, s, url + [LF]) ==
            Sys(s.core.(state := Hdr(HeaderFieldStart), major := 0, minor := 9), Obs(Push(s.obs.trace, Data(Url, url)), Idle), false, s.used + |url| + 1)
  {
    hide StepSys, Inv, MarkFits, RequestUrl, UrlAfter;
    UrlEnds(s.core.mthd, url);
    UrlRead(hc, s, url, |url|);
    assert url[..|url|] == url;
    FeedAppend(hc, s, url, [LF]);
    var t := Feed(hc, s, url);
    One(hc, t, LF);
    UrlLf(hc, t, url);
  }

  lemma UrlLf(hc: HeadersCallback, s: Sys, b: seq<Byte>)
    requires Live(s) && s.core.state.Uri? && s.obs.pending == Collecting(Url, b) && AtLineEnd(s.core.state)
    ensures StepSys(hc, s, LF) ==
            Sys(s.core.(state := Hdr(HeaderFieldStart), major := 0, minor := 9), Obs(Push(s.obs.trace, Data(Url, b)), Idle), false, s.used + 1)
  {
    assert s.core.index >= 0;
    hide ParseUrlChar, Inv, MarkFits;
    assert b + [] == b;
  }

  /** A parser for both kinds takes a first line for what it is: it goes on like a parser of that kind. */
  function AsKind(s: Sys, l: FirstLine): Sys {
    s.(core := if l.RequestLine? then s.core.(messageType := Request, state := Req(StartReq))
               else s.core.(messageType := Response, state := Res(StartRes)))
  }

  lemma TwoBytes(hc: HeadersCallback, s: Sys, b: seq<Byte>)
    requires Live(s) && |b| >= 2
    ensures var t := StepSys(hc, s, b[0]);
            Feed(hc, s, b) == if t.halted then t else Feed(hc, StepSys(hc, t, b[1]), b[2..])
  {
    hide StepSys, Inv, MarkFits;
    var t := StepSys(hc, s, b[0]);
    assert b[1..][0] == b[1] && b[1..][1..] == b[2..];
    assert Feed(hc, s, b) == Feed(hc, t, b[1..]);
  }

  lemma StatusBegins(l: FirstLine)
    requires l.StatusLine?
    ensures |l.Text()| >= 2 && l.Text()[0] == 72 && l.Text()[1] == 84
  {
    assert l.Text()[0] == HTTP[0] && l.Text()[1] == HTTP[1];
  }

  lemma OnlyHead(m: Method)
    ensures |MethodString(m)| >= 2 && StartsMethod(MethodString(m)[0] as int) && IsAlpha(MethodString(m)[0] as int)
    ensures MethodString(m)[0] == 'H' ==> MethodString(m)[1] == 'E'
  {
  }

  lemma WordBegins(l: FirstLine)
    requires FirstOk(l) && l.RequestLine?
    ensures var b := l.Text(); |b| >= 2 && StartsMethod(b[0]) && IsAlpha(b[0]) && (b[0] == 72 ==> b[1] == 69)
  {
    hide IsNumber, RequestUrl, MethodString, StartsMethod;
    OnlyHead(l.mthd);
    assert l.Text()[0] == l.word[0] == MethodString(l.mthd)[0] as int;
    assert l.Text()[1] == l.word[1] == MethodString(l.mthd)[1] as int;
  }

  lemma KindLive(s: Sys, l: FirstLine)
    requires Live(s) && s.core.state == Res(StartReqOrRes)
    ensures Live(AsKind(s, l)) && s.obs.pending.Idle? && s.core.index >= 0
  {
  }

  lemma RequestKind(hc: HeadersCallback, s: Sys, l: FirstLine, ch: Byte)
    requires Live(s) && s.core.state == Res(StartReqOrRes) && Live(AsKind(s, l)) && l.RequestLine?
    requires StartsMethod(ch) && IsAlpha(ch) && ch != 72
    ensures StepSys(hc, s, ch) == StepSys(hc, AsKind(s, l), ch)
  {
    KindLive(s, l);
    assert StepResponse(s.core, ch) == StartRequest(AsKind(s, l).core, ch) == StepRequest(AsKind(s, l).core, ch);
    hide StepResponse, StepRequest, StartRequest, Inv, MarkFits, StartsMethod;
  }

  /** "HT" begins a response. */
  lemma StatusKind(hc: HeadersCallback, s: Sys, l: FirstLine)
    requires Live(s) && s.core.state == Res(StartReqOrRes) && Live(AsKind(s, l)) && l.StatusLine?
    ensures var t, u := StepSys(hc, s, 72), StepSys(hc, AsKind(s, l), 72);
            !t.halted && !u.halted && StepSys(hc, t, 84) == StepSys(hc, u, 84) && !StepSys(hc, t, 84).halted
  {
    KindLive(s, l);
    var note := Obs(Push(s.obs.trace, MessageBegin), Idle);
    OneNote(s.obs.trace, MessageBegin);
    var c, d := Restart(s.core).(state := Res(ResOrRespH)), Restart(AsKind(s, l).core).(state := Res(ResH));
    Announced(hc, s, 72, c);
    Announced(hc, AsKind(s, l), 72, d);
    Silent(hc, Sys(c, note, false, s.used + 1), 84, c.(messageType := Response, state := Res(ResHT)));
    Silent(hc, Sys(d, note, false, s.used + 1), 84, d.(state := Res(ResHT)));
  }

  /** "HE" begins a request. */
  lemma HeadKind(hc: HeadersCallback, s: Sys, l: FirstLine)
    requires Live(s) && s.core.state == Res(StartReqOrRes) && Live(AsKind(s, l)) && l.RequestLine?
    ensures var t, u := StepSys(hc, s, 72), StepSys(hc, AsKind(s, l), 72);
            !t.halted && !u.halted && StepSys(hc, t, 69) == StepSys(hc, u, 69) && !StepSys(hc, t, 69).halted
  {
    KindLive(s, l);
    var note := Obs(Push(s.obs.trace, MessageBegin), Idle);
    OneNote(s.obs.trace, MessageBegin);
    var c := Restart(s.core).(state := Res(ResOrRespH));
    var d := Restart(AsKind(s, l).core).(mthd := HEAD, index := 1, state := Req(ReqMethod));
    Announced(hc, s, 72, c);
    Announced(hc, AsKind(s, l), 72, d);
    Silent(hc, Sys(c, note, false, s.used + 1), 69, c.(messageType := Request, mthd := HEAD, index := 2, state := Req(ReqMethod)));
    Silent(hc, Sys(d, note, false, s.used + 1), 69, d.(index := 2));
  }

  /** A byte at which only the beginning of a message is announced */
  lemma Announced(hc: HeadersCallback, s: Sys, ch: Byte, c: Core)
    requires Live(s) && s.obs.pending.Idle? && s.core.index >= 0 && Step(hc, s.core, ch) == Out(c, NoteOf(MessageBegin), Go, false)
    ensures var t := Sys(c, Obs(Push(s.obs.trace, MessageBegin), Idle), false, s.used + 1); StepSys(hc, s, ch) == t && Live(t)
  {
    hide Step, Inv, MarkFits;
    OneNote(s.obs.trace, MessageBegin);
  }

  lemma EitherKind(hc: HeadersCallback, s: Sys, l: FirstLine, rest: seq<Byte>)
    requires Live(s) && s.core.state == Res(StartReqOrRes) && FirstOk(l)
    ensures Live(AsKind(s, l)) && Feed(hc, s, l.Text() + rest) == Feed(hc, AsKind(s, l), l.Text() + rest)
  {
    var b := l.Text() + rest;
    KindLive(s, l);
    hide StepSys, FirstOk, Inv, MarkFits, FirstLine.Text, StartsMethod, IsAlpha;
    if l.StatusLine? {
      StatusBegins(l);
      assert b[0] == 72 && b[1] == 84 && |b| >= 2;
      StatusKind(hc, s, l);
      TwoBytes(hc, s, b);
      TwoBytes(hc, AsKind(s, l), b);
    } else {
      WordBegins(l);
      if b[0] == 72 {
        assert b[1] == 69 && |b| >= 2;
        HeadKind(hc, s, l);
        TwoBytes(hc, s, b);
        TwoBytes(hc, AsKind(s, l), b);
      } else {
        RequestKind(hc, s, l, b[0]);
      }
    }
  }

  // ----- what is refused -----

  /** Any other byte inside "HTTP/" */
  lemma ProtocolRefused(hc: HeadersCallback, s: Sys, request: bool, i: nat, ch: Byte)
    requires Live(s) && i < 5 && s.core.state == ProtocolState(request, i) && ch != HTTP[i]
    requires i == 0 ==> if request then ch != SP else ch != CR && ch != LF
    ensures StepSys(hc, s, ch).halted
    ensures StepSys(hc, s, ch).core.errno == if i == 0 then InvalidConstant else Strict
  {
    NothingOpen(s);
    var c := if request || i > 0 then s.core else Restart(s.core);
    Refused(hc, s, ch, c.(errno := if i == 0 then InvalidConstant else Strict));
  }

  /** What can stand behind a number besides digits */
  predicate EndsNumber(request: bool, k: Number, ch: Byte) {
    match k
    case Major => ch == '.' as int
    case Minor => if request then ch == CR || ch == LF else ch == SP
    case Code => ch == SP || ch == CR || ch == LF
  }

  /** A number has a first digit, and is followed by what ends it. */
  lemma NumberRefused(hc: HeadersCallback, s: Sys, k: Number, ch: Byte)
    requires Live(s) && !IsNum(ch)
    requires if Within(s.core.state, k) then !EndsNumber(s.core.state.Req?, k, ch) else Before(s.core.state, k) && (k.Code? ==> ch != SP)
    ensures StepSys(hc, s, ch).halted && StepSys(hc, s, ch).core.errno == Refusal(k)
  {
    NoMarkYet(s);
    Refused(hc, s, ch, s.core.(errno := Refusal(k)));
  }

  /** A CR at the end of a line has its LF. */
  lemma LfMissing(hc: HeadersCallback, s: Sys, ch: Byte)
    requires Live(s) && ch != LF
    requires s.core.state == Req(ReqLineAlmostDone) || s.core.state == Res(ResLineAlmostDone) || s.core.state == Hdr(HeaderAlmostDone) ||
             s.core.state == Hdr(HeaderValueDiscardWsAlmostDone) || s.core.state == Hdr(HeadersAlmostDone)
    ensures StepSys(hc, s, ch).halted
    ensures StepSys(hc, s, ch).core.errno == if s.core.state.Req? then LfExpected else Strict
  {
    NothingOpen(s);
    assert s.core.index >= 0;
    Refused(hc, s, ch, s.core.(errno := if s.core.state.Req? then LfExpected else Strict));
  }

  /** A header name has token characters, up to its colon. */
  lemma NameRefused(hc: HeadersCallback, s: Sys, ch: Byte)
    requires Live(s) && Token(ch) == 0
    requires if s.core.state == Hdr(HeaderFieldStart) then ch != CR && ch != LF else s.core.state == Hdr(HeaderField) && ch != ':' as int
    ensures StepSys(hc, s, ch).halted && StepSys(hc, s, ch).core.errno == InvalidHeaderToken
  {
    assert s.core.index >= 0;
    assert Step(hc, s.core, ch) == Err(s.core, InvalidHeaderToken);
    hide Step, Inv, MarkFits, Token;
  }

  /** A Content-Length begins with a digit, and goes on with digits and spaces. */
  lemma LengthRefused(hc: HeadersCallback, s: Sys, ch: Byte)
    requires Live(s) && s.core.headerState == ContentLength && !IsNum(ch) && ch != SP && ch != CR && ch != LF
    requires if s.core.state == Hdr(HeaderValueDiscardWs) then ch != TAB else s.core.state == Hdr(HeaderValue)
    ensures StepSys(hc, s, ch).halted && StepSys(hc, s, ch).core.errno == InvalidContentLength
  {
    assert s.core.index >= 0;
    hide Inv, MarkFits;
  }

  /** A URL of a request line is accepted only if every byte can stand where it stands, and it does not end before the
      host. */
  lemma UrlRefused(hc: HeadersCallback, s: Sys, url: seq<Byte>)
    requires Live(s) && s.core.state == Req(ReqSpacesBeforeUrl) && url != [] && SP !in url && CR !in url && LF !in url
    requires !RequestUrl(s.core.mthd, url)
    ensures var r := Feed(hc, s, url + [SP]); r.halted && r.core.errno == InvalidUrl
  {
    hide StepSys, Inv, MarkFits, UrlAfter, OuterAllOk, LayoutOf, OuterState;
    var isConnect := s.core.mthd.CONNECT?;
    StatesFollowText(isConnect, url, |url|);
    FeedAppend(hc, s, url, [SP]);
    if UrlAfter(isConnect, url, |url|) == Res(Dead) {
      DiesAt(hc, s, url, |url|);
      assert url[..|url|] == url;
      HaltedStays(hc, Feed(hc, s, url), [SP]);
    } else {
      UrlRead(hc, s, url, |url|);
      assert url[..|url|] == url;
      TooShort(isConnect, url);
      var t := Feed(hc, s, url);
      One(hc, t, SP);
      SpaceTooEarly(hc, t);
    }
  }

  lemma TooShort(isConnect: bool, url: seq<Byte>)
    requires url != [] && LayoutOf(isConnect, url).host >= |url|
    ensures var s := OuterState(isConnect, url, LayoutOf(isConnect, url), |url|);
            s == Uri(ReqSchema) || s == Uri(ReqSchemaSlash) || s == Uri(ReqSchemaSlashSlash) || s == Uri(ReqServerStart)
  {
  }

  lemma SpaceTooEarly(hc: HeadersCallback, s: Sys)
    requires Live(s)
    requires s.core.state == Uri(ReqSchema) || s.core.state == Uri(ReqSchemaSlash) || s.core.state == Uri(ReqSchemaSlashSlash) || s.core.state == Uri(ReqServerStart)
    ensures StepSys(hc, s, SP).halted && StepSys(hc, s, SP).core.errno == InvalidUrl
  {
  }

  /** The byte at which the machine dies is refused. */
  lemma {:induction false} DiesAt(hc: HeadersCallback, s: Sys, url: seq<Byte>, n: nat)
    requires Live(s) && s.core.state == Req(ReqSpacesBeforeUrl) && 0 < n <= |url| && SP !in url && CR !in url && LF !in url
    requires UrlAfter(s.core.mthd.CONNECT?, url, n) == Res(Dead)
    ensures var r := Feed(hc, s, url[..n]); r.halted && r.core.errno == InvalidUrl
    decreases n
  {
    hide StepSys, Inv, MarkFits, ParseUrlChar;
    var isConnect, ch := s.core.mthd.CONNECT?, url[n - 1];
    assert url[..n] == url[..n - 1] + [ch];
    FeedAppend(hc, s, url[..n - 1], [ch]);
    assert UrlAfter(isConnect, url, n) == ParseUrlChar(UrlAfter(isConnect, url, n - 1), ch);
    assert UrlAfter(isConnect, url, 0) == UrlStart(isConnect);
    if n == 1 {
      assert url[..1] == [ch];
      One(hc, s, ch);
      FirstDies(hc, s, ch);
    } else if UrlAfter(isConnect, url, n - 1) == Res(Dead) {
      DiesAt(hc, s, url, n - 1);
      HaltedStays(hc, Feed(hc, s, url[..n - 1]), [ch]);
    } else {
      SamePrefix(isConnect, url, n - 1);
      UrlRead(hc, s, url[..n - 1], n - 1);
      assert url[..n - 1][..n - 1] == url[..n - 1];
      var t := Feed(hc, s, url[..n - 1]);
      One(hc, t, ch);
      NextDies(hc, t, ch);
    }
  }

  lemma {:induction false} SamePrefix(isConnect: bool, url: seq<Byte>, n: nat)
    requires n <= |url|
    ensures forall k :: 0 <= k <= n ==> UrlAfter(isConnect, url[..n], k) == UrlAfter(isConnect, url, k)
  {
    hide ParseUrlChar;
    var k := 0;
    while k < n
      invariant 0 <= k <= n && forall j :: 0 <= j <= k ==> UrlAfter(isConnect, url[..n], j) == UrlAfter(isConnect, url, j)
    {
      k := k + 1;
    }
  }

  lemma FirstDies(hc: HeadersCallback, s: Sys, ch: Byte)
    requires Live(s) && s.core.state == Req(ReqSpacesBeforeUrl) && ch != SP && ParseUrlChar(UrlStart(s.core.mthd.CONNECT?), ch) == Res(Dead)
    ensures StepSys(hc, s, ch).halted && StepSys(hc, s, ch).core.errno == InvalidUrl
  {
    hide ParseUrlChar;
  }

  lemma NextDies(hc: HeadersCallback, s: Sys, ch: Byte)
    requires Live(s) && s.core.state.Uri? && ch != SP && ch != CR && ch != LF && ParseUrlChar(s.core.state, ch) == Res(Dead)
    ensures StepSys(hc, s, ch).halted && StepSys(hc, s, ch).core.errno == InvalidUrl
  {
    hide ParseUrlChar;
  }
}
