/** Which bytes behind a cut make a difference: split invariance, told from the input. */
module HttpCut {
  import opened Bytes
  import opened HttpTypes
  import opened HttpStep
  import opened HttpRun
  import opened HttpFeed
  import opened HttpSplit
  import opened HttpBody

  // ----- the bytes that end a string well -----

  /** The bytes go on to be a URL, as far as the URL goes. */
  predicate UrlGoesOn(s: State, b: seq<Byte>)
    requires s.Uri?
    decreases |b|
  {
    b == [] ||
    if b[0] == SP || b[0] == CR || b[0] == LF then
      !s.uri.ReqSchema? && !s.uri.ReqSchemaSlash? && !s.uri.ReqSchemaSlashSlash? && !s.uri.ReqServerStart?
    else
      var t := ParseUrlChar(s, b[0]); t.Uri? && UrlGoesOn(t, b[1..])
  }

  /** Nothing but token characters up to the colon */
  predicate NameGoesOn(b: seq<Byte>)
    decreases |b|
  {
    b == [] || b[0] == ':' as int || (Token(b[0]) != 0 && NameGoesOn(b[1..]))
  }

  /** Nothing but digits and spaces up to the end of the line, with a value that is not too large */
  predicate LengthGoesOn(v: int, b: seq<Byte>)
    decreases |b|
  {
    b == [] || b[0] == CR || b[0] == LF || (b[0] == SP && LengthGoesOn(v, b[1..])) ||
    (IsNum(b[0]) && v * 10 + (b[0] - 48) <= MAX_CONTENT && LengthGoesOn(v * 10 + (b[0] - 48), b[1..]))
  }

  /** The n bytes of a chunk that are still to come have a CR behind them. */
  predicate ChunkGoesOn(n: int, b: seq<Byte>) {
    0 <= n && (|b| <= n || b[n] == CR)
  }

  /** The string that is being collected, if any, ends well. */
  predicate GoesOn(s: Sys, b: seq<Byte>) {
    s.obs.pending.Idle? ||
    match s.core.state
    case Uri(_) => UrlGoesOn(s.core.state, b)
    case Hdr(HeaderField) => NameGoesOn(b)
    case Hdr(HeaderValue) => s.core.headerState.ContentLength? ==> LengthGoesOn(s.core.contentLength, b)
    case Msg(ChunkData) => ChunkGoesOn(s.core.contentLength, b)
    case Msg(ChunkDataAlmostDone) => ChunkGoesOn(0, b)
    case _ => true
  }

  // ----- one byte of a string -----

  /** What one byte can do to a string, whatever follows: end it, be refused, or be its next byte. */
  predicate OneOn(s: Sys, t: Sys, ch: Byte, rest: seq<Byte>) {
    if t.obs.pending.Idle? then s.used + 1 == t.used && GoesOn(s, [ch] + rest)
    else if t.halted then t.obs == s.obs && t.used == s.used && !GoesOn(s, [ch] + rest)
    else
      && t.used == s.used + 1 && t.obs.pending.bytes == Collected(s.obs.pending) + [ch]
      && (GoesOn(s, [ch] + rest) <==> GoesOn(t, rest))
  }

  lemma UrlOne(hc: HeadersCallback, s: Sys, ch: Byte, rest: seq<Byte>)
    requires Live(s) && s.core.state.Uri?
    ensures s.obs.pending.Collecting? && OneOn(s, StepSys(hc, s, ch), ch, rest)
  {
    InvIndex(s.core);
    hide Inv, ParseUrlChar;
    UrlEnds(s.core.state, ch);
    assert Step(hc, s.core, ch) == StepUrl(s.core, ch);
    assert ([ch] + rest)[0] == ch && ([ch] + rest)[1..] == rest;
  }

  lemma UrlEnds(s: State, ch: Byte)
    requires s.Uri?
    ensures ParseUrlChar(s, ch).Uri? || ParseUrlChar(s, ch) == Res(Dead)
  {
  }

  lemma NameOne(hc: HeadersCallback, s: Sys, ch: Byte, rest: seq<Byte>)
    requires Live(s) && s.core.state == Hdr(HeaderField)
    ensures s.obs.pending.Collecting? && OneOn(s, StepSys(hc, s, ch), ch, rest)
  {
    InvIndex(s.core);
    hide Inv, NameStep, Token;
    assert Step(hc, s.core, ch) == InField(s.core, ch);
    assert ([ch] + rest)[0] == ch && ([ch] + rest)[1..] == rest;
    Colon();
  }

  lemma Colon()
    ensures Token(':' as int) == 0
  {
  }

  lemma InvIndex(c: Core)
    requires Inv(c)
    ensures c.index >= 0
  {
  }

  lemma ValueOne(hc: HeadersCallback, s: Sys, ch: Byte, rest: seq<Byte>)
    requires Live(s) && s.core.state == Hdr(HeaderValue)
    ensures s.obs.pending.Collecting? && OneOn(s, StepSys(hc, s, ch), ch, rest)
  {
    InvIndex(s.core);
    InsideValue(s);
    hide Inv, ValueStep, LengthGoesOn;
    assert Step(hc, s.core, ch) == InValue(s.core, ch);
    if ch != CR && ch != LF { ValueByteGoesOn(s.core, ch); }
    LengthOne(s.core.contentLength, ch, rest);
  }

  lemma ValueByteGoesOn(c: Core, ch: Byte)
    requires c.state == Hdr(HeaderValue) && c.index >= 0 && c.contentLength >= 0
    ensures var o := ValueStep(c, ch);
            && o.calls == QUIET && !o.verdict.Exit?
            && (o.verdict.Go? ==> o.core.state == c.state && (o.core.headerState.ContentLength? <==> c.headerState.ContentLength?))
            && (!c.headerState.ContentLength? ==> o.verdict.Go?)
            && (c.headerState.ContentLength? ==>
                  (o.verdict.Go? <==> ch == SP || (IsNum(ch) && c.contentLength * 10 + (ch - 48) <= MAX_CONTENT)) &&
                  (o.verdict.Go? ==> o.core.contentLength == if ch == SP then c.contentLength else c.contentLength * 10 + (ch - 48)))
  {
    if IsNum(ch) { FullExactly(c.contentLength, ch - 48); }
  }

  lemma LengthOne(v: int, ch: Byte, rest: seq<Byte>)
    ensures LengthGoesOn(v, [ch] + rest) <==>
            ch == CR || ch == LF || (ch == SP && LengthGoesOn(v, rest)) ||
            (IsNum(ch) && v * 10 + (ch - 48) <= MAX_CONTENT && LengthGoesOn(v * 10 + (ch - 48), rest))
  {
    assert ([ch] + rest)[0] == ch && ([ch] + rest)[1..] == rest;
  }

  lemma BodyOne(hc: HeadersCallback, s: Sys, ch: Byte, rest: seq<Byte>)
    requires Live(s) && s.core.state.Msg? && s.obs.pending.Collecting?
    ensures OneOn(s, StepSys(hc, s, ch), ch, rest)
  {
    if s.core.state == Msg(ChunkData) || s.core.state == Msg(ChunkDataAlmostDone) {
      ChunkOne(hc, s, ch, rest);
    } else {
      assert s.core.state == Msg(BodyIdentity) || s.core.state == Msg(BodyIdentityEof);
      assert Step(hc, s.core, ch) == StepBody(s.core, ch);
      hide Inv, ShouldKeepAlive;
    }
  }

  lemma ChunkOne(hc: HeadersCallback, s: Sys, ch: Byte, rest: seq<Byte>)
    requires Live(s) && s.obs.pending.Collecting?
    requires s.core.state == Msg(ChunkData) || s.core.state == Msg(ChunkDataAlmostDone)
    ensures OneOn(s, StepSys(hc, s, ch), ch, rest)
  {
    var n := s.core.contentLength;
    assert s.core.state == Msg(ChunkData) ==> n > 0;
    assert Step(hc, s.core, ch) == StepBody(s.core, ch);
    hide Inv;
    if s.core.state == Msg(ChunkData) && |rest| >= n { assert ([ch] + rest)[n] == rest[n - 1]; }
  }

  lemma StatusOne(hc: HeadersCallback, s: Sys, ch: Byte, rest: seq<Byte>)
    requires Live(s) && s.core.state == Res(ResStatus)
    ensures s.obs.pending.Collecting? && OneOn(s, StepSys(hc, s, ch), ch, rest)
  {
    hide Inv;
  }

  lemma StringOne(hc: HeadersCallback, s: Sys, ch: Byte, rest: seq<Byte>)
    requires Live(s) && s.obs.pending.Collecting?
    ensures OneOn(s, StepSys(hc, s, ch), ch, rest)
  {
    Collects(s);
    hide StepSys, Inv, MarkFits, OneOn;
    match s.core.state
    case Uri(_) => UrlOne(hc, s, ch, rest);
    case Hdr(HeaderField) => NameOne(hc, s, ch, rest);
    case Hdr(HeaderValue) => ValueOne(hc, s, ch, rest);
    case Msg(_) => BodyOne(hc, s, ch, rest);
    case _ => StatusOne(hc, s, ch, rest);
  }

  lemma Collects(s: Sys)
    requires Live(s) && s.obs.pending.Collecting?
    ensures s.core.state.Uri? || s.core.state.Msg? || s.core.state in {Hdr(HeaderField), Hdr(HeaderValue), Res(ResStatus)}
  {
    hide Inv;
  }

  // ----- the whole string -----

  /** A string that began before byte n is dropped exactly if it does not end well. */
  lemma {:induction false} Drops(hc: HeadersCallback, s: Sys, n: nat, b: seq<Byte>)
    requires Live(s) && n <= s.used && s.obs.pending.Collecting? && s.used < n + |s.obs.pending.bytes|
    ensures StopsInData(Feed(hc, s, b), n) <==> !GoesOn(s, b)
    decreases |b|
  {
    hide StepSys, Inv, MarkFits, GoesOn;
    if b == [] {
      NothingMore(s);
    } else {
      var t := StepSys(hc, s, b[0]);
      assert b == [b[0]] + b[1..];
      StringOne(hc, s, b[0], b[1..]);
      assert Feed(hc, s, b) == Feed(hc, t, b[1..]);
      if !t.halted {
        if t.obs.pending.Idle? {
          CollectsSince(hc, t, b[1..]);
        } else {
          Drops(hc, t, n, b[1..]);
        }
      }
    }
  }

  lemma NothingMore(s: Sys)
    requires Live(s)
    ensures GoesOn(s, [])
  {
    assert s.core.state == Msg(ChunkData) ==> s.core.contentLength > 0;
    hide Inv;
  }

  /** A cut behind a changes neither the parser nor the joined callbacks exactly if the string that is cut, if any,
      ends well. */
  lemma CutExactly(hc: HeadersCallback, x: Conn, a: seq<Byte>, b: seq<Byte>)
    requires Usable(x) && a != [] && !During(hc, x, a).halted
    ensures Usable(Call(hc, x, a))
    ensures Call(hc, Call(hc, x, a), b) == Call(hc, x, a + b) <==> GoesOn(During(hc, x, a), b)
  {
    hide StepSys, Inv, MarkFits, GoesOn;
    EnterLive(x);
    FeedAppend(hc, Enter(x), a, b);
    SplitInvariance(hc, x, a, b);
    FeedUsed(hc, Enter(x), a);
    var s := During(hc, x, a);
    if s.obs.pending.Idle? {
      CleanCut(hc, x, a, b);
      assert GoesOn(s, b) by { IdleGoes(s, b); }
    } else {
      Drops(hc, s, |a|, b);
    }
  }

  lemma IdleGoes(s: Sys, b: seq<Byte>)
    requires s.obs.pending.Idle?
    ensures GoesOn(s, b)
  {
  }
}
