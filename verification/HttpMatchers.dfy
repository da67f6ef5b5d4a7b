/** The incremental matchers recognise exactly the strings they are meant for. */
module HttpMatchers {
  import opened Bytes
  import opened HttpTypes
  import opened HttpStep
  import opened HttpRun
  import opened HttpFeed

  // ----- request methods -----

  /** w starts with the first k characters of name. */
  predicate Spells(w: seq<Byte>, name: string, k: nat) {
    k <= |w| && k <= |name| && forall i :: 0 <= i < k ==> w[i] == name[i] as int
  }

  /** The method under which the first k characters of m are matched. */
  function Rep(m: Method, k: nat): Method {
    match m
    case CHECKOUT => if k <= 1 then CONNECT else m
    case COPY => if k <= 2 then CONNECT else m
    case MOVE => if k <= 1 then MKCOL else m
    case MERGE => if k <= 1 then MKCOL else m
    case MSEARCH => if k <= 1 then MKCOL else m
    case MKACTIVITY => if k <= 2 then MKCOL else m
    case MKCALENDAR => if k <= 3 then MKCOL else m
    case SEARCH => if k <= 1 then SUBSCRIBE else m
    case REBIND => if k <= 2 then REPORT else m
    case PROPFIND => if k <= 1 then POST else m
    case PUT => if k <= 1 then POST else m
    case PATCH => if k <= 1 then POST else m
    case PURGE => if k <= 1 then POST else if k <= 2 then PUT else m
    case PROPPATCH => if k <= 1 then POST else if k <= 4 then PROPFIND else m
    case UNSUBSCRIBE => if k <= 2 then UNLOCK else m
    case UNBIND => if k <= 2 then UNLOCK else m
    case _ => m
  }

  /** The method after one more character, or none if the character fits no method. */
  function MethodStep(m: Method, k: nat, ch: Byte): Option<Method> {
    if ch == At(MethodString(m), k) then Some(m) else SwitchMethod(m, k, ch)
  }

  lemma RepStarts(m: Method)
    ensures var ch := MethodString(m)[0] as int;
            IsAlpha(ch) && StartsMethod(ch) && FirstMethod(ch) == Rep(m, 1)
  {
  }

  lemma RepAdvances(m: Method, k: nat)
    requires 1 <= k < |MethodString(m)|
    ensures MethodStep(Rep(m, k), k, MethodString(m)[k] as int) == Some(Rep(m, k + 1))
  {
  }

  /** A switch goes to a method that starts with what has been read. */
  lemma SwitchSound(m: Method, k: nat, ch: Byte)
    requires SwitchMethod(m, k, ch).Some?
    ensures var n := SwitchMethod(m, k, ch).value;
            k < |MethodString(n)| && k <= |MethodString(m)| && MethodString(n)[k] as int == ch &&
            MethodString(n)[..k] == MethodString(m)[..k]
  {
  }

  /** The parser has read the word w, which so far is how its method begins. */
  predicate Reading(s: Sys, w: seq<Byte>) {
    && Live(s) && s.core.state == Req(ReqMethod) && s.core.index == |w| >= 1
    && Spells(w, MethodString(s.core.mthd), |w|)
  }

  lemma MethodByte(hc: HeadersCallback, s: Sys, w: seq<Byte>, ch: Byte)
    requires Reading(s, w) && ch != SP
    ensures var t := StepSys(hc, s, ch);
            var n := MethodStep(s.core.mthd, |w|, ch);
            if t.halted then n.None? || ch == 0 else n == Some(t.core.mthd) && Reading(t, w + [ch])
  {
    hide MethodString, SwitchMethod, Inv, Spells;
    assert StepRequest(s.core, ch) == InMethod(s.core, ch);
    if MethodStep(s.core.mthd, |w|, ch).Some? && ch != 0 {
      StillSpells(w, s.core.mthd, ch);
    }
  }

  lemma StillSpells(w: seq<Byte>, m: Method, ch: Byte)
    requires Spells(w, MethodString(m), |w|) && MethodStep(m, |w|, ch).Some? && ch != 0
    ensures Spells(w + [ch], MethodString(MethodStep(m, |w|, ch).value), |w| + 1)
  {
    hide MethodString, SwitchMethod;
    var k := |w|;
    if ch != At(MethodString(m), k) {
      var n := SwitchMethod(m, k, ch).value;
      SwitchSound(m, k, ch);
      forall i | 0 <= i < k ensures MethodString(n)[i] == MethodString(m)[i] {
        assert MethodString(n)[..k][i] == MethodString(m)[..k][i];
      }
    }
  }

  lemma MethodFirst(hc: HeadersCallback, s: Sys, ch: Byte)
    requires Live(s) && s.core.state == Req(StartReq) && ch != CR && ch != LF
    ensures var t := StepSys(hc, s, ch);
            && (t.halted <==> !(IsAlpha(ch) && StartsMethod(ch)))
            && (!t.halted ==> t.core.mthd == FirstMethod(ch) && Reading(t, [ch]))
  {
    assert s.core.index >= 0;
    hide Inv;
    assert StepRequest(s.core, ch) == StartRequest(s.core, ch);
  }

  /** No method contains a space or a zero. */
  lemma MethodText(m: Method, i: nat)
    ensures i < |MethodString(m)| ==> MethodString(m)[i] as int != 0 && MethodString(m)[i] as int != SP
  {
    if MethodsBefore(m) { EarlyText(m, i); } else { LateText(m, i); }
  }

  predicate MethodsBefore(m: Method) {
    m.DELETE? || m.GET? || m.HEAD? || m.POST? || m.PUT? || m.CONNECT? || m.OPTIONS? || m.TRACE? || m.COPY? ||
    m.LOCK? || m.MKCOL? || m.MOVE? || m.PROPFIND? || m.PROPPATCH? || m.SEARCH?
  }

  lemma EarlyText(m: Method, i: nat)
    requires MethodsBefore(m)
    ensures i < |MethodString(m)| ==> MethodString(m)[i] as int != 0 && MethodString(m)[i] as int != SP
  {
  }

  lemma LateText(m: Method, i: nat)
    requires !MethodsBefore(m)
    ensures i < |MethodString(m)| ==> MethodString(m)[i] as int != 0 && MethodString(m)[i] as int != SP
  {
  }

  lemma NoSwitchOnSpace(m: Method, i: nat)
    ensures SwitchMethod(m, i, SP).None?
  {
  }

  lemma MethodSpace(hc: HeadersCallback, s: Sys, w: seq<Byte>)
    requires Reading(s, w)
    ensures var t := StepSys(hc, s, SP);
            && (!t.halted <==> |w| == |MethodString(s.core.mthd)|)
            && (!t.halted ==> t.core.state == Req(ReqSpacesBeforeUrl) && t.core.mthd == s.core.mthd)
  {
    assert StepRequest(s.core, SP) == InMethod(s.core, SP);
    MethodText(s.core.mthd, |w|);
    NoSwitchOnSpace(s.core.mthd, |w|);
    hide StepRequest, MethodString, SwitchMethod, Inv;
  }

  /** The parser has taken the word w from its first byte on. */
  lemma {:induction false} ReadWord(hc: HeadersCallback, s: Sys, w: seq<Byte>)
    requires Live(s) && s.core.state == Req(StartReq) && w != [] && SP !in w && w[0] != CR && w[0] != LF
    ensures var t := Feed(hc, s, w);
            && (!t.halted ==> Reading(t, w))
            && forall m :: Spells(w, MethodString(m), |w|) ==> !t.halted && t.core.mthd == Rep(m, |w|)
    decreases |w|
  {
    hide StepSys, Inv, MarkFits, MethodStep, SwitchMethod, MethodString, Rep, FirstMethod, StartsMethod, Spells;
    var n := |w|;
    var init, last := w[..n - 1], w[n - 1];
    assert w == init + [last];
    FeedAppend(hc, s, init, [last]);
    if n == 1 {
      assert w == [last];
      One(hc, s, last);
      WordBegins(hc, s, last);
    } else {
      ReadWord(hc, s, init);
      var t := Feed(hc, s, init);
      if t.halted {
        assert Feed(hc, t, [last]) == t;
      } else {
        One(hc, t, last);
        MethodByte(hc, t, init, last);
      }
      forall m | Spells(w, MethodString(m), |w|)
        ensures !t.halted && MethodStep(t.core.mthd, |init|, last) == Some(Rep(m, |w|)) && last != 0
      {
        WordGoesOn(init, last, m);
      }
    }
  }

  lemma WordBegins(hc: HeadersCallback, s: Sys, ch: Byte)
    requires Live(s) && s.core.state == Req(StartReq) && ch != CR && ch != LF
    ensures var t := StepSys(hc, s, ch);
            && (!t.halted ==> Reading(t, [ch]))
            && forall m :: Spells([ch], MethodString(m), 1) ==> !t.halted && t.core.mthd == Rep(m, 1)
  {
    hide StepSys, Inv, MarkFits, MethodString, Rep, FirstMethod, StartsMethod, Reading;
    MethodFirst(hc, s, ch);
    forall m | Spells([ch], MethodString(m), 1) ensures IsAlpha(ch) && StartsMethod(ch) && FirstMethod(ch) == Rep(m, 1) {
      RepStarts(m);
    }
  }

  lemma WordGoesOn(init: seq<Byte>, last: Byte, m: Method)
    requires init != [] && Spells(init + [last], MethodString(m), |init| + 1)
    ensures Spells(init, MethodString(m), |init|) && MethodStep(Rep(m, |init|), |init|, last) == Some(Rep(m, |init| + 1)) && last != 0
  {
    hide MethodString, Rep, MethodStep;
    var w := init + [last];
    assert forall i :: 0 <= i < |init| ==> init[i] == w[i];
    assert w[|init|] == last;
    RepAdvances(m, |init|);
    MethodText(m, |init|);
  }

  lemma RepEnds(m: Method)
    ensures Rep(m, |MethodString(m)|) == m
  {
  }

  /** A word and a space: the parser goes on to the URL with method m exactly when the word is the
      name of m. */
  lemma MethodExact(hc: HeadersCallback, s: Sys, w: seq<Byte>, m: Method)
    requires Live(s) && s.core.state == Req(StartReq) && w != [] && SP !in w && w[0] != CR && w[0] != LF
    ensures var r := Feed(hc, s, w + [SP]);
            (!r.halted && r.core.state == Req(ReqSpacesBeforeUrl) && r.core.mthd == m)
            <==> |w| == |MethodString(m)| && Spells(w, MethodString(m), |w|)
  {
    hide StepSys, Inv, MarkFits;
    ReadWord(hc, s, w);
    FeedAppend(hc, s, w, [SP]);
    var t := Feed(hc, s, w);
    assert Feed(hc, t, [SP]) == if t.halted then t else StepSys(hc, t, SP);
    RepEnds(m);
    if !t.halted { MethodSpace(hc, t, w); }
  }

  // ----- header names -----

  /** The separators of section 2.2 of RFC 2616, but for space and tab */
  predicate IsSeparator(c: Byte) {
    c == '(' as int || c == ')' as int || c == '<' as int || c == '>' as int || c == '@' as int || c == ',' as int ||
    c == ';' as int || c == ':' as int || c == '\\' as int || c == '"' as int || c == '/' as int || c == '[' as int ||
    c == ']' as int || c == '?' as int || c == '=' as int || c == '{' as int || c == '}' as int
  }

  /** The tokens table knows all printable characters but the separators, and makes letters small. */
  lemma TokenExactly(c: Byte)
    ensures Token(c) == 0 <==> c <= 32 || c >= 127 || IsSeparator(c)
    ensures Token(c) != 0 ==> Token(c) == if 'A' as int <= c <= 'Z' as int then c + 32 else c
  {
  }

  /** Setting bit 5 makes letters small and leaves digits alone, and nothing else becomes a letter. */
  lemma LetterExactly(c: Byte)
    ensures IsAlpha(c) <==> 'A' as int <= c <= 'Z' as int || 'a' as int <= c <= 'z' as int
    ensures IsAlpha(c) ==> Lower(c) == if c <= 'Z' as int then c + 32 else c
    ensures IsNum(c) ==> Lower(c) == c
  {
  }

  predicate IsTokens(n: seq<Byte>) { forall i :: 0 <= i < |n| ==> Token(n[i]) != 0 }

  /** n is the first |n| characters of name, ignoring case. */
  predicate Begins(n: seq<Byte>, name: string) {
    |n| <= |name| && forall i :: 0 <= i < |n| ==> Token(n[i]) == name[i] as int
  }

  predicate Names(n: seq<Byte>, name: string) { |n| == |name| && Begins(n, name) }

  predicate NoName(n: seq<Byte>) {
    !Begins(n, CONNECTION) && !Begins(n, PROXY_CONNECTION) && !Begins(n, CONTENT_LENGTH) &&
    !Begins(n, TRANSFER_ENCODING) && !Begins(n, UPGRADE)
  }

  /** What the header state says about the name read so far. */
  predicate Classified(h: HeaderState, index: int, n: seq<Byte>) {
    match h
    case C => |n| == 1 && index == 0 && Begins(n, CONNECTION)
    case CO => |n| == 2 && index == 1 && Begins(n, CONNECTION)
    case CON => |n| == 3 && index == 2 && Begins(n, CONNECTION)
    case MatchingConnection => 4 <= |n| < |CONNECTION| && index == |n| - 1 && Begins(n, CONNECTION)
    case MatchingProxyConnection => 1 <= |n| < |PROXY_CONNECTION| && index == |n| - 1 && Begins(n, PROXY_CONNECTION)
    case MatchingContentLength => 4 <= |n| < |CONTENT_LENGTH| && index == |n| - 1 && Begins(n, CONTENT_LENGTH)
    case MatchingTransferEncoding => 1 <= |n| < |TRANSFER_ENCODING| && index == |n| - 1 && Begins(n, TRANSFER_ENCODING)
    case MatchingUpgrade => 1 <= |n| < |UPGRADE| && index == |n| - 1 && Begins(n, UPGRADE)
    case Connection => Names(n, CONNECTION) || Names(n, PROXY_CONNECTION)
    case ContentLength => Names(n, CONTENT_LENGTH)
    case TransferEncoding => Names(n, TRANSFER_ENCODING)
    case Upgrade => Names(n, UPGRADE)
    case General => NoName(n)
    case _ => false
  }

  /** One more character keeps a beginning exactly if it is the next one. */
  lemma BeginsMore(n: seq<Byte>, b: Byte, name: string)
    ensures Begins(n + [b], name) <==> Begins(n, name) && |n| < |name| && Token(b) == name[|n|] as int
  {
    if Begins(n + [b], name) {
      forall i | 0 <= i < |n| ensures Token(n[i]) == name[i] as int {
        assert (n + [b])[i] == n[i];
      }
      assert (n + [b])[|n|] == b;
    }
  }

  /** No two of the names agree on their first four characters, except that "connection" and
      "content-length" agree on three. */
  lemma NamesDiffer(n: seq<Byte>)
    ensures |n| >= 1 && (Begins(n, CONNECTION) || Begins(n, CONTENT_LENGTH)) ==> Token(n[0]) == 'c' as int
    ensures |n| >= 1 && Begins(n, PROXY_CONNECTION) ==> Token(n[0]) == 'p' as int
    ensures |n| >= 1 && Begins(n, TRANSFER_ENCODING) ==> Token(n[0]) == 't' as int
    ensures |n| >= 1 && Begins(n, UPGRADE) ==> Token(n[0]) == 'u' as int
    ensures |n| >= 4 && Begins(n, CONNECTION) ==> Token(n[3]) == 'n' as int
    ensures |n| >= 4 && Begins(n, CONTENT_LENGTH) ==> Token(n[3]) == 't' as int
    ensures |n| <= 3 ==> (Begins(n, CONNECTION) <==> Begins(n, CONTENT_LENGTH))
  {
    assert forall i :: 0 <= i < 3 ==> CONNECTION[i] == CONTENT_LENGTH[i];
  }

  lemma NameStarts(b: Byte)
    requires Token(b) != 0
    ensures Classified(NameStart(Token(b)), 0, [b])
  {
    assert [] + [b] == [b];
    BeginsMore([], b, CONNECTION);
    BeginsMore([], b, PROXY_CONNECTION);
    BeginsMore([], b, CONTENT_LENGTH);
    BeginsMore([], b, TRANSFER_ENCODING);
    BeginsMore([], b, UPGRADE);
  }

  lemma NameAdvances(h: HeaderState, index: nat, n: seq<Byte>, b: Byte)
    requires Classified(h, index, n) && n != [] && Token(b) != 0
    ensures var (h1, i1) := NameStep(h, index, Token(b)); Classified(h1, i1, n + [b])
  {
    hide Begins, Token;
    BeginsMore(n, b, CONNECTION);
    BeginsMore(n, b, PROXY_CONNECTION);
    BeginsMore(n, b, CONTENT_LENGTH);
    BeginsMore(n, b, TRANSFER_ENCODING);
    BeginsMore(n, b, UPGRADE);
    NamesDiffer(n);
    NamesDiffer(n + [b]);
    assert (n + [b])[0] == n[0];
  }

  lemma ClassifiedExactly(h: HeaderState, index: int, n: seq<Byte>)
    requires Classified(h, index, n) && n != []
    ensures h == Connection <==> Names(n, CONNECTION) || Names(n, PROXY_CONNECTION)
    ensures h == ContentLength <==> Names(n, CONTENT_LENGTH)
    ensures h == TransferEncoding <==> Names(n, TRANSFER_ENCODING)
    ensures h == Upgrade <==> Names(n, UPGRADE)
  {
    NamesDiffer(n);
    hide Begins, Token;
  }

  /** Reading a name changes nothing else. */
  predicate NamedLike(c: Core, c0: Core) {
    c == c0.(state := c.state, headerState := c.headerState, index := c.index)
  }

  lemma NameByte(hc: HeadersCallback, s: Sys, n: seq<Byte>, b: Byte)
    requires Live(s) && s.core.state == Hdr(HeaderField) && n != [] && Token(b) != 0
    requires s.obs.pending == Collecting(HField, n) && Classified(s.core.headerState, s.core.index, n)
    ensures var t := StepSys(hc, s, b);
            && Live(t) && NamedLike(t.core, s.core) && t.core.state == Hdr(HeaderField) && t.used == s.used + 1
            && t.obs == Obs(s.obs.trace, Collecting(HField, n + [b]))
            && Classified(t.core.headerState, t.core.index, n + [b])
  {
    NameAdvances(s.core.headerState, s.core.index, n, b);
    assert StepHeader(hc, s.core, b) == InField(s.core, b);
    hide StepHeader, Inv, NameStep, Classified;
  }

  lemma NameFirst(hc: HeadersCallback, s: Sys, b: Byte)
    requires Live(s) && s.core.state == Hdr(HeaderFieldStart) && Token(b) != 0
    ensures var t := StepSys(hc, s, b);
            && Live(t) && NamedLike(t.core, s.core) && t.core.state == Hdr(HeaderField) && t.used == s.used + 1
            && t.obs == Obs(s.obs.trace, Collecting(HField, [b]))
            && Classified(t.core.headerState, t.core.index, [b])
  {
    NameStarts(b);
    assert StepHeader(hc, s.core, b) == StartField(hc, s.core, b);
    hide StepHeader, EndHeaders, Inv, NameStart, Classified;
    assert [] + [b] == [b];
  }

  lemma {:induction false} ReadName(hc: HeadersCallback, s: Sys, n: seq<Byte>)
    requires Live(s) && s.core.state == Hdr(HeaderFieldStart) && n != [] && IsTokens(n)
    ensures var t := Feed(hc, s, n);
            && Live(t) && NamedLike(t.core, s.core) && t.core.state == Hdr(HeaderField) && t.used == s.used + |n|
            && t.obs == Obs(s.obs.trace, Collecting(HField, n))
            && Classified(t.core.headerState, t.core.index, n)
    decreases |n|
  {
    hide StepSys, Inv, MarkFits, Classified, Token;
    var init, last := n[..|n| - 1], n[|n| - 1];
    assert n == init + [last];
    FeedAppend(hc, s, init, [last]);
    if init == [] {
      NameFirst(hc, s, last);
      assert Feed(hc, s, [last]) == StepSys(hc, s, last);
    } else {
      ReadName(hc, s, init);
      var t := Feed(hc, s, init);
      NameByte(hc, t, init, last);
      assert Feed(hc, t, [last]) == StepSys(hc, t, last);
    }
  }

  lemma NameColon(hc: HeadersCallback, s: Sys, n: seq<Byte>)
    requires Live(s) && s.core.state == Hdr(HeaderField) && s.obs.pending == Collecting(HField, n)
    ensures var t := StepSys(hc, s, ':' as int);
            && Live(t) && t.core == s.core.(state := Hdr(HeaderValueDiscardWs)) && t.used == s.used + 1
            && t.obs == Obs(Push(s.obs.trace, Data(HField, n)), Idle)
  {
    assert StepHeader(hc, s.core, ':' as int) == InField(s.core, ':' as int);
    hide StepHeader, Inv;
    assert n + [] == n;
  }

  /** A header name is handed over whole, and at the colon it counts as one of the special headers
      exactly if it is that header's name, ignoring case. */
  lemma HeaderNameExact(hc: HeadersCallback, s: Sys, n: seq<Byte>)
    requires Live(s) && s.core.state == Hdr(HeaderFieldStart) && n != [] && IsTokens(n)
    ensures var r := Feed(hc, s, n + [':' as int]);
            && !r.halted && NamedLike(r.core, s.core) && r.core.state == Hdr(HeaderValueDiscardWs) && r.used == s.used + |n| + 1
            && r.obs == Obs(Push(s.obs.trace, Data(HField, n)), Idle)
            && (r.core.headerState == Connection <==> Names(n, CONNECTION) || Names(n, PROXY_CONNECTION))
            && (r.core.headerState == ContentLength <==> Names(n, CONTENT_LENGTH))
            && (r.core.headerState == TransferEncoding <==> Names(n, TRANSFER_ENCODING))
            && (r.core.headerState == Upgrade <==> Names(n, UPGRADE))
  {
    hide StepSys, Inv, MarkFits, Classified, Names;
    var colon: Byte := ':' as int;
    ReadName(hc, s, n);
    FeedAppend(hc, s, n, [colon]);
    var t := Feed(hc, s, n);
    NameColon(hc, t, n);
    assert Feed(hc, t, [colon]) == StepSys(hc, t, colon);
    ClassifiedExactly(t.core.headerState, t.core.index, n);
  }
}
