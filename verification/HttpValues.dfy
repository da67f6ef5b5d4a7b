/** The matchers for the values of Transfer-Encoding and Connection, and the flags they set. */
module HttpValues {
  import opened Bytes
  import opened HttpTypes
  import opened HttpStep
  import opened HttpRun
  import opened HttpFeed
  import opened HttpBody

  // ----- a value, byte for byte -----

  predicate OneLine(w: seq<Byte>) { CR !in w && LF !in w }

  /** The parser after the bytes of a value */
  function ReadValue(c: Core, w: seq<Byte>): Core
    requires c.index >= 0
    decreases |w|
  {
    if w == [] then c else ReadValue(ValueStep(c, w[0]).core, w[1..])
  }

  /** States in which no byte of a value is refused */
  predicate Lenient(h: HeaderState) {
    !h.ContentLength?
  }

  lemma LenientStep(c: Core, ch: Byte)
    requires c.index >= 0 && Lenient(c.headerState)
    ensures var o := ValueStep(c, ch);
            && o.calls == QUIET && o.verdict.Go? && !o.resetNread && o.core.index >= 0 && Lenient(o.core.headerState)
            && o.core == c.(headerState := o.core.headerState, index := o.core.index, flags := o.core.flags)
  {
  }

  lemma ValueByte(hc: HeadersCallback, s: Sys, w: seq<Byte>, ch: Byte)
    requires Live(s) && s.core.state == Hdr(HeaderValue) && Lenient(s.core.headerState) && ch != CR && ch != LF
    requires s.obs.pending == Collecting(HValue, w)
    ensures s.core.index >= 0 && Lenient(ValueStep(s.core, ch).core.headerState)
    ensures StepSys(hc, s, ch) == Sys(ValueStep(s.core, ch).core, Obs(s.obs.trace, Collecting(HValue, w + [ch])), false, s.used + 1)
    ensures Live(StepSys(hc, s, ch)) && StepSys(hc, s, ch).core.state == Hdr(HeaderValue)
  {
    Counted(s.core);
    assert StepHeader(hc, s.core, ch) == ValueStep(s.core, ch);
    LenientStep(s.core, ch);
    hide StepHeader, ValueStep, Inv;
  }

  lemma Counted(c: Core)
    requires Inv(c)
    ensures c.index >= 0
  {
  }

  lemma {:induction false} FeedValue(hc: HeadersCallback, s: Sys, v: seq<Byte>, w: seq<Byte>)
    requires Live(s) && s.core.state == Hdr(HeaderValue) && Lenient(s.core.headerState) && OneLine(w)
    requires s.obs.pending == Collecting(HValue, v)
    ensures s.core.index >= 0
    ensures Feed(hc, s, w) == Sys(ReadValue(s.core, w), Obs(s.obs.trace, Collecting(HValue, v + w)), false, s.used + |w|)
    decreases |w|
  {
    hide StepSys, Inv, MarkFits, ValueStep, Lenient;
    Counted(s.core);
    if w == [] {
      assert v + w == v;
    } else {
      ValueByte(hc, s, v, w[0]);
      FeedValue(hc, StepSys(hc, s, w[0]), v + [w[0]], w[1..]);
      assert v + [w[0]] + w[1..] == v + w;
    }
  }

  lemma {:induction false} ReadAppend(c: Core, a: seq<Byte>, b: seq<Byte>)
    requires c.index >= 0
    ensures ReadValue(c, a).index >= 0 && ReadValue(c, a + b) == ReadValue(ReadValue(c, a), b)
    decreases |a|
  {
    hide ValueStep;
    if a == [] {
      assert a + b == b;
    } else {
      IndexStays(c, a[0]);
      assert (a + b)[0] == a[0] && (a + b)[1..] == a[1..] + b;
      ReadAppend(ValueStep(c, a[0]).core, a[1..], b);
    }
  }

  lemma IndexStays(c: Core, ch: Byte)
    requires c.index >= 0
    ensures ValueStep(c, ch).core.index >= 0
  {
  }

  /** At the end of the line the flag for what has been read is set. */
  lemma LineSetsFlag(hc: HeadersCallback, c: Core, ch: Byte)
    requires c.state == Hdr(HeaderValueLws) && ch != SP && ch != TAB && c.index >= 0
    ensures var f, f2 := SetFlag(c.flags, c.headerState), StepHeader(hc, c, ch).core.flags;
            f2 == f.(skipBody := f2.skipBody)
  {
    hide ShouldKeepAlive;
  }

  // ----- names, ignoring case -----

  /** w is how name begins; bit 5 of a character does not count. */
  predicate Opens(w: seq<Byte>, name: string) {
    |w| <= |name| && forall i :: 0 <= i < |w| ==> Lower(w[i]) == name[i] as int
  }

  predicate Is(w: seq<Byte>, name: string) { |w| == |name| && Opens(w, name) }

  lemma OpensMore(w: seq<Byte>, b: Byte, name: string)
    ensures Opens(w + [b], name) <==> Opens(w, name) && |w| < |name| && Lower(b) == name[|w|] as int
  {
    if Opens(w + [b], name) {
      forall i | 0 <= i < |w| ensures Lower(w[i]) == name[i] as int { assert (w + [b])[i] == w[i]; }
      assert (w + [b])[|w|] == b;
    }
  }

  // ----- Transfer-Encoding -----

  /** "chunked", and spaces behind it */
  predicate Coded(w: seq<Byte>) {
    |w| >= |CHUNKED| && Is(w[..|CHUNKED|], CHUNKED) && forall i :: |CHUNKED| <= i < |w| ==> w[i] == SP
  }

  /** What the header state says about the value read so far */
  predicate TeRead(h: HeaderState, index: int, w: seq<Byte>) {
    match h
    case MatchingTransferEncodingChunked => 1 <= |w| < |CHUNKED| && index == |w| - 1 && Opens(w, CHUNKED)
    case TransferEncodingChunked => Coded(w)
    case General => !Opens(w, CHUNKED) && !Coded(w)
    case _ => false
  }

  lemma TeStep(c: Core, w: seq<Byte>, b: Byte)
    requires c.index >= 0 && w != [] && TeRead(c.headerState, c.index, w)
    ensures var d := ValueStep(c, b).core; TeRead(d.headerState, d.index, w + [b])
  {
    OpensMore(w, b, CHUNKED);
    CodedMore(w, b);
    hide Opens, Coded, Lower, Is;
  }

  lemma CodedMore(w: seq<Byte>, b: Byte)
    ensures Coded(w + [b]) <==> (Coded(w) && b == SP) || (|w| == |CHUNKED| - 1 && Opens(w + [b], CHUNKED))
    ensures Coded(w) && Opens(w, CHUNKED) ==> |w| == |CHUNKED|
    ensures |w| == |CHUNKED| && Opens(w, CHUNKED) ==> Coded(w)
    ensures |w| < |CHUNKED| ==> !Coded(w)
  {
    hide Lower;
    var n := |CHUNKED|;
    if |w| >= n {
      assert (w + [b])[..n] == w[..n];
      assert (w + [b])[|w|] == b && forall i :: 0 <= i < |w| ==> (w + [b])[i] == w[i];
    } else if |w| == n - 1 {
      assert (w + [b])[..n] == w + [b];
    }
    if |w| == n { assert w[..n] == w; }
  }

  lemma {:induction false} TeReads(c: Core, v: seq<Byte>, w: seq<Byte>)
    requires c.index >= 0 && v != [] && TeRead(c.headerState, c.index, v)
    ensures ReadValue(c, w).index >= 0
    ensures var d := ReadValue(c, w); TeRead(d.headerState, d.index, v + w)
    decreases |w|
  {
    hide ValueStep, TeRead;
    if w == [] {
      assert v + w == v;
    } else {
      IndexStays(c, w[0]);
      TeStep(c, v, w[0]);
      TeReads(ValueStep(c, w[0]).core, v + [w[0]], w[1..]);
      assert v + [w[0]] + w[1..] == v + w;
    }
  }

  /** The first byte of a value */
  lemma ValueFirst(hc: HeadersCallback, s: Sys, ch: Byte)
    requires Live(s) && s.core.state == Hdr(HeaderValueDiscardWs) && !s.core.headerState.ContentLength?
    requires ch != SP && ch != TAB && ch != CR && ch != LF
    ensures StepSys(hc, s, ch) ==
            Sys(StartValue(s.core, ch).core, Obs(s.obs.trace, Collecting(HValue, [ch])), false, s.used + 1)
    ensures Live(StepSys(hc, s, ch))
  {
    assert StepHeader(hc, s.core, ch) == StartValue(s.core, ch);
    assert [] + [ch] == [ch];
    Waiting(s);
    hide StepHeader, Inv, ConnectionStart;
  }

  lemma Waiting(s: Sys)
    requires Live(s) && s.core.state == Hdr(HeaderValueDiscardWs)
    ensures s.obs.pending.Idle?
  {
  }

  /** A Transfer-Encoding value is taken for chunked exactly when it is "chunked", ignoring case, with nothing but
      spaces behind it. */
  lemma ChunkedExact(hc: HeadersCallback, s: Sys, w: seq<Byte>)
    requires Live(s) && s.core.state == Hdr(HeaderValueDiscardWs) && s.core.headerState == TransferEncoding
    requires w != [] && w[0] != SP && w[0] != TAB && OneLine(w)
    ensures var r := Feed(hc, s, w);
            && Live(r) && r.core.state == Hdr(HeaderValue) && r.obs == Obs(s.obs.trace, Collecting(HValue, w))
            && (r.core.headerState == TransferEncodingChunked <==> Coded(w))
            && SetFlag(r.core.flags, r.core.headerState) == s.core.flags.(chunked := s.core.flags.chunked || Coded(w))
  {
    hide StepSys, Inv, MarkFits, ValueStep, StartValue, ReadValue, Coded, Opens;
    ValueFirst(hc, s, w[0]);
    var t := StepSys(hc, s, w[0]);
    TeFirst(s.core, w[0]);
    FeedValue(hc, t, [w[0]], w[1..]);
    TeReads(t.core, [w[0]], w[1..]);
    FlagsStay(t.core, w[1..]);
    CodedMore(w, SP);
    assert [w[0]] + w[1..] == w;
    assert Feed(hc, s, w) == Feed(hc, t, w[1..]);
    assert s.core.flags.(chunked := s.core.flags.chunked) == s.core.flags;
  }

  lemma TeFirst(c: Core, ch: Byte)
    requires c.headerState == TransferEncoding
    ensures var d := StartValue(c, ch).core;
            && d.index == 0 && TeRead(d.headerState, 0, [ch]) && d.state == Hdr(HeaderValue) && d.flags == c.flags
  {
    assert [] + [ch] == [ch];
    OpensMore([], ch, CHUNKED);
    CodedMore([], ch);
  }

  predicate TeState(h: HeaderState) {
    h.MatchingTransferEncodingChunked? || h.TransferEncodingChunked? || h.General?
  }

  lemma {:induction false} FlagsStay(c: Core, w: seq<Byte>)
    requires c.index >= 0 && TeState(c.headerState)
    ensures var d := ReadValue(c, w); d == c.(headerState := d.headerState, index := d.index) && TeState(d.headerState)
    decreases |w|
  {
    hide ValueStep, TeState;
    if w != [] {
      FlagsStep(c, w[0]);
      FlagsStay(ValueStep(c, w[0]).core, w[1..]);
    }
  }

  lemma FlagsStep(c: Core, ch: Byte)
    requires c.index >= 0 && TeState(c.headerState)
    ensures var d := ValueStep(c, ch).core;
            d.index >= 0 && d == c.(headerState := d.headerState, index := d.index) && TeState(d.headerState)
  {
  }

  // ----- Connection -----

  /** One token of a list, the white space in front of it, and the number of spaces behind it */
  datatype Item = Item(lead: seq<Byte>, token: seq<Byte>, trail: nat)

  predicate TokenText(t: seq<Byte>) {
    t != [] && forall i :: 0 <= i < |t| ==> Token(t[i]) != 0
  }

  predicate ItemOk(item: Item) {
    TokenText(item.token) && forall i :: 0 <= i < |item.lead| ==> item.lead[i] == SP || item.lead[i] == TAB
  }

  const COMMA: Byte := ',' as int

  function Spaces(n: nat): (s: seq<Byte>)
    ensures |s| == n && forall i :: 0 <= i < n ==> s[i] == SP
  {
    seq(n, _ => SP)
  }

  function Written(items: seq<Item>): seq<Byte>
    decreases |items|
  {
    if items == [] then []
    else items[0].lead + (items[0].token + (Spaces(items[0].trail) +
         (if |items| == 1 then [] else [COMMA] + Written(items[1..]))))
  }

  /** The flag that a token stands for */
  function WithToken(f: Flags, t: seq<Byte>): Flags {
    if Is(t, KEEP_ALIVE) then f.(keepAlive := true)
    else if Is(t, CLOSE) then f.(close := true)
    else if Is(t, UPGRADE) then f.(connUpgrade := true)
    else f
  }

  /** A token that stops inside one of the three names */
  predicate Stub(t: seq<Byte>) {
    Unfinished(t, KEEP_ALIVE) || Unfinished(t, CLOSE) || Unfinished(t, UPGRADE)
  }

  predicate Unfinished(t: seq<Byte>, name: string) { 0 < |t| < |name| && Opens(t, name) }

  /** A token at which the reading of a list ends: a tab stands in front of it, or it starts with an underscore. */
  predicate Stopper(item: Item)
    requires ItemOk(item)
  {
    TAB in item.lead || Token(Lower(item.token[0])) == 0
  }

  predicate ListOk(items: seq<Item>) {
    items != [] && forall i :: 0 <= i < |items| ==> ItemOk(items[i])
  }

  /** The flags that a list sets behind a comma. */
  function Flagged(items: seq<Item>, f: Flags): Flags
    requires ListOk(items)
    decreases |items|, 1
  {
    if Stopper(items[0]) then f else Taken(items, f)
  }

  /** The flags that a list sets whose first token is read: the comma right behind an unfinished name is not seen, so
      that the next token is passed over. */
  function Taken(items: seq<Item>, f: Flags): Flags
    requires ListOk(items)
    decreases |items|, 0
  {
    var item := items[0];
    if Stub(item.token) && item.trail == 0 then (if |items| <= 2 then f else Flagged(items[2..], f))
    else if |items| == 1 then WithToken(f, item.token)
    else Flagged(items[1..], WithToken(f, item.token))
  }

  /** What the header state says about the token read so far */
  predicate ConnRead(h: HeaderState, index: int, t: seq<Byte>) {
    match h
    case MatchingConnectionKeepAlive => Unfinished(t, KEEP_ALIVE) && index == |t| - 1
    case MatchingConnectionClose => Unfinished(t, CLOSE) && index == |t| - 1
    case MatchingConnectionUpgrade => Unfinished(t, UPGRADE) && index == |t| - 1
    case ConnectionKeepAlive => Is(t, KEEP_ALIVE)
    case ConnectionClose => Is(t, CLOSE)
    case ConnectionUpgrade => Is(t, UPGRADE)
    case MatchingConnectionToken => !Stub(t) && !Is(t, KEEP_ALIVE) && !Is(t, CLOSE) && !Is(t, UPGRADE)
    case _ => false
  }

  /** No two of the names start with the same letter. */
  lemma OneName(t: seq<Byte>)
    requires t != []
    ensures Opens(t, KEEP_ALIVE) ==> Lower(t[0]) == 'k' as int
    ensures Opens(t, CLOSE) ==> Lower(t[0]) == 'c' as int
    ensures Opens(t, UPGRADE) ==> Lower(t[0]) == 'u' as int
  {
  }

  lemma ConnFirst(ch: Byte)
    ensures ConnRead(ConnectionStart(Lower(ch), MatchingConnectionToken), 0, [ch])
  {
    assert [] + [ch] == [ch];
    OpensMore([], ch, KEEP_ALIVE);
    OpensMore([], ch, CLOSE);
    OpensMore([], ch, UPGRADE);
    hide Opens, Lower;
  }

  lemma ConnStep(c: Core, t: seq<Byte>, b: Byte)
    requires c.index >= 0 && t != [] && ConnRead(c.headerState, c.index, t) && Token(b) != 0
    ensures var d := ValueStep(c, b).core;
            && d.index >= 0 && ConnRead(d.headerState, d.index, t + [b])
            && d == c.(headerState := d.headerState, index := d.index)
  {
    hide Opens, Lower, Token, Stub, Unfinished, Is;
    TokenGrows(t, b);
    NoSeparator(b);
    if Matching(c.headerState) { NameByte(c, t, b); } else { OtherByte(c, t, b); }
  }

  lemma NoSeparator(b: Byte)
    requires Token(b) != 0
    ensures b != SP && b != COMMA
  {
  }

  /** What one more byte makes of a token */
  lemma TokenGrows(t: seq<Byte>, b: Byte)
    requires t != []
    ensures Is(t, KEEP_ALIVE) || Is(t, CLOSE) || Is(t, UPGRADE) || (!Stub(t) && !Is(t, KEEP_ALIVE) && !Is(t, CLOSE) && !Is(t, UPGRADE)) ==>
              !Stub(t + [b]) && !Is(t + [b], KEEP_ALIVE) && !Is(t + [b], CLOSE) && !Is(t + [b], UPGRADE)
  {
    hide Lower;
    OpensMore(t, b, KEEP_ALIVE);
    OpensMore(t, b, CLOSE);
    OpensMore(t, b, UPGRADE);
    OneName(t);
    hide Opens;
  }

  lemma NameGrows(t: seq<Byte>, b: Byte, name: string)
    requires name == KEEP_ALIVE || name == CLOSE || name == UPGRADE
    requires Unfinished(t, name)
    ensures if Lower(b) != name[|t|] as int
            then !Stub(t + [b]) && !Is(t + [b], KEEP_ALIVE) && !Is(t + [b], CLOSE) && !Is(t + [b], UPGRADE)
            else if |t| + 1 == |name| then Is(t + [b], name) else Unfinished(t + [b], name)
  {
    hide Lower;
    OpensMore(t, b, KEEP_ALIVE);
    OpensMore(t, b, CLOSE);
    OpensMore(t, b, UPGRADE);
    OneName(t);
    hide Opens;
  }

  lemma NameByte(c: Core, t: seq<Byte>, b: Byte)
    requires c.index >= 0 && ConnRead(c.headerState, c.index, t) && Matching(c.headerState)
    ensures var d := ValueStep(c, b).core;
            && d.index >= 0 && ConnRead(d.headerState, d.index, t + [b])
            && d == c.(headerState := d.headerState, index := d.index)
  {
    hide Opens, Lower, Stub, Is;
    match c.headerState
    case MatchingConnectionKeepAlive => NameGrows(t, b, KEEP_ALIVE);
    case MatchingConnectionClose => NameGrows(t, b, CLOSE);
    case MatchingConnectionUpgrade => NameGrows(t, b, UPGRADE);
  }

  lemma OtherByte(c: Core, t: seq<Byte>, b: Byte)
    requires c.index >= 0 && t != [] && ConnRead(c.headerState, c.index, t) && !Matching(c.headerState)
    requires b != SP && b != COMMA
    requires !Stub(t + [b]) && !Is(t + [b], KEEP_ALIVE) && !Is(t + [b], CLOSE) && !Is(t + [b], UPGRADE)
    ensures var d := ValueStep(c, b).core;
            && d.index >= 0 && ConnRead(d.headerState, d.index, t + [b])
            && d == c.(headerState := d.headerState, index := d.index)
  {
    hide Opens, Lower, Stub, Is, MatchStep;
  }

  lemma {:induction false} ConnReads(c: Core, t: seq<Byte>, w: seq<Byte>)
    requires c.index >= 0 && t != [] && ConnRead(c.headerState, c.index, t)
    requires forall i :: 0 <= i < |w| ==> Token(w[i]) != 0
    ensures var d := ReadValue(c, w);
            && d.index >= 0 && ConnRead(d.headerState, d.index, t + w)
            && d == c.(headerState := d.headerState, index := d.index)
    decreases |w|
  {
    hide ValueStep, ConnRead, Token;
    if w == [] {
      assert t + w == t;
    } else {
      ConnStep(c, t, w[0]);
      ConnReads(ValueStep(c, w[0]).core, t + [w[0]], w[1..]);
      assert t + [w[0]] + w[1..] == t + w;
    }
  }

  predicate Finished(h: HeaderState) {
    h.ConnectionKeepAlive? || h.ConnectionClose? || h.ConnectionUpgrade? || h.MatchingConnectionToken?
  }

  lemma {:induction false} SpacesRead(c: Core, t: seq<Byte>, n: nat)
    requires c.index >= 0 && t != [] && ConnRead(c.headerState, c.index, t)
    ensures var d := ReadValue(c, Spaces(n));
            && d.index >= 0 && d == c.(headerState := d.headerState, index := d.index)
            && (Finished(c.headerState) || n == 0 ==> d.headerState == c.headerState)
            && (!Finished(c.headerState) && n > 0 ==> d.headerState == MatchingConnectionToken)
    decreases n
  {
    hide ReadValue;
    if n == 0 {
      assert Spaces(0) == [];
      Nothing(c);
    } else {
      assert Spaces(n) == Spaces(n - 1) + [SP];
      SpacesRead(c, t, n - 1);
      var d := ReadValue(c, Spaces(n - 1));
      ReadAppend(c, Spaces(n - 1), [SP]);
      OneByte(d, SP);
      SpaceStep(d);
      if n == 1 { assert Spaces(0) == []; Nothing(c); }
    }
  }

  lemma Nothing(c: Core)
    requires c.index >= 0
    ensures ReadValue(c, []) == c
  {
  }

  lemma OneByte(c: Core, ch: Byte)
    requires c.index >= 0
    ensures ReadValue(c, [ch]) == ValueStep(c, ch).core
  {
    IndexStays(c, ch);
    assert [ch][1..] == [];
    assert ReadValue(ValueStep(c, ch).core, []) == ValueStep(c, ch).core;
  }

  predicate Matching(h: HeaderState) {
    h.MatchingConnectionKeepAlive? || h.MatchingConnectionClose? || h.MatchingConnectionUpgrade?
  }

  lemma SpaceStep(c: Core)
    requires c.index >= 0 && (Finished(c.headerState) || Matching(c.headerState))
    ensures var d := ValueStep(c, SP).core;
            && d.index >= 0 && d == c.(headerState := d.headerState, index := d.index)
            && d.headerState == if Finished(c.headerState) then c.headerState else MatchingConnectionToken
  {
    NoSpace(c.index + 1);
  }

  lemma NoSpace(i: nat)
    ensures At(KEEP_ALIVE, i) != SP && At(CLOSE, i) != SP && At(UPGRADE, i) != SP
    ensures At(KEEP_ALIVE, i) != COMMA && At(CLOSE, i) != COMMA && At(UPGRADE, i) != COMMA
  {
  }

  /** A comma, behind a token */
  lemma CommaStep(c: Core, t: seq<Byte>)
    requires c.index >= 0 && (Finished(c.headerState) || Matching(c.headerState))
    ensures var d := ValueStep(c, COMMA).core;
            && d.index >= 0 && d == c.(headerState := d.headerState, index := d.index, flags := d.flags)
            && (Finished(c.headerState) ==> d.headerState == MatchingConnectionTokenStart && d.index == 0 &&
                                            d.flags == SetFlag(c.flags, c.headerState))
            && (Matching(c.headerState) ==> d.headerState == MatchingConnectionToken && d.flags == c.flags)
  {
    NoSpace(c.index + 1);
  }

  lemma {:induction false} GeneralStays(c: Core, w: seq<Byte>)
    requires c.index >= 0 && c.headerState == General
    ensures ReadValue(c, w) == c
    decreases |w|
  {
    if w != [] { GeneralStays(c, w[1..]); }
  }

  /** Up to the next comma nothing matters. */
  lemma {:induction false} TokenSkipped(c: Core, w: seq<Byte>)
    requires c.index >= 0 && c.headerState == MatchingConnectionToken && COMMA !in w
    ensures ReadValue(c, w) == c
    decreases |w|
  {
    if w != [] { TokenSkipped(c, w[1..]); }
  }

  lemma {:induction false} LeadRead(c: Core, lead: seq<Byte>)
    requires c.index >= 0 && c.headerState == MatchingConnectionTokenStart
    requires forall i :: 0 <= i < |lead| ==> lead[i] == SP || lead[i] == TAB
    ensures ReadValue(c, lead) == if TAB in lead then c.(headerState := General) else c
    decreases |lead|
  {
    hide ValueStep;
    if lead != [] {
      LeadStep(c, lead[0]);
      assert lead == [lead[0]] + lead[1..];
      if lead[0] == TAB {
        GeneralStays(c.(headerState := General), lead[1..]);
      } else {
        LeadRead(c, lead[1..]);
      }
    }
  }

  lemma LeadStep(c: Core, ch: Byte)
    requires c.index >= 0 && c.headerState == MatchingConnectionTokenStart && (ch == SP || ch == TAB)
    ensures ValueStep(c, ch).core == if ch == TAB then c.(headerState := General) else c
  {
  }

  /** The first byte of a token */
  function Begun(c: Core, ch: Byte): Core {
    c.(headerState := ConnectionStart(Lower(ch), MatchingConnectionToken))
  }

  lemma BeginStep(c: Core, ch: Byte)
    requires c.index >= 0 && c.headerState == MatchingConnectionTokenStart && Token(ch) != 0
    ensures ValueStep(c, ch).core == if Token(Lower(ch)) == 0 then c.(headerState := General) else Begun(c, ch)
  {
    NoSeparator(ch);
    LetterTokens(Lower(ch));
    LowerBlank(ch);
    hide Token, Lower;
  }

  lemma LetterTokens(l: Byte)
    ensures l == 'k' as int || l == 'c' as int || l == 'u' as int ==> Token(l) != 0
  {
  }

  lemma LowerBlank(ch: Byte)
    requires Token(ch) != 0
    ensures Lower(ch) != SP && Lower(ch) != TAB
  {
  }

  /** What follows the token of an item */
  function Behind(items: seq<Item>): seq<Byte>
    requires items != []
  {
    Spaces(items[0].trail) + (if |items| == 1 then [] else [COMMA] + Written(items[1..]))
  }

  /** The flags at the end of the line */
  function AtEnd(c: Core, w: seq<Byte>): Flags
    requires c.index >= 0
  {
    var d := ReadValue(c, w);
    SetFlag(d.flags, d.headerState)
  }

  /** A token that has begun, and the spaces behind it */
  lemma TokenRead(c: Core, item: Item)
    requires c.index == 0 && ItemOk(item) && c == Begun(c, item.token[0])
    ensures var d := ReadValue(c, item.token[1..] + Spaces(item.trail));
            && d.index >= 0 && d.flags == c.flags
            && if Stub(item.token) && item.trail == 0 then Matching(d.headerState)
               else Finished(d.headerState) && SetFlag(c.flags, d.headerState) == WithToken(c.flags, item.token)
  {
    hide ReadValue, ConnectionStart;
    var t := item.token;
    ConnFirst(t[0]);
    assert [t[0]] + t[1..] == t;
    ConnReads(c, [t[0]], t[1..]);
    var d := ReadValue(c, t[1..]);
    SpacesRead(d, t, item.trail);
    ReadAppend(c, t[1..], Spaces(item.trail));
    ReadMeans(d.headerState, d.index, t, c.flags);
  }

  lemma ReadMeans(h: HeaderState, index: int, t: seq<Byte>, f: Flags)
    requires t != [] && ConnRead(h, index, t)
    ensures Matching(h) <==> Stub(t)
    ensures Matching(h) || Finished(h)
    ensures Finished(h) ==> SetFlag(f, h) == WithToken(f, t)
    ensures Stub(t) ==> WithToken(f, t) == f
    ensures SetFlag(f, MatchingConnectionToken) == f
  {
    OneName(t);
    hide Lower;
  }

  /** A list whose first token has begun */
  lemma {:induction false} TakenRead(c: Core, items: seq<Item>)
    requires ListOk(items) && c.index == 0 && c == Begun(c, items[0].token[0])
    ensures AtEnd(c, items[0].token[1..] + Behind(items)) == Taken(items, c.flags)
    decreases |items|, 0
  {
    hide ReadValue, SetFlag, ConnectionStart, Written, Stub, WithToken, TokenText;
    var item := items[0];
    TextThere(item.token);
    var head := item.token[1..] + Spaces(item.trail);
    TokenRead(c, item);
    var d := ReadValue(c, head);
    NoFlag(d);
    if |items| == 1 {
      assert item.token[1..] + Behind(items) == head;
    } else {
      var w := Written(items[1..]);
      assert item.token[1..] + Behind(items) == head + ([COMMA] + w);
      ReadAppend(c, head, [COMMA] + w);
      AfterComma(d, w);
      var e := ValueStep(d, COMMA).core;
      CommaStep(d, item.token);
      if Stub(item.token) && item.trail == 0 {
        SkippedRead(e, items[1..]);
      } else {
        ListRead(e, items[1..]);
      }
    }
  }

  lemma TextThere(t: seq<Byte>)
    requires TokenText(t)
    ensures t != []
  {
  }

  lemma NoFlag(c: Core)
    ensures Matching(c.headerState) || c.headerState.General? || c.headerState.MatchingConnectionToken? ==>
              SetFlag(c.flags, c.headerState) == c.flags
  {
  }

  lemma AfterComma(c: Core, w: seq<Byte>)
    requires c.index >= 0
    ensures ValueStep(c, COMMA).core.index >= 0
    ensures ReadValue(c, [COMMA] + w) == ReadValue(ValueStep(c, COMMA).core, w)
  {
    IndexStays(c, COMMA);
    OneByte(c, COMMA);
    ReadAppend(c, [COMMA], w);
  }

  /** A list whose first item is passed over */
  lemma {:induction false} SkippedRead(c: Core, items: seq<Item>)
    requires ListOk(items) && c.index >= 0 && c.headerState == MatchingConnectionToken
    ensures AtEnd(c, Written(items)) == if |items| == 1 then c.flags else Flagged(items[1..], c.flags)
    decreases |items|, 2
  {
    hide ReadValue, SetFlag;
    var item := items[0];
    var head := item.lead + item.token + Spaces(item.trail);
    NoComma(item);
    TokenSkipped(c, head);
    NoFlag(c);
    if |items| == 1 {
      assert Written(items) == head;
    } else {
      var w := Written(items[1..]);
      assert Written(items) == head + ([COMMA] + w);
      ReadAppend(c, head, [COMMA] + w);
      AfterComma(c, w);
      CommaStep(c, item.token);
      ListRead(ValueStep(c, COMMA).core, items[1..]);
    }
  }

  lemma NoComma(item: Item)
    requires ItemOk(item)
    ensures COMMA !in item.lead + item.token + Spaces(item.trail)
  {
  }

  /** A list behind a comma */
  lemma {:induction false} ListRead(c: Core, items: seq<Item>)
    requires ListOk(items) && c.index == 0 && c.headerState == MatchingConnectionTokenStart
    ensures AtEnd(c, Written(items)) == Flagged(items, c.flags)
    decreases |items|, 1
  {
    hide ReadValue, SetFlag, Taken, ConnectionStart, Token, Lower;
    var item := items[0];
    var t, w := item.token, item.token[1..] + Behind(items);
    assert Written(items) == item.lead + ([t[0]] + w) by { assert t == [t[0]] + t[1..]; }
    LeadRead(c, item.lead);
    ReadAppend(c, item.lead, [t[0]] + w);
    var g := c.(headerState := General);
    NoFlag(g);
    if TAB in item.lead {
      GeneralStays(g, [t[0]] + w);
    } else {
      BeginStep(c, t[0]);
      OneByte(c, t[0]);
      ReadAppend(c, [t[0]], w);
      if Token(Lower(t[0])) == 0 {
        GeneralStays(g, w);
      } else {
        TakenRead(Begun(c, t[0]), items);
      }
    }
  }

  /** A Connection value that is a list of tokens sets exactly these flags at the end of its line. */
  lemma ConnectionExact(hc: HeadersCallback, s: Sys, items: seq<Item>)
    requires Live(s) && s.core.state == Hdr(HeaderValueDiscardWs) && s.core.headerState == Connection
    requires ListOk(items) && items[0].lead == []
    ensures var r, w := Feed(hc, s, Written(items)), Written(items);
            && Live(r) && r.core.state == Hdr(HeaderValue) && r.obs == Obs(s.obs.trace, Collecting(HValue, w))
            && SetFlag(r.core.flags, r.core.headerState) == Taken(items, s.core.flags)
  {
    hide StepSys, Inv, MarkFits, ValueStep, StartValue, ReadValue, Taken, SetFlag, ConnectionStart;
    var t, w := items[0].token, Written(items);
    var rest := items[0].token[1..] + Behind(items);
    assert w == [t[0]] + rest by { assert t == [t[0]] + t[1..]; }
    FirstByte(items);
    ValueFirst(hc, s, t[0]);
    var u := StepSys(hc, s, t[0]);
    ConnStart(s.core, t[0]);
    WrittenOneLine(items);
    assert OneLine(rest) by { assert w[1..] == rest; }
    FeedValue(hc, u, [t[0]], rest);
    TakenRead(u.core, items);
    LenientReads(u.core, rest);
    assert w[0] == t[0] && w[1..] == rest;
    assert Feed(hc, s, w) == Feed(hc, u, rest);
  }

  lemma FirstByte(items: seq<Item>)
    requires ListOk(items)
    ensures var ch := items[0].token[0]; ch != SP && ch != TAB && ch != CR && ch != LF
  {
    assert Token(items[0].token[0]) != 0;
  }

  lemma ConnStart(c: Core, ch: Byte)
    requires c.headerState == Connection
    ensures var d := StartValue(c, ch).core;
            d == Begun(d, ch) && d.index == 0 && d.state == Hdr(HeaderValue) && d.flags == c.flags && Lenient(d.headerState)
  {
  }

  lemma {:induction false} LenientReads(c: Core, w: seq<Byte>)
    requires c.index >= 0 && Lenient(c.headerState)
    ensures var d := ReadValue(c, w); d == c.(headerState := d.headerState, index := d.index, flags := d.flags)
    decreases |w|
  {
    hide ValueStep, Lenient;
    if w != [] {
      LenientStep(c, w[0]);
      LenientReads(ValueStep(c, w[0]).core, w[1..]);
    }
  }

  lemma {:induction false} WrittenOneLine(items: seq<Item>)
    requires forall i :: 0 <= i < |items| ==> ItemOk(items[i])
    ensures OneLine(Written(items))
    decreases |items|
  {
    if items != [] {
      ItemOneLine(items[0]);
      WrittenOneLine(items[1..]);
    }
  }

  lemma ItemOneLine(item: Item)
    requires ItemOk(item)
    ensures OneLine(item.lead) && OneLine(item.token) && OneLine(Spaces(item.trail))
  {
  }

  /** The comma right behind a token like this is not seen. */
  predicate Swallows(item: Item) {
    Stub(item.token) && item.trail == 0
  }

  /** Is token i read as a token?  The first one is.  Another one is unless the reading stops at it, if the token in front
      of it has been read with its comma, or the one before that has been read and its comma swallowed. */
  predicate Heard(items: seq<Item>, i: nat)
    requires ListOk(items) && i < |items|
    decreases i
  {
    i == 0 ||
    (!Stopper(items[i]) &&
     ((Heard(items, i - 1) && !Swallows(items[i - 1])) || (i >= 2 && Heard(items, i - 2) && Swallows(items[i - 2]))))
  }

  lemma {:induction false} HeardNext(items: seq<Item>, i: nat)
    requires ListOk(items) && i + 1 < |items| && !Swallows(items[0])
    ensures Heard(items, i + 1) <==> !Stopper(items[1]) && Heard(items[1..], i)
    decreases i
  {
    hide Swallows, Stopper, ItemOk;
    assert items[1..][i] == items[i + 1];
    if i >= 1 { HeardNext(items, i - 1); }
    if i >= 2 { HeardNext(items, i - 2); }
  }

  lemma {:induction false} HeardLater(items: seq<Item>, i: nat)
    requires ListOk(items) && i + 2 < |items| && Swallows(items[0])
    ensures Heard(items, i + 2) <==> !Stopper(items[2]) && Heard(items[2..], i)
    decreases i
  {
    hide Swallows, Stopper, ItemOk;
    assert items[2..][i] == items[i + 2] && !Heard(items, 1);
    if i >= 1 { HeardLater(items, i - 1); }
    if i >= 2 { HeardLater(items, i - 2); }
  }

  predicate AnyHeard(items: seq<Item>, name: string)
    requires ListOk(items)
  {
    exists i :: 0 <= i < |items| && Heard(items, i) && Is(items[i].token, name)
  }

  predicate Occurs(items: seq<Item>, name: string) {
    exists i :: 0 <= i < |items| && Is(items[i].token, name)
  }

  /** The tokens that are heard behind the first one, and that one */
  lemma AnyFrom(items: seq<Item>, name: string, n: nat)
    requires ListOk(items) && name in [KEEP_ALIVE, CLOSE, UPGRADE] && n == (if Swallows(items[0]) then 2 else 1)
    ensures AnyHeard(items, name) <==>
            Is(items[0].token, name) || (n < |items| && !Stopper(items[n]) && AnyHeard(items[n..], name))
  {
    hide Stopper, ItemOk, Is, Stub;
    if Is(items[0].token, name) { assert Heard(items, 0); }
    if AnyHeard(items, name) && !Is(items[0].token, name) {
      var i :| 0 <= i < |items| && Heard(items, i) && Is(items[i].token, name);
      assert i >= n;
      Shift(items, i, n);
    }
    if n < |items| && !Stopper(items[n]) && AnyHeard(items[n..], name) {
      var i :| 0 <= i < |items[n..]| && Heard(items[n..], i) && Is(items[n..][i].token, name);
      Shift(items, i + n, n);
    }
  }

  lemma Shift(items: seq<Item>, i: nat, n: nat)
    requires ListOk(items) && n <= i < |items| && n == (if Swallows(items[0]) then 2 else 1)
    ensures items[n..][i - n] == items[i]
    ensures Heard(items, i) <==> !Stopper(items[n]) && Heard(items[n..], i - n)
  {
    hide Stopper, ItemOk, Swallows;
    if n == 1 { HeardNext(items, i - 1); } else { HeardLater(items, i - 2); }
  }

  lemma SwallowerIsNone(item: Item)
    requires Swallows(item)
    ensures !Is(item.token, KEEP_ALIVE) && !Is(item.token, CLOSE) && !Is(item.token, UPGRADE)
  {
    OneName(item.token);
  }

  lemma TakenFrom(items: seq<Item>, f: Flags, n: nat)
    requires ListOk(items) && n == (if Swallows(items[0]) then 2 else 1)
    ensures var g := if n == 2 then f else WithToken(f, items[0].token);
            Taken(items, f) == if n < |items| && !Stopper(items[n]) then Taken(items[n..], g) else g
  {
    hide Is, Stub, Stopper, ItemOk, WithToken;
  }

  /** Each flag is set exactly if its token is heard. */
  lemma {:induction false} HeardSets(items: seq<Item>, f: Flags)
    requires ListOk(items)
    ensures var g := Taken(items, f);
            && (g.keepAlive <==> f.keepAlive || AnyHeard(items, KEEP_ALIVE))
            && (g.close <==> f.close || AnyHeard(items, CLOSE))
            && (g.connUpgrade <==> f.connUpgrade || AnyHeard(items, UPGRADE))
            && g == f.(keepAlive := g.keepAlive, close := g.close, connUpgrade := g.connUpgrade)
    decreases |items|
  {
    hide Is, Stub, Swallows, Stopper, ItemOk, Heard, AnyHeard, WithToken, Taken, Flagged;
    var n := if Swallows(items[0]) then 2 else 1;
    TakenFrom(items, f, n);
    AnyFrom(items, KEEP_ALIVE, n);
    AnyFrom(items, CLOSE, n);
    AnyFrom(items, UPGRADE, n);
    if n == 2 { SwallowerIsNone(items[0]); } else { OneFlag(f, items[0].token); }
    if n < |items| && !Stopper(items[n]) {
      HeardSets(items[n..], if n == 2 then f else WithToken(f, items[0].token));
    }
  }

  /** The flags that all tokens of a list ask for */
  function Asked(items: seq<Item>, f: Flags): Flags
    decreases |items|
  {
    if items == [] then f else Asked(items[1..], WithToken(f, items[0].token))
  }

  lemma {:induction false} AskedFlags(items: seq<Item>, f: Flags)
    ensures var g := Asked(items, f);
            && (g.keepAlive <==> f.keepAlive || Occurs(items, KEEP_ALIVE))
            && (g.close <==> f.close || Occurs(items, CLOSE))
            && (g.connUpgrade <==> f.connUpgrade || Occurs(items, UPGRADE))
            && g == f.(keepAlive := g.keepAlive, close := g.close, connUpgrade := g.connUpgrade)
    decreases |items|
  {
    hide Is, WithToken, Occurs;
    if items == [] {
      NoneOccurs(items, KEEP_ALIVE);
      NoneOccurs(items, CLOSE);
      NoneOccurs(items, UPGRADE);
    } else {
      OneFlag(f, items[0].token);
      OccursFrom(items, KEEP_ALIVE);
      OccursFrom(items, CLOSE);
      OccursFrom(items, UPGRADE);
      AskedFlags(items[1..], WithToken(f, items[0].token));
    }
  }

  lemma NoneOccurs(items: seq<Item>, name: string)
    ensures items == [] ==> !Occurs(items, name)
  {
  }

  lemma OccursFrom(items: seq<Item>, name: string)
    requires items != []
    ensures Occurs(items, name) <==> Is(items[0].token, name) || Occurs(items[1..], name)
  {
    hide Is;
    if Occurs(items[1..], name) {
      var i :| 0 <= i < |items[1..]| && Is(items[1..][i].token, name);
      assert items[i + 1] == items[1..][i];
    }
    if Occurs(items, name) && !Is(items[0].token, name) {
      var i :| 0 <= i < |items| && Is(items[i].token, name);
      assert items[1..][i - 1] == items[i];
    }
  }

  /** Nothing new is asked for out of hearing. */
  predicate AllHeard(items: seq<Item>, f: Flags)
    requires ListOk(items)
  {
    && (Occurs(items, KEEP_ALIVE) ==> f.keepAlive || AnyHeard(items, KEEP_ALIVE))
    && (Occurs(items, CLOSE) ==> f.close || AnyHeard(items, CLOSE))
    && (Occurs(items, UPGRADE) ==> f.connUpgrade || AnyHeard(items, UPGRADE))
  }

  /** A list sets what all its tokens ask for exactly if each name in it whose flag is not set yet is heard at least
      once. */
  lemma ListMeans(items: seq<Item>, f: Flags)
    requires ListOk(items)
    ensures Taken(items, f) == Asked(items, f) <==> AllHeard(items, f)
  {
    hide Is, Heard, Taken, Asked, ItemOk;
    HeardSets(items, f);
    AskedFlags(items, f);
    forall name | name in [KEEP_ALIVE, CLOSE, UPGRADE] && AnyHeard(items, name) ensures Occurs(items, name) {
      var i :| 0 <= i < |items| && Heard(items, i) && Is(items[i].token, name);
    }
    assert KEEP_ALIVE in [KEEP_ALIVE, CLOSE, UPGRADE] && CLOSE in [KEEP_ALIVE, CLOSE, UPGRADE] && UPGRADE in [KEEP_ALIVE, CLOSE, UPGRADE];
  }

  /** That is so if no token swallows a comma or stops the reading. */
  lemma PlainList(items: seq<Item>, f: Flags)
    requires ListOk(items)
    requires forall i :: 0 <= i < |items| ==> !Swallows(items[i]) && (i > 0 ==> !Stopper(items[i]))
    ensures Taken(items, f) == Asked(items, f)
  {
    hide Is, Swallows, Stopper, Taken, Asked, ItemOk, Heard;
    forall i | 0 <= i < |items| ensures Heard(items, i) { PlainHeard(items, i); }
    assert AllHeard(items, f);
    ListMeans(items, f);
  }

  lemma {:induction false} PlainHeard(items: seq<Item>, i: nat)
    requires ListOk(items) && i < |items|
    requires forall i :: 0 <= i < |items| ==> !Swallows(items[i]) && (i > 0 ==> !Stopper(items[i]))
    ensures Heard(items, i)
    decreases i
  {
    hide Swallows, Stopper, ItemOk;
    if i > 0 { PlainHeard(items, i - 1); }
  }

  /** A Connection value that is a list of tokens has at the end of its line set what its tokens ask for, exactly if each
      name in it whose flag was not set is heard. */
  lemma ConnectionMeans(hc: HeadersCallback, s: Sys, items: seq<Item>)
    requires Live(s) && s.core.state == Hdr(HeaderValueDiscardWs) && s.core.headerState == Connection
    requires ListOk(items) && items[0].lead == []
    ensures var r := Feed(hc, s, Written(items));
            Live(r) && (SetFlag(r.core.flags, r.core.headerState) == Asked(items, s.core.flags) <==> AllHeard(items, s.core.flags))
  {
    hide StepSys, Inv, MarkFits, Taken, Asked, AllHeard, Written, SetFlag;
    ConnectionExact(hc, s, items);
    ListMeans(items, s.core.flags);
  }

  lemma OneFlag(f: Flags, t: seq<Byte>)
    ensures var g := WithToken(f, t);
            && (g.keepAlive <==> f.keepAlive || Is(t, KEEP_ALIVE)) && (g.close <==> f.close || Is(t, CLOSE))
            && (g.connUpgrade <==> f.connUpgrade || Is(t, UPGRADE))
            && g == f.(keepAlive := g.keepAlive, close := g.close, connUpgrade := g.connUpgrade)
  {
    if t != [] { OneName(t); }
  }

  /** But "k,close" does not ask for the connection to be closed. */
  lemma CloseUnseen(f: Flags)
    ensures var items := [Item([], [107], 0), Item([], [99, 108, 111, 115, 101], 0)];
            && ListOk(items) && Is(items[1].token, CLOSE) && Written(items) == [107, 44, 99, 108, 111, 115, 101]
            && Taken(items, f) == f
  {
    hide Written, Is, Stub;
    var k, close := Item([], [107], 0), Item([], [99, 108, 111, 115, 101], 0);
    assert ItemOk(k) && ItemOk(close);
    KIsStub();
    CloseIs();
    PairWritten(k, close);
  }

  lemma KIsStub()
    ensures Stub([107])
  {
    assert Unfinished([107], KEEP_ALIVE);
  }

  lemma CloseIs()
    ensures Is([99, 108, 111, 115, 101], CLOSE)
  {
  }

  lemma PairWritten(a: Item, b: Item)
    requires a.lead == b.lead == [] && a.trail == b.trail == 0
    ensures Written([a, b]) == a.token + [COMMA] + b.token
  {
    assert Spaces(0) == [] && [a, b][1..] == [b];
    assert Written([b]) == b.token;
  }
}
