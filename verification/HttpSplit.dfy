/** Cutting the input into calls at any place: what stays the same, and when the callbacks do. */
module HttpSplit {
  import opened Bytes
  import opened HttpTypes
  import opened HttpStep
  import opened HttpRun
  import opened HttpFeed
  import opened HttpMatchers

  lemma PushJoins(t: seq<Event>, k: Kind, w: seq<Byte>, v: seq<Byte>)
    ensures Push(Push(t, Data(k, w)), Data(k, v)) == Push(t, Data(k, w + v))
  {
    var p := Push(t, Data(k, w));
    assert p[|p| - 1].kind == k;
    if |t| > 0 && t[|t| - 1].Data? && t[|t| - 1].kind == k {
      assert t[|t| - 1].bytes + w + v == t[|t| - 1].bytes + (w + v);
    }
    assert p[..|p| - 1] + [Data(k, p[|p| - 1].bytes + v)] == Push(t, Data(k, w + v));
  }

  lemma PushDiffers(t: seq<Event>, k: Kind, w: seq<Byte>)
    requires w != []
    ensures Push(t, Data(k, w)) != t
  {
    if |t| > 0 && t[|t| - 1].Data? && t[|t| - 1].kind == k {
      assert |t[|t| - 1].bytes + w| != |t[|t| - 1].bytes|;
      assert Push(t, Data(k, w))[|t| - 1] != t[|t| - 1];
    }
  }

  /** y has handed over w, the part before the split of data that x is still collecting. */
  predicate Ahead(x: Obs, y: Obs, w: seq<Byte>) {
    && x.pending.Collecting? && w != []
    && y.trace == Push(x.trace, Data(x.pending.kind, w))
    && match y.pending
       case Collecting(k, v) => k == x.pending.kind && x.pending.bytes == w + v
       case Idle => x.pending.kind == Body && x.pending.bytes == w
  }

  /** x runs on over the split, y was resumed after it and has consumed n bytes since. */
  ghost predicate SameObs(x: Obs, y: Obs, n: nat) {
    if x == y then x.pending.Collecting? ==> |x.pending.bytes| <= n
    else exists w :: Ahead(x, y, w) && |x.pending.bytes| == |w| + n
  }

  lemma SetMarkAhead(x: Obs, y: Obs, w: seq<Byte>, k: Kind)
    requires Ahead(x, y, w) && k == x.pending.kind
    ensures Ahead(SetMark(x, k), SetMark(y, k), w) && SetMark(x, k) == x
    ensures SetMark(y, k).pending.Collecting?
  {
  }

  lemma HandOverAhead(x: Obs, y: Obs, w: seq<Byte>, k: Kind, extra: seq<Byte>)
    requires Ahead(x, y, w) && k == x.pending.kind
    requires y.pending.Collecting? || extra == []
    ensures HandOver(x, k, extra) == HandOver(y, k, extra)
    ensures HandOver(x, k, extra).pending.Idle?
  {
    if y.pending.Collecting? {
      var v := y.pending.bytes;
      PushJoins(x.trace, k, w, v + extra);
      assert w + v + extra == w + (v + extra);
    } else {
      assert w + extra == w;
    }
  }

  lemma AbsorbAhead(x: Obs, y: Obs, w: seq<Byte>, ch: Byte)
    requires Ahead(x, y, w) && y.pending.Collecting?
    ensures Ahead(Absorb(x, ch), Absorb(y, ch), w)
    ensures |Absorb(x, ch).pending.bytes| == |x.pending.bytes| + 1
  {
    assert w + y.pending.bytes + [ch] == w + (y.pending.bytes + [ch]);
  }

  lemma ObserveAhead(x: Obs, y: Obs, w: seq<Byte>, c: Calls, ch: Byte)
    requires Orderly(Open(x.pending), c) && Orderly(Open(y.pending), c)
    requires Ahead(x, y, w)
    ensures if c.flush.Some?
            then Observe(x, c, ch) == Observe(y, c, ch) && Observe(x, c, ch).pending.Idle?
            else Ahead(Observe(x, c, ch), Observe(y, c, ch), w) && Observe(x, c, ch) == x
    ensures c.mark.Some? && c.flush.None? ==> Observe(y, c, ch).pending.Collecting?
    ensures y.pending.Collecting? && c.flush.None? ==> Observe(y, c, ch).pending.Collecting?
  {
    var x2 := if c.mark.Some? then SetMark(x, c.mark.value) else x;
    var y2 := if c.mark.Some? then SetMark(y, c.mark.value) else y;
    if c.mark.Some? { SetMarkAhead(x, y, w, c.mark.value); }
    if c.flush.Some? {
      HandOverAhead(x2, y2, w, c.flush.value, if c.withByte then [ch] else []);
    }
  }

  // ----- one step on both sides -----

  /** x is a run over the whole input, y the run of a second call that started at byte n. */
  ghost predicate SameRun(x: Sys, y: Sys, n: nat) {
    && x.core == y.core && x.halted == y.halted && x.used == n + y.used
    && SameObs(x.obs, y.obs, y.used)
  }

  /** In a body state with its mark open, a byte that is accepted belongs to the body or hands
      it over. */
  lemma BodyBusy(c: Core, ch: Byte)
    requires MarkFits(c.state, Some(Body))
    ensures c.state.Msg?
    ensures !StepBody(c, ch).verdict.Fail? ==>
              StepBody(c, ch).calls.mark.Some? || StepBody(c, ch).calls.flush.Some?
  {
  }

  lemma ObserveBounded(o: Obs, c: Calls, ch: Byte, n: nat)
    requires o.pending.Collecting? ==> |o.pending.bytes| <= n
    ensures var p := Observe(o, c, ch).pending; p.Collecting? ==> |p.bytes| <= n
    ensures var p := Absorb(Observe(o, c, ch), ch).pending; p.Collecting? ==> |p.bytes| <= n + 1
  {
  }

  /** One byte on both sides of the observer; go says that the byte is accepted. */
  lemma SameObserve(x: Obs, y: Obs, n: nat, c: Calls, ch: Byte, go: bool)
    requires SameObs(x, y, n) && Orderly(Open(x.pending), c) && Orderly(Open(y.pending), c)
    requires go && x != y && y.pending.Idle? ==> c.mark.Some? || c.flush.Some?
    ensures go ==> SameObs(Absorb(Observe(x, c, ch), ch), Absorb(Observe(y, c, ch), ch), n + 1)
    ensures !go ==> SameObs(Observe(x, c, ch), Observe(y, c, ch), n)
  {
    if x == y {
      ObserveBounded(x, c, ch, n);
    } else {
      var w :| Ahead(x, y, w) && |x.pending.bytes| == |w| + n;
      ObserveAhead(x, y, w, c, ch);
      hide Observe, Orderly;
      if c.flush.None? && go {
        AbsorbAhead(Observe(x, c, ch), Observe(y, c, ch), w, ch);
      }
    }
  }

  lemma SameStep(hc: HeadersCallback, x: Sys, y: Sys, n: nat, ch: Byte)
    requires Live(x) && Live(y) && SameRun(x, y, n)
    ensures SameRun(StepSys(hc, x, ch), StepSys(hc, y, ch), n)
  {
    StepMarks(hc, x.core, ch, Open(x.obs.pending));
    StepMarks(hc, x.core, ch, Open(y.obs.pending));
    if x.obs != y.obs && y.obs.pending.Idle? { BodyBusy(x.core, ch); }
    hide StepBody, Inv, Kept, Observe, Absorb, Orderly, SameObs, MarkFits;
    var o := Step(hc, x.core, ch);
    SameObserve(x.obs, y.obs, y.used, o.calls, ch, !o.verdict.Fail?);
  }

  lemma {:induction false} SameFeed(hc: HeadersCallback, x: Sys, y: Sys, n: nat, b: seq<Byte>)
    requires Live(x) && Live(y) && SameRun(x, y, n)
    ensures SameRun(Feed(hc, x, b), Feed(hc, y, b), n)
    decreases |b|
  {
    hide StepSys, Inv, MarkFits, SameObs;
    if b != [] {
      SameStep(hc, x, y, n, b[0]);
      var x1, y1 := StepSys(hc, x, b[0]), StepSys(hc, y, b[0]);
      if !x1.halted { SameFeed(hc, x1, y1, n, b[1..]); }
    }
  }

  // ----- the end of the first call -----

  lemma {:induction false} FeedUsed(hc: HeadersCallback, s: Sys, a: seq<Byte>)
    requires Live(s)
    ensures Feed(hc, s, a).used <= s.used + |a|
    ensures !Feed(hc, s, a).halted ==> Feed(hc, s, a).used == s.used + |a|
    ensures !Feed(hc, s, a).halted && a != [] && Feed(hc, s, a).obs.pending.Collecting? ==>
              Feed(hc, s, a).obs.pending.bytes != []
    decreases |a|
  {
    hide Step, Inv, MarkFits, Observe;
    if a != [] {
      var t := StepSys(hc, s, a[0]);
      if !t.halted {
        FeedUsed(hc, t, a[1..]);
        if |a| == 1 { assert Feed(hc, t, a[1..]) == t; }
      }
    }
  }

  lemma Resume(s: Sys, n: nat)
    requires Live(s) && s.used == n
    requires s.obs.pending.Collecting? ==> s.obs.pending.bytes != []
    ensures SameRun(s, Enter(Leave(s)), n) && Live(Enter(Leave(s)))
  {
    hide Inv;
    var y := Enter(Leave(s));
    if s.obs.pending.Collecting? {
      assert Ahead(s.obs, y.obs, s.obs.pending.bytes) by {
        assert s.obs.pending.bytes + [] == s.obs.pending.bytes;
      }
      PushDiffers(s.obs.trace, s.obs.pending.kind, s.obs.pending.bytes);
    }
  }

  // ----- split invariance -----

  /** The run stopped while data was being collected that lies partly before byte n: that data is
      handed over only if the input was cut there. */
  predicate StopsInData(s: Sys, n: nat) {
    s.halted && s.obs.pending.Collecting? && s.used < n + |s.obs.pending.bytes|
  }

  /** However the input is cut, the parser ends in the same state after the same number of bytes.
      The callbacks, joined, are the same too, except exactly when the parser stops with an error
      inside a string that began before the cut: its first part has then been handed over by the
      first call, while a single call drops the whole string. */
  lemma SplitInvariance(hc: HeadersCallback, x: Conn, a: seq<Byte>, b: seq<Byte>)
    requires Usable(x) && a != [] && !During(hc, x, a).halted
    ensures Usable(Call(hc, x, a))
    ensures During(hc, x, a).used == |a|
    ensures var whole, rest := During(hc, x, a + b), During(hc, Call(hc, x, a), b);
            && rest.core == whole.core && rest.halted == whole.halted
            && whole.used == |a| + rest.used
            && (Leave(rest).trace == Leave(whole).trace <==> !StopsInData(whole, |a|))
  {
    var s := During(hc, x, a);
    FeedAppend(hc, Enter(x), a, b);
    FeedUsed(hc, Enter(x), a);
    Resume(s, |a|);
    var y := Enter(Leave(s));
    SameFeed(hc, s, y, |a|, b);
    var whole, rest := Feed(hc, s, b), Feed(hc, y, b);
    hide Feed, Inv, MarkFits;
    if whole.obs != rest.obs {
      var w :| Ahead(whole.obs, rest.obs, w) && |whole.obs.pending.bytes| == |w| + rest.used;
      PushDiffers(whole.obs.trace, whole.obs.pending.kind, w);
      if !whole.halted {
        if rest.obs.pending.Collecting? {
          PushJoins(whole.obs.trace, whole.obs.pending.kind, w, rest.obs.pending.bytes);
        }
      }
    }
  }

  /** A cut that no string straddles changes nothing. */
  lemma CleanCut(hc: HeadersCallback, x: Conn, a: seq<Byte>, b: seq<Byte>)
    requires Usable(x) && a != [] && !During(hc, x, a).halted && During(hc, x, a).obs.pending.Idle?
    ensures Usable(Call(hc, x, a)) && Call(hc, Call(hc, x, a), b) == Call(hc, x, a + b)
  {
    hide StepSys, Inv, MarkFits, SameObs;
    EnterLive(x);
    FeedAppend(hc, Enter(x), a, b);
    FeedUsed(hc, Enter(x), a);
    var s := During(hc, x, a);
    CollectsSince(hc, s, b);
    SplitInvariance(hc, x, a, b);
  }

  lemma {:induction false} CollectsSince(hc: HeadersCallback, s: Sys, b: seq<Byte>)
    requires Live(s)
    ensures var r := Feed(hc, s, b);
            r.obs.pending.Collecting? ==> |r.obs.pending.bytes| <= |Collected(s.obs.pending)| + r.used - s.used
    decreases |b|
  {
    hide StepSys, Inv, MarkFits;
    if b != [] {
      var t := StepSys(hc, s, b[0]);
      StepCollects(hc, s, b[0]);
      assert Feed(hc, s, b) == Feed(hc, t, b[1..]);
      if !t.halted { CollectsSince(hc, t, b[1..]); }
    }
  }

  lemma StepCollects(hc: HeadersCallback, s: Sys, ch: Byte)
    requires Live(s)
    ensures var t := StepSys(hc, s, ch);
            && s.used <= t.used && |Collected(t.obs.pending)| <= |Collected(s.obs.pending)| + t.used - s.used
            && Good(t)
  {
    hide Step, Inv, MarkFits;
  }

  /** A letter in a path joins the URL. */
  lemma PathByte(hc: HeadersCallback, s: Sys, ch: Byte)
    requires Live(s) && s.core.state == Uri(ReqPath) && s.obs.pending.Collecting? && ch == 'a' as int
    ensures StepSys(hc, s, ch) ==
            s.(obs := s.obs.(pending := Collecting(s.obs.pending.kind, s.obs.pending.bytes + [ch])), used := s.used + 1)
    ensures Live(StepSys(hc, s, ch))
  {
  }

  /** A control byte in a path ends the run. */
  lemma BadByte(hc: HeadersCallback, s: Sys, ch: Byte)
    requires Live(s) && s.core.state == Uri(ReqPath) && ch == 1
    ensures var u := StepSys(hc, s, ch);
            u.halted && u.obs == s.obs && u.core == Step(hc, s.core, ch).core
  {
  }

  /** Where the traces do differ: in the path of a URL, a path byte and then a control byte. */
  lemma CutBeforeError(hc: HeadersCallback, x: Conn)
    requires Usable(x) && x.core.state == Uri(ReqPath)
    ensures var a, b := ['a' as int], [1];
            && !During(hc, x, a).halted
            && Call(hc, Call(hc, x, a), b).trace == Push(x.trace, Data(Url, ['a' as int]))
            && Call(hc, x, a + b).trace == x.trace
            && Call(hc, x, a + b).core == Call(hc, Call(hc, x, a), b).core
  {
    hide StepSys, Step, Inv, MarkFits;
    var a: seq<Byte>, b: seq<Byte> := ['a' as int], [1];
    EnterLive(x);
    var s := Enter(x);
    PathByte(hc, s, a[0]);
    var t := StepSys(hc, s, a[0]);
    assert [] + [a[0]] == a;
    assert Feed(hc, s, a) == Feed(hc, t, []);
    SplitInvariance(hc, x, a, b);
    BadByte(hc, t, b[0]);
    assert (a + b)[0] == a[0] && (a + b)[1..] == b;
    assert Feed(hc, s, a + b) == Feed(hc, t, b);
    assert Feed(hc, t, b) == Feed(hc, StepSys(hc, t, b[0]), []);
    EnterLive(Leave(t));
    var y := Enter(Leave(t));
    BadByte(hc, y, b[0]);
    assert Feed(hc, y, b) == Feed(hc, StepSys(hc, y, b[0]), []);
  }

  /** So a new parser, given the same bytes in three calls or in two, makes different callbacks. */
  lemma CutInPath(hc: HeadersCallback)
    ensures var x := Conn(InitCore(Request), []);
            var get, a, b := [71, 69, 84, 32, 47], [97], [1];   // "GET /", "a", a control byte
            && Usable(x) && Usable(Call(hc, x, get)) && Usable(Call(hc, Call(hc, x, get), a))
            && Call(hc, Call(hc, Call(hc, x, get), a), b).trace != Call(hc, Call(hc, x, get), a + b).trace
  {
    hide StepSys, Step, Inv, MarkFits;
    var x := Conn(InitCore(Request), []);
    InitInv(Request);
    EnterLive(x);
    var word: seq<Byte> := [71, 69, 84];
    GetIsRead(hc, Enter(x), word);
    var s := Feed(hc, Enter(x), word + [SP]);
    SlashStartsPath(hc, s);
    FeedAppend(hc, Enter(x), word + [SP], [47]);
    assert Feed(hc, s, [47]) == Feed(hc, StepSys(hc, s, 47), []);
    assert word + [SP] + [47] == [71, 69, 84, 32, 47];
    var y := Call(hc, x, [71, 69, 84, 32, 47]);
    CutBeforeError(hc, y);
    PushDiffers(y.trace, Url, [97]);
  }

  lemma GetIsRead(hc: HeadersCallback, s: Sys, word: seq<Byte>)
    requires Live(s) && s.core.state == Req(StartReq) && word == [71, 69, 84]
    ensures var r := Feed(hc, s, word + [SP]); Live(r) && r.core.state == Req(ReqSpacesBeforeUrl) && r.core.mthd == GET
  {
    hide StepSys, Inv, MarkFits;
    MethodExact(hc, s, word, GET);
  }

  lemma SlashStartsPath(hc: HeadersCallback, s: Sys)
    requires Live(s) && s.core.state == Req(ReqSpacesBeforeUrl) && s.core.mthd == GET
    ensures var t := StepSys(hc, s, 47); Live(t) && t.core.state == Uri(ReqPath)
  {
  }

  // ----- any number of cuts -----

  function Concat(pieces: seq<seq<Byte>>): seq<Byte>
    decreases |pieces|
  {
    if pieces == [] then [] else pieces[0] + Concat(pieces[1..])
  }

  /** One call for each piece, as long as the parser is not in error. */
  function CallAll(hc: HeadersCallback, x: Conn, pieces: seq<seq<Byte>>): Conn
    requires Usable(x)
    decreases |pieces|
  {
    if pieces == [] then x
    else
      var y := Call(hc, x, pieces[0]);
      if Usable(y) then CallAll(hc, y, pieces[1..]) else y
  }

  /** The run goes through all of the n bytes of its input: no error, and no exit to another protocol before the
      last byte. */
  predicate Through(s: Sys, n: nat) {
    !s.halted || (s.core.errno == OK && s.used == n && s.obs.pending.Idle?)
  }

  lemma RunsThrough(hc: HeadersCallback, x: Conn, a: seq<Byte>, b: seq<Byte>)
    requires Usable(x) && b != [] && Through(During(hc, x, a + b), |a + b|)
    ensures !During(hc, x, a).halted
  {
    hide StepSys, Inv, MarkFits;
    EnterLive(x);
    FeedAppend(hc, Enter(x), a, b);
    FeedUsed(hc, Enter(x), a);
  }

  /** Input that one call accepts to its end is accepted in any number of pieces, with the same
      parser and the same callbacks at the end. */
  lemma {:induction false} AnyCuts(hc: HeadersCallback, x: Conn, pieces: seq<seq<Byte>>)
    requires Usable(x) && pieces != [] && forall i :: 0 <= i < |pieces| ==> pieces[i] != []
    requires Through(During(hc, x, Concat(pieces)), |Concat(pieces)|)
    ensures CallAll(hc, x, pieces) == Call(hc, x, Concat(pieces))
    decreases |pieces|
  {
    hide StepSys, Inv, MarkFits, Feed, StopsInData;
    EnterLive(x);
    var a, rest := pieces[0], pieces[1..];
    if rest == [] {
      assert Concat(pieces) == a;
      CallUsable(hc, x, a);
      assert CallAll(hc, Call(hc, x, a), rest) == Call(hc, x, a);
    } else {
      var b := Concat(rest);
      assert b != [] by { assert b == rest[0] + Concat(rest[1..]); }
      FeedAppend(hc, Enter(x), a, b);
      RunsThrough(hc, x, a, b);
      SplitInvariance(hc, x, a, b);
      IdleGoesOn(During(hc, x, a + b), |a|);
      RestThrough(hc, x, a, b);
      AnyCuts(hc, Call(hc, x, a), rest);
    }
  }

  lemma RestThrough(hc: HeadersCallback, x: Conn, a: seq<Byte>, b: seq<Byte>)
    requires Usable(x) && a != [] && !During(hc, x, a).halted && Through(During(hc, x, a + b), |a + b|)
    ensures Usable(Call(hc, x, a)) && Through(During(hc, Call(hc, x, a), b), |b|)
  {
    hide StepSys, Inv, MarkFits, SameObs;
    var s := During(hc, x, a);
    EnterLive(x);
    SplitInvariance(hc, x, a, b);
    FeedAppend(hc, Enter(x), a, b);
    FeedUsed(hc, Enter(x), a);
    Resume(s, |a|);
    SameFeed(hc, s, Enter(Leave(s)), |a|, b);
    SameIdle(Feed(hc, s, b).obs, Feed(hc, Enter(Leave(s)), b).obs, Feed(hc, Enter(Leave(s)), b).used);
  }

  lemma SameIdle(x: Obs, y: Obs, n: nat)
    requires SameObs(x, y, n)
    ensures x.pending.Idle? ==> y.pending.Idle?
  {
  }

  lemma IdleGoesOn(s: Sys, n: nat)
    requires !s.halted || s.obs.pending.Idle?
    ensures !StopsInData(s, n)
  {
  }

  lemma CallUsable(hc: HeadersCallback, x: Conn, a: seq<Byte>)
    requires Usable(x) && During(hc, x, a).core.errno == OK
    ensures Usable(Call(hc, x, a))
  {
  }
}
