/** Timeouts of an event_base: the heap, the common timeout queues that share one heap timer each, and the
    queue of active events. */
module CommonTimeouts {
  /** struct timeval.  A common timeout has a magic value and the index of its queue in the upper bits of the
      microseconds. */
  datatype Tv = Tv(sec: int, usec: nat)

  const MILLION := 1000000
  /** MICROSECONDS_MASK covers the values below this */
  const USEC_RANGE := 0x100000
  const MAX_COMMON_TIMEOUTS := 256

  /** tv_usec & MICROSECONDS_MASK */
  function Clear(tv: Tv): Tv {
    Tv(tv.sec, tv.usec % USEC_RANGE)
  }

  /** tv_usec & ~MICROSECONDS_MASK, shifted down */
  function Tag(tv: Tv): nat {
    tv.usec / USEC_RANGE
  }

  /** The tag of queue i: COMMON_TIMEOUT_MAGIC | i << COMMON_TIMEOUT_IDX_SHIFT, shifted down */
  function TagOf(i: nat): nat {
    0x500 + i
  }

  function Tagged(tv: Tv, tag: nat): (r: Tv)
    requires tv.usec < USEC_RANGE
    ensures Clear(r) == tv && Tag(r) == tag
  {
    Tv(tv.sec, tv.usec + tag * USEC_RANGE)
  }

  /** COMMON_TIMEOUT_IDX */
  function Idx(tv: Tv): (i: nat)
    ensures i < 256
  {
    Tag(tv) % 256
  }

  /** is_common_timeout, for a base with n queues */
  predicate IsCommon(tv: Tv, n: nat) {
    tv.usec / 0x10000000 == 5 && Idx(tv) < n
  }

  /** The tag and the index say the same. */
  lemma CommonTag(tv: Tv, n: nat)
    requires n <= 256
    ensures IsCommon(tv, n) <==> TagOf(0) <= Tag(tv) < TagOf(n)
    ensures IsCommon(tv, n) ==> Tag(tv) == TagOf(Idx(tv)) && Idx(tv) < n
  {
    assert tv.usec / 0x10000000 == Tag(tv) / 256;
  }

  /** evutil_timercmp(a, b, <=) */
  predicate Le(a: Tv, b: Tv) {
    if a.sec == b.sec then a.usec <= b.usec else a.sec <= b.sec
  }

  /** evutil_timeradd */
  function Add(a: Tv, b: Tv): Tv {
    if a.usec + b.usec >= MILLION then Tv(a.sec + b.sec + 1, a.usec + b.usec - MILLION)
    else Tv(a.sec + b.sec, a.usec + b.usec)
  }

  /** evutil_timersub */
  function Sub(a: Tv, b: Tv): Tv
    requires b.usec <= a.usec + MILLION
  {
    if a.usec < b.usec then Tv(a.sec - b.sec - 1, a.usec - b.usec + MILLION)
    else Tv(a.sec - b.sec, a.usec - b.usec)
  }

  predicate Proper(tv: Tv) {
    tv.usec < MILLION
  }

  /** The microseconds from the beginning of the clock to a time */
  function Micros(tv: Tv): int {
    tv.sec * MILLION + tv.usec
  }

  /** Comparing proper times is comparing moments. */
  lemma LeIsEarlier(a: Tv, b: Tv)
    requires Proper(a) && Proper(b)
    ensures Le(a, b) <==> Micros(a) <= Micros(b)
  {
  }

  /** The carry and the borrow are right: a sum lies so many microseconds later, a difference so many earlier. */
  lemma AddIsLater(a: Tv, b: Tv)
    requires Proper(a) && b.usec <= MILLION
    ensures Proper(Add(a, b)) && Micros(Add(a, b)) == Micros(a) + Micros(b)
  {
  }

  lemma SubIsEarlier(a: Tv, b: Tv)
    requires Proper(a) && Proper(b)
    ensures Proper(Sub(a, b)) && Micros(Sub(a, b)) == Micros(a) - Micros(b)
  {
  }

  /** The comparison is sneaky: with the same tag it compares the times. */
  lemma SameTag(a: Tv, b: Tv)
    requires Tag(a) == Tag(b)
    ensures Le(a, b) <==> Le(Clear(a), Clear(b))
  {
  }

  /** Moving both by the same amount keeps the order. */
  lemma SubKeepsOrder(a: Tv, b: Tv, off: Tv)
    requires Proper(a) && Proper(b) && Proper(off)
    ensures Proper(Sub(a, off)) && (Le(Sub(a, off), Sub(b, off)) <==> Le(a, b))
  {
  }

  /** What event_base_init_common_timeout makes of a duration of more than a million microseconds */
  function Normal(duration: Tv, n: nat): (d: Tv)
    ensures d.usec <= MILLION && (duration.usec <= MILLION ==> d == duration) && (duration.usec > MILLION ==> d.usec < MILLION)
    ensures Micros(d) == Micros(if IsCommon(duration, n) then Clear(duration) else duration)
  {
    if duration.usec <= MILLION then duration
    else
      var tv := if IsCommon(duration, n) then Clear(duration) else duration;
      Tv(tv.sec + tv.usec / MILLION, tv.usec % MILLION)
  }

  // ----- events and queues -----

  /** a pointer to a struct event */
  type Ptr = nat

  /** struct event: its timeout, EVLIST_TIMEOUT and EVLIST_ACTIVE in its flags, EV_TIMEOUT in its result, and
      EVLIST_INTERNAL */
  datatype EventRec = EventRec(timeout: Tv, inTimeout: bool, active: bool, byTimeout: bool, internal: bool)

  /** struct common_timeout_list; timer is its timeout_event */
  datatype CommonList = CommonList(events: seq<Ptr>, duration: Tv, timer: Ptr)

  ghost predicate NoDup(s: seq<Ptr>) {
    forall i, j :: 0 <= i < j < |s| ==> s[i] != s[j]
  }

  /** The events of queue i: they wait there, and are sorted. */
  ghost predicate ListOk(mem: map<Ptr, EventRec>, s: seq<Ptr>, i: nat) {
    && NoDup(s)
    && (forall p :: p in s ==> p in mem && mem[p].inTimeout && Tag(mem[p].timeout) == TagOf(i) &&
                               Proper(Clear(mem[p].timeout)))
    && Sorted(mem, s)
  }

  ghost predicate Sorted(mem: map<Ptr, EventRec>, s: seq<Ptr>) {
    forall j, k :: 0 <= j < k < |s| && s[j] in mem && s[k] in mem ==> Le(mem[s[j]].timeout, mem[s[k]].timeout)
  }

  /** Every pending timeout is in the heap, or in the queue that its tag names. */
  ghost predicate Placed(mem: map<Ptr, EventRec>, heap: set<Ptr>, queues: seq<CommonList>) {
    && |queues| <= MAX_COMMON_TIMEOUTS
    && (forall p :: p in mem && mem[p].inTimeout ==>
          if IsCommon(mem[p].timeout, |queues|) then p in queues[Idx(mem[p].timeout)].events else p in heap)
    && (forall p :: p in heap ==> p in mem && mem[p].inTimeout && Proper(mem[p].timeout))
    && (forall i :: 0 <= i < |queues| ==> ListOk(mem, queues[i].events, i))
  }

  ghost predicate ActiveOk(mem: map<Ptr, EventRec>, active: seq<Ptr>) {
    && NoDup(active)
    && (forall p :: p in active <==> p in mem && mem[p].active)
  }

  /** The shared timers are internal events of their own; the duration of a queue has its tag. */
  ghost predicate TimersOk(mem: map<Ptr, EventRec>, queues: seq<CommonList>) {
    && (forall i :: 0 <= i < |queues| ==> queues[i].timer in mem && mem[queues[i].timer].internal &&
                                          Proper(mem[queues[i].timer].timeout) &&
                                          Tag(queues[i].duration) == TagOf(i))
    && (forall i, j :: 0 <= i < j < |queues| ==> queues[i].timer != queues[j].timer)
  }

  /** Queue i will not be forgotten: it is empty, or its shared timer is active, or its callback is about to run,
      or its shared timer is in the heap at a time no later than the head of the queue. */
  ghost predicate AwakeAt(mem: map<Ptr, EventRec>, heap: set<Ptr>, queues: seq<CommonList>, running: set<nat>, i: nat)
    requires i < |queues|
  {
    var q := queues[i];
    q.events == [] || i in running ||
    (q.timer in mem && (mem[q.timer].active ||
                        (q.timer in heap && q.events[0] in mem &&
                         Le(mem[q.timer].timeout, Clear(mem[q.events[0]].timeout)))))
  }

  ghost predicate Awake(mem: map<Ptr, EventRec>, heap: set<Ptr>, queues: seq<CommonList>, running: set<nat>) {
    forall i :: 0 <= i < |queues| ==> AwakeAt(mem, heap, queues, running, i)
  }

  /** Awake, but perhaps for queue i. */
  ghost predicate AwakeBut(mem: map<Ptr, EventRec>, heap: set<Ptr>, queues: seq<CommonList>, running: set<nat>, i: int) {
    forall j :: 0 <= j < |queues| && j != i ==> AwakeAt(mem, heap, queues, running, j)
  }

  ghost predicate Inv(mem: map<Ptr, EventRec>, heap: set<Ptr>, active: seq<Ptr>, queues: seq<CommonList>) {
    Placed(mem, heap, queues) && ActiveOk(mem, active) && TimersOk(mem, queues)
  }

  /** TAILQ_REMOVE */
  function Remove(s: seq<Ptr>, p: Ptr): seq<Ptr> {
    if s == [] then [] else if s[0] == p then s[1..] else [s[0]] + Remove(s[1..], p)
  }

  lemma {:induction false} RemoveIs(s: seq<Ptr>, p: Ptr) returns (k: nat)
    requires NoDup(s) && p in s
    ensures k < |s| && s[k] == p && Remove(s, p) == s[..k] + s[k + 1..]
    ensures NoDup(Remove(s, p)) && forall q :: q in Remove(s, p) <==> q in s && q != p
  {
    hide NoDup;
    k := RemovePlace(s, p);
    CutPlace(s, k);
  }

  lemma {:induction false} RemovePlace(s: seq<Ptr>, p: Ptr) returns (k: nat)
    requires p in s
    ensures k < |s| && s[k] == p && Remove(s, p) == s[..k] + s[k + 1..]
  {
    if s[0] == p {
      k := 0;
    } else {
      var k0 := RemovePlace(s[1..], p);
      k := k0 + 1;
      assert s[..k] == [s[0]] + s[1..][..k0] && s[k + 1..] == s[1..][k0 + 1..];
    }
  }

  lemma CutPlace(s: seq<Ptr>, k: nat)
    requires NoDup(s) && k < |s|
    ensures NoDup(s[..k] + s[k + 1..]) && forall q :: q in s[..k] + s[k + 1..] <==> q in s && q != s[k]
  {
    var r := s[..k] + s[k + 1..];
    assert forall i :: 0 <= i < |r| ==> r[i] == s[if i < k then i else i + 1];
    forall q | q in s && q != s[k] ensures q in r {
      var m :| 0 <= m < |s| && s[m] == q;
      assert r[if m < k then m else m - 1] == q;
    }
  }

  /** What a queue without p looks like. */
  lemma ListRemove(mem: map<Ptr, EventRec>, s: seq<Ptr>, i: nat, p: Ptr)
    requires ListOk(mem, s, i) && p in s
    ensures var mem2 := mem[p := mem[p].(inTimeout := false)];
            ListOk(mem2, Remove(s, p), i)
    ensures forall q :: q in Remove(s, p) <==> q in s && q != p
    ensures Remove(s, p) != [] ==> Remove(s, p)[0] in s && (s[0] == p || Remove(s, p)[0] == s[0])
    ensures Remove(s, p) != [] ==> Le(mem[s[0]].timeout, mem[Remove(s, p)[0]].timeout)
  {
    hide NoDup, Remove, Le;
    var k := RemoveIs(s, p);
    CutSorted(mem, mem[p := mem[p].(inTimeout := false)], s, k);
    CutFirst(mem, s, k);
  }

  lemma CutSorted(mem: map<Ptr, EventRec>, mem2: map<Ptr, EventRec>, s: seq<Ptr>, k: nat)
    requires Sorted(mem, s) && k < |s| && mem2.Keys == mem.Keys
    requires forall q :: q in mem ==> mem2[q].timeout == mem[q].timeout
    ensures Sorted(mem2, s[..k] + s[k + 1..])
  {
    hide Le;
    var r := s[..k] + s[k + 1..];
    assert forall i :: 0 <= i < |r| ==> r[i] == s[if i < k then i else i + 1];
  }

  lemma CutFirst(mem: map<Ptr, EventRec>, s: seq<Ptr>, k: nat)
    requires Sorted(mem, s) && k < |s| && forall q :: q in s ==> q in mem
    ensures var r := s[..k] + s[k + 1..];
            r != [] ==> r[0] in s && (k == 0 || r[0] == s[0]) && Le(mem[s[0]].timeout, mem[r[0]].timeout)
  {
    var r := s[..k] + s[k + 1..];
    if r != [] {
      assert r[0] == s[if k == 0 then 1 else 0];
    }
  }

  /** A queue of which no event has changed its timeout. */
  lemma ListSame(mem: map<Ptr, EventRec>, mem2: map<Ptr, EventRec>, s: seq<Ptr>, i: nat)
    requires ListOk(mem, s, i)
    requires forall p :: p in s ==> p in mem2 && mem2[p].timeout == mem[p].timeout && mem2[p].inTimeout
    ensures ListOk(mem2, s, i)
  {
  }

  /** TAILQ_INSERT_AFTER and TAILQ_INSERT_HEAD: p comes behind the first k events. */
  function InsertAt(s: seq<Ptr>, k: nat, p: Ptr): seq<Ptr>
    requires k <= |s|
  {
    s[..k] + [p] + s[k..]
  }

  /** The first k events of a queue, and no others, are at t or earlier: events of the same time stay in the order in
      which they were added. */
  ghost predicate Behind(mem: map<Ptr, EventRec>, s: seq<Ptr>, k: nat, t: Tv) {
    && k <= |s| && (forall j :: 0 <= j < |s| ==> s[j] in mem)
    && (k > 0 ==> Le(mem[s[k - 1]].timeout, t)) && (forall j :: k <= j < |s| ==> !Le(mem[s[j]].timeout, t))
  }

  lemma InsertIs(s: seq<Ptr>, k: nat, p: Ptr)
    requires k <= |s|
    ensures var r := InsertAt(s, k, p);
            && |r| == |s| + 1
            && (forall a {:trigger r[a]} :: 0 <= a < |r| ==> r[a] == if a < k then s[a] else if a == k then p else s[a - 1])
            && (forall q :: q in r <==> q in s || q == p)
  {
    assert s == s[..k] + s[k..];
  }

  lemma InsertNoDup(s: seq<Ptr>, k: nat, p: Ptr)
    requires k <= |s| && NoDup(s) && p !in s
    ensures NoDup(InsertAt(s, k, p))
  {
    hide InsertAt;
    InsertIs(s, k, p);
    var r := InsertAt(s, k, p);
    forall a, b | 0 <= a < b < |r| ensures r[a] != r[b] {
      if a == k { assert r[b] == s[b - 1] && s[b - 1] in s; }
      else if b == k { assert r[a] == s[a] && s[a] in s; }
      else { assert r[a] == s[if a < k then a else a - 1] && r[b] == s[if b < k then b else b - 1]; }
    }
  }

  /** A queue with p put behind what is not later, and before what is later. */
  lemma ListInsert(mem: map<Ptr, EventRec>, s: seq<Ptr>, i: nat, p: Ptr, rec: EventRec, k: nat)
    requires ListOk(mem, s, i) && p !in s && k <= |s|
    requires rec.inTimeout && Tag(rec.timeout) == TagOf(i) && Proper(Clear(rec.timeout))
    requires k > 0 ==> Le(mem[s[k - 1]].timeout, rec.timeout)
    requires forall j :: k <= j < |s| ==> Le(rec.timeout, mem[s[j]].timeout)
    ensures ListOk(mem[p := rec], InsertAt(s, k, p), i)
  {
    hide InsertAt, NoDup;
    InsertIs(s, k, p);
    InsertNoDup(s, k, p);
    var r, mem2 := InsertAt(s, k, p), mem[p := rec];
    forall a, b | 0 <= a < b < |r| ensures Le(mem2[r[a]].timeout, mem2[r[b]].timeout) {
      var a2, b2 := if a < k then a else a - 1, if b < k then b else b - 1;
      if a == k {
        assert r[b] == s[b2] && s[b2] in s;
      } else if b == k {
        assert r[a] == s[a] && s[a] in s && s[k - 1] in s;
        assert a == k - 1 || Le(mem[s[a]].timeout, mem[s[k - 1]].timeout);
      } else {
        assert r[a] == s[a2] && r[b] == s[b2] && s[a2] in s && s[b2] in s;
      }
    }
  }

  // ----- what single changes of the queues keep -----

  /** p is the shared timer of no queue but perhaps x. */
  ghost predicate OnlyTimerOf(queues: seq<CommonList>, p: Ptr, x: int) {
    forall i :: 0 <= i < |queues| && queues[i].timer == p ==> i == x
  }

  /** A common timeout leaves its queue. */
  lemma DetachCommon(mem: map<Ptr, EventRec>, heap: set<Ptr>, active: seq<Ptr>, queues: seq<CommonList>,
                     running: set<nat>, p: Ptr, x: int)
    requires Inv(mem, heap, active, queues) && AwakeBut(mem, heap, queues, running, x)
    requires p in mem && mem[p].inTimeout && IsCommon(mem[p].timeout, |queues|)
    ensures var i := Idx(mem[p].timeout);
            var mem2 := mem[p := mem[p].(inTimeout := false)];
            var queues2 := queues[i := queues[i].(events := Remove(queues[i].events, p))];
            Inv(mem2, heap, active, queues2) && AwakeBut(mem2, heap, queues2, running, x)
  {
    hide Remove, ListOk;
    var i := Idx(mem[p].timeout);
    var mem2 := mem[p := mem[p].(inTimeout := false)];
    var queues2 := queues[i := queues[i].(events := Remove(queues[i].events, p))];
    CommonTag(mem[p].timeout, |queues|);
    ListRemove(mem, queues[i].events, i, p);
    forall j | 0 <= j < |queues| ensures ListOk(mem2, queues2[j].events, j) {
      if j != i {
        NotInOther(mem, queues[j].events, j, p);
        ListSame(mem, mem2, queues[j].events, j);
      }
    }
    assert queues[i].timer != p;
    forall j | 0 <= j < |queues| && j != x ensures AwakeAt(mem2, heap, queues2, running, j) {
      assert AwakeAt(mem, heap, queues, running, j);
      if j != i {
        NotInOther(mem, queues[j].events, j, p);
      } else {
        HeadLater(mem, queues[i].events, queues2[i].events, i);
      }
    }
  }

  /** A later head of the same queue, in the times that the shared timer is set to. */
  lemma HeadLater(mem: map<Ptr, EventRec>, s: seq<Ptr>, r: seq<Ptr>, i: nat)
    requires ListOk(mem, s, i) && s != [] && (r != [] ==> r[0] in s && Le(mem[s[0]].timeout, mem[r[0]].timeout))
    ensures s[0] in mem && (r != [] ==> r[0] in mem && Le(Clear(mem[s[0]].timeout), Clear(mem[r[0]].timeout)))
  {
    if r != [] { SameTag(mem[s[0]].timeout, mem[r[0]].timeout); }
  }

  lemma NotInOther(mem: map<Ptr, EventRec>, s: seq<Ptr>, j: nat, p: Ptr)
    requires ListOk(mem, s, j) && p in mem && Tag(mem[p].timeout) != TagOf(j)
    ensures p !in s
    ensures forall q :: q in s ==> q in mem && mem[q].inTimeout
  {
  }

  /** An event leaves the heap; if it is a shared timer, then that of queue x. */
  lemma DetachHeap(mem: map<Ptr, EventRec>, heap: set<Ptr>, active: seq<Ptr>, queues: seq<CommonList>,
                   running: set<nat>, p: Ptr, x: int)
    requires Inv(mem, heap, active, queues) && AwakeBut(mem, heap, queues, running, x)
    requires p in mem && mem[p].inTimeout && !IsCommon(mem[p].timeout, |queues|) && OnlyTimerOf(queues, p, x)
    ensures var mem2 := mem[p := mem[p].(inTimeout := false)];
            p in heap && Inv(mem2, heap - {p}, active, queues) && AwakeBut(mem2, heap - {p}, queues, running, x)
  {
    hide ListOk;
    var mem2 := mem[p := mem[p].(inTimeout := false)];
    ListsUntouched(mem, mem2, queues, p);
    forall j | 0 <= j < |queues| && j != x ensures AwakeAt(mem2, heap - {p}, queues, running, j) {
      assert AwakeAt(mem, heap, queues, running, j);
    }
  }

  /** A change of an event that is not in a queue. */
  lemma ListsUntouched(mem: map<Ptr, EventRec>, mem2: map<Ptr, EventRec>, queues: seq<CommonList>, p: Ptr)
    requires forall i :: 0 <= i < |queues| ==> ListOk(mem, queues[i].events, i)
    requires |queues| <= 256 && p in mem && (!mem[p].inTimeout || !IsCommon(mem[p].timeout, |queues|))
    requires p in mem2 && mem2 == mem[p := mem2[p]]
    ensures forall i :: 0 <= i < |queues| ==> ListOk(mem2, queues[i].events, i) && p !in queues[i].events
  {
    forall i | 0 <= i < |queues| ensures ListOk(mem2, queues[i].events, i) && p !in queues[i].events {
      if p in queues[i].events { CommonTag(mem[p].timeout, |queues|); }
      ListSame(mem, mem2, queues[i].events, i);
    }
  }

  /** An event gets a plain timeout and goes into the heap; if it is a shared timer, then that of queue x. */
  lemma AttachHeap(mem: map<Ptr, EventRec>, heap: set<Ptr>, active: seq<Ptr>, queues: seq<CommonList>,
                   running: set<nat>, p: Ptr, t: Tv, x: int)
    requires Inv(mem, heap, active, queues) && AwakeBut(mem, heap, queues, running, x)
    requires p in mem && !mem[p].inTimeout && Proper(t) && OnlyTimerOf(queues, p, x)
    ensures var mem2 := mem[p := mem[p].(inTimeout := true, timeout := t)];
            && Inv(mem2, heap + {p}, active, queues) && AwakeBut(mem2, heap + {p}, queues, running, x)
            && (0 <= x < |queues| && queues[x].timer == p && queues[x].events != [] &&
                queues[x].events[0] in mem && Le(t, Clear(mem[queues[x].events[0]].timeout)) ==>
                  Awake(mem2, heap + {p}, queues, running))
  {
    hide ListOk;
    var mem2 := mem[p := mem[p].(inTimeout := true, timeout := t)];
    assert p !in heap;
    ListsUntouched(mem, mem2, queues, p);
    forall j | 0 <= j < |queues| && j != x ensures AwakeAt(mem2, heap + {p}, queues, running, j) {
      assert AwakeAt(mem, heap, queues, running, j);
    }
    CommonTag(t, |queues|);
    if 0 <= x < |queues| && queues[x].timer == p && queues[x].events != [] &&
       queues[x].events[0] in mem && Le(t, Clear(mem[queues[x].events[0]].timeout)) {
      assert queues[x].events[0] in queues[x].events;
      assert AwakeAt(mem2, heap + {p}, queues, running, x);
    }
  }

  /** An event gets a common timeout and goes into its queue behind k events. */
  lemma AttachCommon(mem: map<Ptr, EventRec>, heap: set<Ptr>, active: seq<Ptr>, queues: seq<CommonList>,
                     running: set<nat>, p: Ptr, t: Tv, k: nat)
    requires Inv(mem, heap, active, queues) && Awake(mem, heap, queues, running)
    requires p in mem && !mem[p].inTimeout && !mem[p].internal && IsCommon(t, |queues|) && Proper(Clear(t))
    requires var s := queues[Idx(t)].events;
             k <= |s| && (forall q :: q in s ==> q in mem) && (k > 0 ==> Le(mem[s[k - 1]].timeout, t)) &&
             (forall j :: k <= j < |s| ==> Le(t, mem[s[j]].timeout))
    ensures var i := Idx(t);
            var mem2 := mem[p := mem[p].(inTimeout := true, timeout := t)];
            var queues2 := queues[i := queues[i].(events := InsertAt(queues[i].events, k, p))];
            && Inv(mem2, heap, active, queues2) && AwakeBut(mem2, heap, queues2, running, i)
            && (k > 0 ==> Awake(mem2, heap, queues2, running))
  {
    hide ListOk, InsertAt;
    var i := Idx(t);
    var s := queues[i].events;
    var mem2 := mem[p := mem[p].(inTimeout := true, timeout := t)];
    var queues2 := queues[i := queues[i].(events := InsertAt(s, k, p))];
    CommonTag(t, |queues|);
    ListsUntouched(mem, mem2, queues, p);
    ListInsert(mem, s, i, p, mem2[p], k);
    InsertIs(s, k, p);
    forall j | 0 <= j < |queues| && (j != i || k > 0) ensures AwakeAt(mem2, heap, queues2, running, j) {
      assert AwakeAt(mem, heap, queues, running, j);
      if queues[j].events != [] { assert queues[j].events[0] in queues[j].events; }
    }
  }

  /** An event becomes active; if it is the shared timer of queue x, that queue is safe. */
  lemma Activated(mem: map<Ptr, EventRec>, heap: set<Ptr>, active: seq<Ptr>, queues: seq<CommonList>,
                  running: set<nat>, p: Ptr, byTimeout: bool, x: int)
    requires Inv(mem, heap, active, queues) && AwakeBut(mem, heap, queues, running, x) && p in mem
    ensures var mem2 := mem[p := mem[p].(active := true, byTimeout := byTimeout)];
            && Inv(mem2, heap, if mem[p].active then active else active + [p], queues)
            && AwakeBut(mem2, heap, queues, running, x)
            && (0 <= x < |queues| && queues[x].timer == p ==> Awake(mem2, heap, queues, running))
  {
    hide ListOk;
    var mem2 := mem[p := mem[p].(active := true, byTimeout := byTimeout)];
    ListsSame(mem, mem2, queues);
    forall j | 0 <= j < |queues| && j != x ensures AwakeAt(mem2, heap, queues, running, j) {
      assert AwakeAt(mem, heap, queues, running, j);
    }
    if 0 <= x < |queues| && queues[x].timer == p {
      assert AwakeAt(mem2, heap, queues, running, x);
    }
  }

  /** A change that leaves all timeouts alone. */
  lemma ListsSame(mem: map<Ptr, EventRec>, mem2: map<Ptr, EventRec>, queues: seq<CommonList>)
    requires forall i :: 0 <= i < |queues| ==> ListOk(mem, queues[i].events, i)
    requires forall p :: p in mem ==> p in mem2 && mem2[p].timeout == mem[p].timeout && mem2[p].inTimeout == mem[p].inTimeout
    ensures forall i :: 0 <= i < |queues| ==> ListOk(mem2, queues[i].events, i)
  {
    forall i | 0 <= i < |queues| ensures ListOk(mem2, queues[i].events, i) {
      ListSame(mem, mem2, queues[i].events, i);
    }
  }

  /** An event leaves the active queue; if it is a shared timer, then that of queue x. */
  lemma Deactivated(mem: map<Ptr, EventRec>, heap: set<Ptr>, active: seq<Ptr>, queues: seq<CommonList>,
                    running: set<nat>, p: Ptr, x: int)
    requires Inv(mem, heap, active, queues) && AwakeBut(mem, heap, queues, running, x)
    requires p in mem && mem[p].active && OnlyTimerOf(queues, p, x)
    ensures var mem2 := mem[p := mem[p].(active := false)];
            |active| > 0 && |Remove(active, p)| == |active| - 1 &&
            Inv(mem2, heap, Remove(active, p), queues) && AwakeBut(mem2, heap, queues, running, x)
  {
    hide ListOk, Remove;
    var mem2 := mem[p := mem[p].(active := false)];
    ListsSame(mem, mem2, queues);
    var k := RemoveIs(active, p);
    forall j | 0 <= j < |queues| && j != x ensures AwakeAt(mem2, heap, queues, running, j) {
      assert AwakeAt(mem, heap, queues, running, j);
    }
  }

  // ----- the event base -----

  function Without(queues: seq<CommonList>, i: nat, p: Ptr): seq<CommonList>
    requires i < |queues|
  {
    queues[i := queues[i].(events := Remove(queues[i].events, p))]
  }

  /** Is there a queue for this duration? */
  predicate HasQueue(queues: seq<CommonList>, d: Tv) {
    exists k :: 0 <= k < |queues| && Clear(queues[k].duration) == d
  }

  datatype Option<T> = None | Some(value: T)

  class EventBase {
    /** the events, by address */
    var mem: map<Ptr, EventRec>
    var nextPtr: Ptr
    /** timeheap, with the events in it and not their order */
    var heap: set<Ptr>
    var active: seq<Ptr>
    var eventCountActive: int
    /** common_timeout_queues; n_common_timeouts is its length */
    var queues: seq<CommonList>
    /** event_tv */
    var eventTv: Tv
    const useMonotonic: bool
    /** the queues whose shared timer has left the active queue and whose callback has not run yet */
    ghost var running: set<nat>

    ghost predicate Structure()
      reads this
    {
      && Inv(mem, heap, active, queues)
      && (forall p :: p in mem ==> p < nextPtr)
      && eventCountActive == |active| && Proper(eventTv)
    }

    /** No pending timeout is lost. */
    ghost predicate Valid()
      reads this
    {
      Structure() && Awake(mem, heap, queues, running)
    }

    /** Valid, but for queue x. */
    ghost predicate ValidBut(x: int)
      reads this
    {
      Structure() && AwakeBut(mem, heap, queues, running, x)
    }

    constructor (useMonotonic: bool)
      ensures Valid() && mem == map[] && queues == []
    {
      this.useMonotonic := useMonotonic;
      mem, nextPtr, heap, active, eventCountActive, queues, eventTv := map[], 0, {}, [], 0, [], Tv(0, 0);
      running := {};
    }

    /** event_assign */
    method NewEvent() returns (p: Ptr)
      requires Valid()
      modifies this`mem, this`nextPtr
      ensures Valid() && p !in old(mem) && mem == old(mem)[p := EventRec(Tv(0, 0), false, false, false, false)]
    {
      p := nextPtr;
      NewKeeps(mem, heap, active, queues, running, p, EventRec(Tv(0, 0), false, false, false, false), -1);
      mem := mem[p := EventRec(Tv(0, 0), false, false, false, false)];
      nextPtr := nextPtr + 1;
    }

    // ----- event_queue_remove and event_queue_insert -----

    method QueueRemoveTimeout(p: Ptr, ghost x: int)
      requires ValidBut(x) && p in mem && mem[p].inTimeout && OnlyTimerOf(queues, p, x)
      modifies this`mem, this`heap, this`queues
      ensures ValidBut(x) && mem == old(mem)[p := old(mem)[p].(inTimeout := false)]
      ensures heap == if IsCommon(old(mem)[p].timeout, |old(queues)|) then old(heap) else old(heap) - {p}
      ensures queues == if !IsCommon(old(mem)[p].timeout, |old(queues)|) then old(queues)
                        else Without(old(queues), Idx(old(mem)[p].timeout), p)
      ensures OnlyTimerOf(queues, p, x)
    {
      hide Inv, AwakeBut, Remove;
      if IsCommon(mem[p].timeout, |queues|) {
        DetachCommon(mem, heap, active, queues, running, p, x);
        var i := Idx(mem[p].timeout);
        queues := queues[i := queues[i].(events := Remove(queues[i].events, p))];
      } else {
        DetachHeap(mem, heap, active, queues, running, p, x);
        heap := heap - {p};
      }
      mem := mem[p := mem[p].(inTimeout := false)];
    }

    method QueueRemoveActive(p: Ptr, ghost x: int)
      requires ValidBut(x) && p in mem && mem[p].active && OnlyTimerOf(queues, p, x)
      modifies this`mem, this`active, this`eventCountActive
      ensures ValidBut(x) && mem == old(mem)[p := old(mem)[p].(active := false)]
      ensures active == Remove(old(active), p)
    {
      hide Inv, AwakeBut, Remove;
      Deactivated(mem, heap, active, queues, running, p, x);
      eventCountActive := eventCountActive - 1;
      mem := mem[p := mem[p].(active := false)];
      active := Remove(active, p);
    }

    /** EVLIST_ACTIVE, with the result that event_active_nolock sets */
    method ActiveNolock(p: Ptr, byTimeout: bool, ghost x: int)
      requires ValidBut(x) && p in mem
      modifies this`mem, this`active, this`eventCountActive
      ensures ValidBut(x) && (0 <= x < |queues| && queues[x].timer == p ==> Valid())
      ensures mem == old(mem)[p := old(mem)[p].(active := true, byTimeout := byTimeout || (old(mem)[p].active && old(mem)[p].byTimeout))]
      ensures active == if old(mem)[p].active then old(active) else old(active) + [p]
    {
      hide Inv, AwakeBut, Awake;
      var res := byTimeout || (mem[p].active && mem[p].byTimeout);
      Activated(mem, heap, active, queues, running, p, res, x);
      if mem[p].active {
        mem := mem[p := mem[p].(active := true, byTimeout := res)];
        return;
      }
      mem := mem[p := mem[p].(active := true, byTimeout := res)];
      eventCountActive := eventCountActive + 1;
      active := active + [p];
    }

    /** insert_common_timeout_inorder: how many events p comes behind. */
    method InsertionPoint(i: nat, t: Tv) returns (k: nat)
      requires Structure() && i < |queues| && Tag(t) == TagOf(i)
      ensures k <= |queues[i].events| && (forall q :: q in queues[i].events ==> q in mem)
      ensures k > 0 ==> Le(mem[queues[i].events[k - 1]].timeout, t)
      ensures forall j :: k <= j < |queues[i].events| ==>
                Le(t, mem[queues[i].events[j]].timeout) && !Le(mem[queues[i].events[j]].timeout, t)
    {
      var s := queues[i].events;
      assert ListOk(mem, s, i);
      k := |s|;
      while k > 0
        invariant 0 <= k <= |s|
        invariant forall j :: k <= j < |s| ==> s[j] in mem && Le(t, mem[s[j]].timeout) && !Le(mem[s[j]].timeout, t)
      {
        assert s[k - 1] in s;
        assert Tag(mem[s[k - 1]].timeout) == Tag(t);
        if Le(mem[s[k - 1]].timeout, t) { return; }
        k := k - 1;
      }
    }

    // ----- adding -----

    /** The end of event_add_internal for a plain timeout. */
    method AddToHeap(p: Ptr, t: Tv, ghost x: int)
      requires ValidBut(x) && p in mem && !mem[p].inTimeout && Proper(t) && OnlyTimerOf(queues, p, x)
      modifies this`mem, this`heap
      ensures ValidBut(x) && heap == old(heap) + {p}
      ensures mem == old(mem)[p := old(mem)[p].(inTimeout := true, timeout := t)]
      ensures (0 <= x < |queues| && queues[x].timer == p && queues[x].events != [] &&
               queues[x].events[0] in old(mem) && Le(t, Clear(old(mem)[queues[x].events[0]].timeout))) ==> Valid()
    {
      hide Inv, AwakeBut, Awake;
      AttachHeap(mem, heap, active, queues, running, p, t, x);
      mem := mem[p := mem[p].(inTimeout := true, timeout := t)];
      heap := heap + {p};
    }

    /** common_timeout_schedule: the shared timer of queue i is set to the time of its first event. */
    method Schedule(i: nat)
      requires ValidBut(i) && i < |queues| && queues[i].events != []
      modifies this`mem, this`heap, this`queues, this`active, this`eventCountActive
      ensures Valid() && queues == old(queues) && OthersSame(old(mem), mem, queues[i].timer)
      ensures heap == old(heap) + {queues[i].timer}
      ensures active == old(active) || active == Remove(old(active), queues[i].timer)
      ensures queues[i].events[0] in old(mem) && queues[i].timer in mem && mem[queues[i].timer].inTimeout &&
              mem[queues[i].timer].timeout == Clear(old(mem)[queues[i].events[0]].timeout)
    {
      hide AwakeBut, Awake, Remove;
      HeadOk(mem, heap, active, queues, i);
      var timer, timeout := queues[i].timer, Clear(mem[queues[i].events[0]].timeout);
      assert OnlyTimerOf(queues, timer, i);
      hide Inv;
      if mem[timer].inTimeout { QueueRemoveTimeout(timer, i); }
      if mem[timer].active && mem[timer].byTimeout { QueueRemoveActive(timer, i); }
      AddToHeap(timer, timeout, i);
    }

    /** event_queue_insert for a common timeout: behind the first k events of its queue, those that are not later.
        Only an event that comes first leaves its queue to be woken. */
    method InsertCommon(p: Ptr, t: Tv) returns (ghost k: nat)
      requires Valid() && p in mem && !mem[p].inTimeout && !mem[p].internal
      requires IsCommon(t, |queues|) && Proper(Clear(t))
      modifies this`mem, this`queues
      ensures |queues| == |old(queues)| && ValidBut(Idx(t))
      ensures mem == old(mem)[p := old(mem)[p].(inTimeout := true, timeout := t)]
      ensures queues[Idx(t)].events != [] && p in queues[Idx(t)].events
      ensures queues[Idx(t)].events[0] != p ==> Valid()
      ensures forall j :: 0 <= j < |queues| ==> queues[j].timer == old(queues)[j].timer
      ensures Behind(old(mem), old(queues)[Idx(t)].events, k, t)
      ensures queues[Idx(t)].events == InsertAt(old(queues)[Idx(t)].events, k, p)
    {
      hide Awake, AwakeBut, ListOk, InsertAt, Le;
      CommonTag(t, |queues|);
      var i := Idx(t);
      var place := InsertionPoint(i, t);
      k := place;
      AttachCommon(mem, heap, active, queues, running, p, t, k);
      InsertIs(queues[i].events, k, p);
      hide Inv;
      queues := queues[i := queues[i].(events := InsertAt(queues[i].events, place, p))];
      mem := mem[p := mem[p].(inTimeout := true, timeout := t)];
    }

    /** event_add_internal, for an event of a caller: the timeout is set anew. */
    method EventAdd(p: Ptr, tv: Tv, isAbsolute: bool, now: Tv)
      requires Valid() && p in mem && !mem[p].internal && Proper(now) && Usable(tv, |queues|, isAbsolute)
      modifies this`mem, this`heap, this`queues, this`active, this`eventCountActive
      ensures Valid() && |queues| == |old(queues)|
      ensures p in mem && mem[p] ==
              old(mem)[p].(inTimeout := true, timeout := mem[p].timeout,
                           active := old(mem)[p].active && !old(mem)[p].byTimeout)
      ensures var t := Clear(mem[p].timeout);
              Proper(t) && Micros(t) == Micros(Clear(tv)) + if isAbsolute then 0 else Micros(now)
      ensures Tag(mem[p].timeout) == Tag(tv) && (IsCommon(mem[p].timeout, |queues|) <==> IsCommon(tv, |queues|))
      ensures !isAbsolute && tv.sec >= 0 ==> Le(now, Clear(mem[p].timeout))
      ensures UsersSame(old(mem), mem, p)
    {
      hide Awake, AwakeBut, Inv, Remove;
      AwakeAll(mem, heap, queues, running);
      UserIsNoTimer(mem, heap, active, queues, p);
      var n := |queues|;
      if mem[p].inTimeout { QueueRemoveTimeout(p, -1); }
      // a timeout that has fired and not run yet is taken back
      if mem[p].active && mem[p].byTimeout { QueueRemoveActive(p, -1); }
      AwakeAll(mem, heap, queues, running);
      WhenFits(tv, n, isAbsolute, now);
      Insert(p, When(tv, n, isAbsolute, now));
    }

    /** The end of event_add_internal: the timeout goes to its place, and a queue with a new head is woken. */
    method Insert(p: Ptr, t: Tv)
      requires Valid() && p in mem && !mem[p].inTimeout && !mem[p].internal
      requires if IsCommon(t, |queues|) then Proper(Clear(t)) else Proper(t)
      modifies this`mem, this`heap, this`queues, this`active, this`eventCountActive
      ensures Valid() && |queues| == |old(queues)|
      ensures p in mem && mem[p] == old(mem)[p].(inTimeout := true, timeout := t)
      ensures UsersSame(old(mem), mem, p)
    {
      hide Awake, AwakeBut, Inv, Remove;
      UserIsNoTimer(mem, heap, active, queues, p);
      AwakeAll(mem, heap, queues, running);
      if IsCommon(t, |queues|) {
        ghost var k := InsertCommon(p, t);
        TimersAreInternal(mem, heap, active, queues);
        if queues[Idx(t)].events[0] == p { Schedule(Idx(t)); }
      } else {
        AddToHeap(p, t, -1);
        AwakeAll(mem, heap, queues, running);
      }
    }

    /** event_del_internal; if p is a shared timer, then that of queue x. */
    method EventDel(p: Ptr, ghost x: int)
      requires ValidBut(x) && p in mem && OnlyTimerOf(queues, p, x)
      modifies this`mem, this`heap, this`queues, this`active, this`eventCountActive
      ensures ValidBut(x) && mem == old(mem)[p := old(mem)[p].(inTimeout := false, active := false)]
      ensures OnlyTimerOf(queues, p, x) && |queues| == |old(queues)|
      ensures if old(mem)[p].inTimeout && !IsCommon(old(mem)[p].timeout, |old(queues)|)
              then heap == old(heap) - {p} && queues == old(queues) else heap == old(heap)
      ensures if old(mem)[p].inTimeout && IsCommon(old(mem)[p].timeout, |old(queues)|)
              then queues == Without(old(queues), Idx(old(mem)[p].timeout), p) else queues == old(queues)
      ensures active == if old(mem)[p].active then Remove(old(active), p) else old(active)
    {
      hide Awake, AwakeBut, Inv, Remove;
      if mem[p].inTimeout { QueueRemoveTimeout(p, x); }
      if mem[p].active { QueueRemoveActive(p, x); }
    }

    /** event_del, for an event of a caller */
    method EventDelete(p: Ptr)
      requires Valid() && p in mem && !mem[p].internal
      modifies this`mem, this`heap, this`queues, this`active, this`eventCountActive
      ensures Valid() && mem == old(mem)[p := old(mem)[p].(inTimeout := false, active := false)]
    {
      hide Awake, AwakeBut, Inv;
      AwakeAll(mem, heap, queues, running);
      UserIsNoTimer(mem, heap, active, queues, p);
      EventDel(p, -1);
      AwakeAll(mem, heap, queues, running);
    }

    // ----- firing -----

    /** min_heap_top: an event of the heap with the least timeout, or None. */
    method MinHeapTop() returns (top: Option<Ptr>)
      requires Structure()
      ensures match top
              case None => heap == {}
              case Some(p) => p in heap && p in mem && forall q :: q in heap ==> q in mem && Le(mem[p].timeout, mem[q].timeout)
    {
      top := None;
      var rest := heap;
      while rest != {}
        invariant rest <= heap && (top == None ==> rest == heap)
        invariant top.Some? ==> top.value in heap && top.value in mem &&
                                forall q :: q in heap && q !in rest ==> q in mem && Le(mem[top.value].timeout, mem[q].timeout)
      {
        var p :| p in rest;
        if top == None || !Le(mem[top.value].timeout, mem[p].timeout) { top := Some(p); }
        rest := rest - {p};
      }
    }

    /** timeout_process: everything in the heap that is due becomes active. */
    method TimeoutProcess(now: Tv)
      requires Valid()
      modifies this`mem, this`heap, this`queues, this`active, this`eventCountActive
      ensures Valid() && queues == old(queues)
      ensures heap == set p | p in old(heap) && p in old(mem) && !Le(old(mem)[p].timeout, now)
      ensures forall p :: p in old(mem) ==> p in mem
      ensures forall p :: p in old(mem) ==>
                mem[p] == if p in old(heap) && Le(old(mem)[p].timeout, now) then Fired(old(mem)[p]) else old(mem)[p]
    {
      hide Awake, AwakeBut, Inv, Remove;
      AwakeAll(mem, heap, queues, running);
      HeapOk(mem, heap, active, queues);
      while true
        invariant Valid() && queues == old(queues) && heap <= old(heap)
        invariant forall p :: p in heap ==> p in mem && mem[p].inTimeout && !IsCommon(mem[p].timeout, |queues|)
        invariant forall p :: p in mem <==> p in old(mem)
        invariant forall p :: p in old(heap) && p !in heap ==> p in old(mem) && Le(old(mem)[p].timeout, now)
        invariant forall p :: p in old(mem) ==>
                    mem[p] == if p in old(heap) && p !in heap then Fired(old(mem)[p]) else old(mem)[p]
        decreases |heap|
      {
        var top := MinHeapTop();
        if top == None { break; }
        var p := top.value;
        if !Le(mem[p].timeout, now) {
          assert forall q :: q in heap ==> Le(mem[p].timeout, mem[q].timeout);
          break;
        }
        Fire(p);
      }
    }

    /** Take an event that is due out of the heap and make it active. */
    method Fire(p: Ptr)
      requires Valid() && p in heap && p in mem && mem[p].inTimeout && !IsCommon(mem[p].timeout, |queues|)
      modifies this`mem, this`heap, this`queues, this`active, this`eventCountActive
      ensures Valid() && queues == old(queues) && heap == old(heap) - {p}
      ensures mem == old(mem)[p := Fired(old(mem)[p])]
    {
      hide Awake, AwakeBut, Inv, Remove;
      ghost var x := TimerOf(mem, heap, active, queues, running, p);
      EventDel(p, x);
      ActiveNolock(p, true, x);
      AwakeAll(mem, heap, queues, running);
    }

    /** The event loop takes the first active event, to run its callback: event_queue_remove for a persistent
        event, event_del_internal for others.  A shared timer, which is not persistent, is now running. */
    method TakeActive(persistent: bool) returns (p: Ptr)
      requires Valid() && active != [] && (persistent ==> active[0] in mem && !mem[active[0]].internal)
      modifies this`mem, this`heap, this`queues, this`active, this`eventCountActive, this`running
      ensures Valid() && p == old(active)[0] && p in old(mem) && active == old(active)[1..]
      ensures running == old(running) + (set i | 0 <= i < |queues| && queues[i].timer == p)
      ensures mem == old(mem)[p := old(mem)[p].(active := false, inTimeout := old(mem)[p].inTimeout && persistent)]
      ensures heap <= old(heap) && |queues| == |old(queues)|
    {
      hide Awake, AwakeBut, Inv, Remove;
      p := active[0];
      RemoveFirst(active);
      ActiveInside(mem, heap, active, queues);
      ghost var x := TimerOf(mem, heap, active, queues, running, p);
      if persistent {
        QueueRemoveActive(p, x);
      } else {
        EventDel(p, x);
      }
      NowRunning(mem, heap, queues, running, x);
      if x >= 0 { running := running + {x as nat}; }
      AwakeAll(mem, heap, queues, running);
    }

    /** common_timeout_callback: the first n events of queue i, those that are due, become active, and the shared
        timer is set to the first of the others. */
    method Callback(i: nat, now: Tv) returns (n: nat)
      requires Valid() && i < |queues| && i in running
      modifies this`mem, this`heap, this`queues, this`active, this`eventCountActive, this`running
      ensures Valid() && running == old(running) - {i} && |queues| == |old(queues)|
      ensures n <= |old(queues)[i].events| && queues[i].events == old(queues)[i].events[n..]
      ensures AllFired(old(mem), mem, old(queues)[i].events[..n], now)
      ensures queues[i].events != [] ==> Waits(old(mem), mem, queues[i].events[0], now)
      ensures LateHeap(old(mem), old(heap), now) ==> LateHeap(mem, heap, now)
      ensures Changed(old(mem), mem, |queues|, old(queues)[i].events[..n], queues[i].timer)
      ensures n == 0 ==> |active| <= |old(active)|
    {
      hide Awake, AwakeBut, Inv, Remove, LateHeap, FiredUpTo, Changed;
      StopRunning(mem, heap, queues, running, i);
      TimerPlain(mem, heap, active, queues, i);
      running := running - {i};
      n := DueFromQueue(i, now);
      ghost var due, mem1, active1 := old(queues)[i].events[..n], mem, active;
      NoTimersInQueue(old(mem), old(heap), old(active), old(queues), i);
      DueOnly(old(mem), old(heap), old(active), old(queues), mem, i, n, now);
      if queues[i].events != [] {
        Schedule(i);
        RemoveShorter(active1, queues[i].timer);
        assert OthersSame(mem1, mem, queues[i].timer);
        TimerLater(old(mem), mem1, mem, |queues|, due, queues[i].timer);
        LateMore(mem1, mem, old(heap), queues[i].timer, now);
      } else {
        EmptyIsAwake(mem, heap, queues, running, i);
        ChangedLess(old(mem), mem, |queues|, due, queues[i].timer);
      }
    }

    /** Take the first event out of queue i and make it active. */
    method FireHead(i: nat)
      requires ValidBut(i) && i < |queues| && queues[i].events != []
      modifies this`mem, this`heap, this`queues, this`active, this`eventCountActive
      ensures ValidBut(i) && |queues| == |old(queues)|
      ensures queues[i] == old(queues)[i].(events := old(queues)[i].events[1..])
      ensures var p := old(queues)[i].events[0]; p in old(mem) && mem == old(mem)[p := Fired(old(mem)[p])]
      ensures queues[i].events != [] ==> queues[i].events[0] in mem
      ensures heap == old(heap)
    {
      hide Awake, AwakeBut, Inv;
      HeadOk(mem, heap, active, queues, i);
      var p := queues[i].events[0];
      EventDel(p, i);
      ActiveNolock(p, true, i);
      if queues[i].events != [] { HeadOk(mem, heap, active, queues, i); }
    }

    /** The loop of common_timeout_callback. */
    method DueFromQueue(i: nat, now: Tv) returns (n: nat)
      requires ValidBut(i) && i < |queues|
      modifies this`mem, this`heap, this`queues, this`active, this`eventCountActive
      ensures ValidBut(i) && |queues| == |old(queues)|
      ensures n <= |old(queues)[i].events| && queues[i] == old(queues)[i].(events := old(queues)[i].events[n..])
      ensures AllFired(old(mem), mem, old(queues)[i].events[..n], now)
      ensures queues[i].events != [] ==> Waits(old(mem), mem, queues[i].events[0], now)
      ensures heap == old(heap) && mem.Keys == old(mem).Keys && (n == 0 ==> active == old(active))
      ensures FiredUpTo(old(mem), mem, old(queues)[i].events, n, now)
    {
      hide Awake, AwakeBut, Inv, FiredUpTo, AllFired, NoDup;
      NoTimersInQueue(mem, heap, active, queues, i);
      ghost var s := queues[i].events;
      n := 0;
      FiredNone(mem, s, now);
      if s != [] { HeadOk(mem, heap, active, queues, i); }
      while queues[i].events != [] && Le(Clear(mem[queues[i].events[0]].timeout), now)
        invariant ValidBut(i) && |queues| == |old(queues)|
        invariant n <= |s| && queues[i] == old(queues)[i].(events := s[n..])
        invariant FiredUpTo(old(mem), mem, s, n, now)
        invariant queues[i].events != [] ==> queues[i].events[0] in mem
        invariant heap == old(heap) && mem.Keys == old(mem).Keys && (n == 0 ==> active == old(active))
        decreases |queues[i].events|
      {
        ghost var was := mem;
        FireHead(i);
        FiredNext(old(mem), was, mem, s, n, now);
        assert s[n..][1..] == s[n + 1..];
        n := n + 1;
      }
      FiredEnd(old(mem), mem, s, n, now);
    }

    /** The callback of the first active event.  That of a shared timer is common_timeout_callback; the others leave
        the event_base alone. */
    method RunFirst(persistent: set<Ptr>, now: Tv)
      requires Valid() && active != [] && running == {} && LateHeap(mem, heap, now)
      modifies this`mem, this`heap, this`queues, this`active, this`eventCountActive, this`running
      ensures Valid() && running == {} && LateHeap(mem, heap, now) && |queues| == |old(queues)|
      ensures Queued(mem, |queues|) <= Queued(old(mem), |queues|)
      ensures Queued(mem, |queues|) == Queued(old(mem), |queues|) ==> |active| < |old(active)|
    {
      hide Awake, AwakeBut, Inv, Remove, Changed, IsCommon;
      ActiveInside(mem, heap, active, queues);
      var persists := active[0] in persistent && !mem[active[0]].internal;
      var p := TakeActive(persists);
      ghost var mem1 := mem;
      OneQueued(old(mem), mem1, |queues|, p, persists);
      var i := QueueOf(p);
      if i.Some? {
        ghost var s := queues[i.value].events;
        var n := Callback(i.value, now);
        FewerQueued(mem1, mem, |queues|, s[..n], queues[i.value].timer);
        if n > 0 { assert s[0] in s[..n]; }
      }
    }

    /** The queue of which p is the shared timer */
    method QueueOf(p: Ptr) returns (i: Option<nat>)
      requires Structure()
      ensures match i
              case None => (set j | 0 <= j < |queues| && queues[j].timer == p) == {}
              case Some(k) => k < |queues| && (set j | 0 <= j < |queues| && queues[j].timer == p) == {k}
    {
      hide Placed, ActiveOk;
      var k := 0;
      while k < |queues|
        invariant k <= |queues| && forall j :: 0 <= j < k ==> queues[j].timer != p
      {
        if queues[k].timer == p {
          assert forall j :: 0 <= j < |queues| && queues[j].timer == p ==> j == k;
          return Some(k);
        }
        k := k + 1;
      }
      i := None;
    }

    /** timeout_process, and the callbacks of everything that is active then: afterwards no pending event is due. */
    method ProcessDue(persistent: set<Ptr>, now: Tv)
      requires Valid() && running == {}
      modifies this`mem, this`heap, this`queues, this`active, this`eventCountActive, this`running
      ensures Valid() && active == [] && running == {}
      ensures forall p :: p in mem && mem[p].inTimeout ==> !Le(Clear(mem[p].timeout), now)
    {
      hide Awake, AwakeBut, Inv, Remove;
      TimeoutProcess(now);
      HeapOk(mem, heap, active, queues);
      while active != []
        invariant Valid() && running == {} && LateHeap(mem, heap, now)
        decreases |Queued(mem, |queues|)|, |active|
      {
        ghost var was := Queued(mem, |queues|);
        RunFirst(persistent, now);
        Smaller(Queued(mem, |queues|), was);
      }
      NothingDue(mem, heap, active, queues, running, now);
    }

    // ----- clock correction and new queues -----

    /** timeout_correct: when the clock has run backwards, every pending timeout is moved by as much. */
    method TimeoutCorrect(tv: Tv)
      requires Valid() && Proper(tv)
      modifies this`mem, this`eventTv
      ensures Valid()
      ensures eventTv == if useMonotonic then old(eventTv) else tv
      ensures mem.Keys == old(mem).Keys
      ensures forall p :: p in mem && (useMonotonic || Micros(old(eventTv)) <= Micros(tv) || !old(mem)[p].inTimeout) ==>
                mem[p] == old(mem)[p]
      ensures forall p :: p in mem && !useMonotonic && Micros(tv) < Micros(old(eventTv)) && old(mem)[p].inTimeout ==>
                EarlierBy(old(mem)[p], mem[p], Micros(old(eventTv)) - Micros(tv))
    {
      if useMonotonic { return; }
      LeIsEarlier(eventTv, tv);
      SubIsEarlier(eventTv, tv);
      if Le(eventTv, tv) {
        eventTv := tv;
        return;
      }
      hide Inv, Awake, Moved, Sub, Micros, EarlierBy;
      ghost var off := Sub(eventTv, tv);
      MovePending(Sub(eventTv, tv));
      eventTv := tv;
      PendingEarlier(old(mem), mem, heap, active, queues, off);
    }

    /** The inner loop of timeout_correct, over queue i. */
    method MoveQueue(i: nat, off: Tv, ghost orig: map<Ptr, EventRec>, ghost done: set<Ptr>)
      requires i < |queues| && Proper(off) && Inv(orig, heap, active, queues)
      requires done == heap + EventsBefore(queues, i) && PartlyMoved(orig, mem, done, off)
      modifies this`mem
      ensures PartlyMoved(orig, mem, done + Elements(queues[i].events), off)
    {
      hide Inv, Moved, EventsBefore;
      QueueIs(orig, heap, active, queues, i);
      var s, k := queues[i].events, 0;
      while k < |s|
        invariant 0 <= k <= |s| && PartlyMoved(orig, mem, done + Elements(s[..k]), off)
      {
        var p := s[k];
        MovedTagged(orig[p], off);
        mem := mem[p := mem[p].(timeout := Tagged(Sub(Clear(mem[p].timeout), off), TagOf(i)))];
        assert s[..k + 1] == s[..k] + [p] && p !in s[..k];
        k := k + 1;
      }
      assert s[..k] == s;
    }

    /** The loops of timeout_correct. */
    method MovePending(off: Tv)
      requires Valid() && Proper(off)
      modifies this`mem
      ensures Valid() && MovedBy(old(mem), mem, off)
    {
      hide Inv, Awake, Moved;
      PendingAre(mem, heap, active, queues);
      ghost var done: set<Ptr> := {};
      var rest := heap;
      while rest != {}
        invariant rest <= heap && done == heap - rest && PartlyMoved(old(mem), mem, done, off)
      {
        var p :| p in rest;
        var tv := mem[p].timeout;
        MovedPlain(old(mem)[p], off);
        mem := mem[p := mem[p].(timeout := Sub(tv, off))];
        rest := rest - {p};
        done := done + {p};
      }
      var i := 0;
      while i < |queues|
        invariant 0 <= i <= |queues| && done == heap + EventsBefore(queues, i) && PartlyMoved(old(mem), mem, done, off)
      {
        MoveQueue(i, off, old(mem), done);
        done := done + Elements(queues[i].events);
        i := i + 1;
      }
      AllMoved(old(mem), mem, heap, active, queues, done, off);
      MoveKeeps(old(mem), mem, heap, active, queues, running, off);
    }

    /** event_base_init_common_timeout: the index of the queue for a duration, which is made if there is none, or
        None if there are too many. */
    method InitCommonTimeout(duration: Tv) returns (i: Option<nat>)
      requires Valid()
      modifies this`mem, this`nextPtr, this`queues
      ensures Valid()
      ensures match i
              case None => queues == old(queues) && |queues| == MAX_COMMON_TIMEOUTS
              case Some(k) => k < |queues| && Clear(queues[k].duration) == Normal(duration, |old(queues)|) &&
                              old(queues) <= queues &&
                              IsCommon(queues[k].duration, |queues|) && Idx(queues[k].duration) == k
      ensures if HasQueue(old(queues), Normal(duration, |old(queues)|)) then i.Some? && queues == old(queues)
              else i.Some? ==> |queues| == |old(queues)| + 1
      ensures forall p :: p in old(mem) ==> p in mem && mem[p] == old(mem)[p]
    {
      var d := Normal(duration, |queues|);
      var j := 0;
      QueuesFit(mem, heap, active, queues);
      while j < |queues|
        invariant 0 <= j <= |queues|
        invariant forall k :: 0 <= k < j ==> Clear(queues[k].duration) != d
      {
        if Clear(queues[j].duration) == d {
          CommonTag(queues[j].duration, |queues|);
          return Some(j);
        }
        j := j + 1;
      }
      if |queues| == MAX_COMMON_TIMEOUTS { return None; }
      AppendQueue(d);
      i := Some(|queues| - 1);
    }

    /** A new common timeout queue, and the event that is its timer. */
    method AppendQueue(d: Tv)
      requires Valid() && |queues| < MAX_COMMON_TIMEOUTS && d.usec <= MILLION
      modifies this`mem, this`nextPtr, this`queues
      ensures Valid() && |queues| == |old(queues)| + 1 && old(queues) <= queues
      ensures var k := |queues| - 1;
              Clear(queues[k].duration) == d && IsCommon(queues[k].duration, |queues|) && Idx(queues[k].duration) == k
      ensures forall p :: p in old(mem) ==> p in mem && mem[p] == old(mem)[p]
    {
      hide Inv, Awake, AwakeBut, OnlyTimerOf, IsCommon;
      QueuesFit(mem, heap, active, queues);
      var rec := EventRec(Tv(0, 0), false, false, false, true);
      var q := CommonList([], Tagged(d, TagOf(|queues|)), nextPtr);
      AwakeAll(mem, heap, queues, running);
      NewKeeps(mem, heap, active, queues, running, nextPtr, rec, -1);
      AwakeAll(mem[nextPtr := rec], heap, queues, running);
      NewIsNoTimer(mem, heap, active, queues, nextPtr);
      NewQueueKeeps(mem[nextPtr := rec], heap, active, queues, running, q);
      mem := mem[nextPtr := rec];
      nextPtr := nextPtr + 1;
      queues := queues + [q];
      CommonTag(q.duration, |queues|);
    }
  }

  /** These events were due, and have become active. */
  ghost predicate AllFired(mem: map<Ptr, EventRec>, mem2: map<Ptr, EventRec>, due: seq<Ptr>, now: Tv) {
    forall p :: p in due ==> p in mem && p in mem2 && Le(Clear(mem[p].timeout), now) && mem2[p] == Fired(mem[p])
  }

  /** The first n events of s were due and have become active, and nothing else has changed. */
  ghost predicate FiredUpTo(mem: map<Ptr, EventRec>, mem2: map<Ptr, EventRec>, s: seq<Ptr>, n: nat, now: Tv) {
    n <= |s| && AllFired(mem, mem2, s[..n], now) &&
    forall p :: p in mem && p !in s[..n] ==> p in mem2 && mem2[p] == mem[p]
  }

  lemma FiredNone(mem: map<Ptr, EventRec>, s: seq<Ptr>, now: Tv)
    ensures FiredUpTo(mem, mem, s, 0, now)
  {
  }

  lemma FiredNext(mem: map<Ptr, EventRec>, was: map<Ptr, EventRec>, mem2: map<Ptr, EventRec>, s: seq<Ptr>, n: nat, now: Tv)
    requires FiredUpTo(mem, was, s, n, now) && NoDup(s) && n < |s| && s[n] in mem
    requires s[n] in was && Le(Clear(was[s[n]].timeout), now) && mem2 == was[s[n] := Fired(was[s[n]])]
    ensures FiredUpTo(mem, mem2, s, n + 1, now)
  {
    assert s[..n + 1] == s[..n] + [s[n]] && s[n] !in s[..n];
  }

  lemma FiredEnd(mem: map<Ptr, EventRec>, mem2: map<Ptr, EventRec>, s: seq<Ptr>, n: nat, now: Tv)
    requires FiredUpTo(mem, mem2, s, n, now) && NoDup(s) && forall p :: p in s ==> p in mem
    ensures n <= |s| && AllFired(mem, mem2, s[..n], now)
    ensures n < |s| ==> s[n] in mem && s[n] in mem2 && mem2[s[n]] == mem[s[n]]
  {
    if n < |s| { assert s[n] !in s[..n]; }
  }

  /** This event is not due, and has not changed. */
  ghost predicate Waits(mem: map<Ptr, EventRec>, mem2: map<Ptr, EventRec>, p: Ptr, now: Tv) {
    p in mem && p in mem2 && !Le(Clear(mem[p].timeout), now) && mem2[p] == mem[p]
  }

  lemma StopRunning(mem: map<Ptr, EventRec>, heap: set<Ptr>, queues: seq<CommonList>, running: set<nat>, i: nat)
    requires Awake(mem, heap, queues, running)
    ensures AwakeBut(mem, heap, queues, running - {i}, i)
  {
    var others := running - {i};
    forall j | 0 <= j < |queues| && j != i ensures AwakeAt(mem, heap, queues, others, j) {
      assert AwakeAt(mem, heap, queues, running, j);
    }
  }

  lemma EmptyIsAwake(mem: map<Ptr, EventRec>, heap: set<Ptr>, queues: seq<CommonList>, running: set<nat>, i: nat)
    requires AwakeBut(mem, heap, queues, running, i) && i < |queues| && queues[i].events == []
    ensures Awake(mem, heap, queues, running)
  {
  }

  lemma NoTimersInQueue(mem: map<Ptr, EventRec>, heap: set<Ptr>, active: seq<Ptr>, queues: seq<CommonList>, i: nat)
    requires Inv(mem, heap, active, queues) && i < |queues|
    ensures NoDup(queues[i].events) && queues[i].timer !in queues[i].events
    ensures forall p :: p in queues[i].events ==> p in mem
  {
    assert ListOk(mem, queues[i].events, i);
  }

  /** The events that wait in the queues */
  ghost function Queued(mem: map<Ptr, EventRec>, n: nat): set<Ptr> {
    set p | p in mem && mem[p].inTimeout && IsCommon(mem[p].timeout, n)
  }

  lemma OneQueued(mem: map<Ptr, EventRec>, mem2: map<Ptr, EventRec>, n: nat, p: Ptr, persists: bool)
    requires p in mem && mem2 == mem[p := mem[p].(active := false, inTimeout := mem[p].inTimeout && persists)]
    ensures Queued(mem2, n) <= Queued(mem, n)
  {
  }

  lemma FewerQueued(mem: map<Ptr, EventRec>, mem2: map<Ptr, EventRec>, n: nat, due: seq<Ptr>, timer: Ptr)
    requires Changed(mem, mem2, n, due, timer)
    ensures Queued(mem2, n) <= Queued(mem, n)
    ensures due != [] ==> Queued(mem2, n) != Queued(mem, n)
  {
    if due != [] { assert due[0] in due && due[0] in Queued(mem, n); }
  }

  lemma Smaller(a: set<Ptr>, b: set<Ptr>)
    requires a <= b
    ensures |a| <= |b| && (a != b ==> |a| < |b|)
  {
    assert b == a + (b - a);
    if a != b { assert b - a != {}; }
  }

  /** Nothing that is due is pending when nothing is active. */
  lemma NothingDue(mem: map<Ptr, EventRec>, heap: set<Ptr>, active: seq<Ptr>, queues: seq<CommonList>, running: set<nat>, now: Tv)
    requires Inv(mem, heap, active, queues) && Awake(mem, heap, queues, running)
    requires active == [] && running == {} && LateHeap(mem, heap, now)
    ensures forall p :: p in mem && mem[p].inTimeout ==> !Le(Clear(mem[p].timeout), now)
  {
    forall p | p in mem && mem[p].inTimeout ensures !Le(Clear(mem[p].timeout), now) {
      NoLostTimeout(mem, heap, active, queues, running, p);
      if p in heap { assert Proper(mem[p].timeout); }
    }
  }

  /** Nothing in the heap is due. */
  ghost predicate LateHeap(mem: map<Ptr, EventRec>, heap: set<Ptr>, now: Tv) {
    forall p :: p in heap ==> p in mem && !Le(mem[p].timeout, now)
  }

  /** Besides a shared timer only these events have changed, and they no longer wait in a queue. */
  ghost predicate Changed(mem: map<Ptr, EventRec>, mem2: map<Ptr, EventRec>, n: nat, due: seq<Ptr>, timer: Ptr) {
    && mem2.Keys == mem.Keys && n <= 256
    && (forall p :: p in due ==> p in mem && mem[p].inTimeout && IsCommon(mem[p].timeout, n) && !mem2[p].inTimeout)
    && (forall p :: p in mem && p !in due && p != timer ==> mem2[p] == mem[p])
    && (timer in mem ==> !IsCommon(mem2[timer].timeout, n))
  }

  lemma TimerPlain(mem: map<Ptr, EventRec>, heap: set<Ptr>, active: seq<Ptr>, queues: seq<CommonList>, i: nat)
    requires Inv(mem, heap, active, queues) && i < |queues|
    ensures queues[i].timer in mem && !IsCommon(mem[queues[i].timer].timeout, |queues|) && |queues| <= 256
    ensures queues[i].timer !in queues[i].events
  {
    CommonTag(mem[queues[i].timer].timeout, |queues|);
    NoTimersInQueue(mem, heap, active, queues, i);
  }

  /** The events of a queue that have fired are not in the heap. */
  lemma DueOnly(mem: map<Ptr, EventRec>, heap: set<Ptr>, active: seq<Ptr>, queues: seq<CommonList>, mem2: map<Ptr, EventRec>,
                i: nat, n: nat, now: Tv)
    requires Inv(mem, heap, active, queues) && i < |queues| && FiredUpTo(mem, mem2, queues[i].events, n, now)
    requires mem2.Keys == mem.Keys
    ensures var due := queues[i].events[..n];
            && |queues| <= 256
            && (forall p :: p in due ==> p in mem && mem[p].inTimeout && IsCommon(mem[p].timeout, |queues|) && !mem2[p].inTimeout)
            && (forall p :: p in mem && p !in due ==> mem2[p] == mem[p])
    ensures LateHeap(mem, heap, now) ==> LateHeap(mem2, heap, now)
  {
    var due := queues[i].events[..n];
    assert ListOk(mem, queues[i].events, i);
    forall p | p in due
      ensures p in mem && mem[p].inTimeout && IsCommon(mem[p].timeout, |queues|) && !mem2[p].inTimeout
    {
      assert p in queues[i].events;
      CommonTag(mem[p].timeout, |queues|);
    }
    HeapOk(mem, heap, active, queues);
  }

  lemma TimerLater(mem: map<Ptr, EventRec>, mem1: map<Ptr, EventRec>, mem2: map<Ptr, EventRec>, n: nat, due: seq<Ptr>,
                   timer: Ptr)
    requires timer in mem && timer !in due && n <= 256 && mem1.Keys == mem.Keys && OthersSame(mem1, mem2, timer)
    requires forall p :: p in due ==> p in mem && mem[p].inTimeout && IsCommon(mem[p].timeout, n) && !mem1[p].inTimeout
    requires forall p :: p in mem && p !in due ==> mem1[p] == mem[p]
    requires mem2[timer].timeout.usec < USEC_RANGE
    ensures Changed(mem, mem2, n, due, timer)
  {
    CommonTag(mem2[timer].timeout, n);
  }

  lemma ChangedLess(mem: map<Ptr, EventRec>, mem2: map<Ptr, EventRec>, n: nat, due: seq<Ptr>, timer: Ptr)
    requires timer in mem && timer !in due && n <= 256 && mem2.Keys == mem.Keys && !IsCommon(mem[timer].timeout, n)
    requires forall p :: p in due ==> p in mem && mem[p].inTimeout && IsCommon(mem[p].timeout, n) && !mem2[p].inTimeout
    requires forall p :: p in mem && p !in due ==> mem2[p] == mem[p]
    ensures Changed(mem, mem2, n, due, timer)
  {
  }

  lemma LateMore(mem: map<Ptr, EventRec>, mem2: map<Ptr, EventRec>, heap: set<Ptr>, timer: Ptr, now: Tv)
    requires OthersSame(mem, mem2, timer) && !Le(mem2[timer].timeout, now)
    ensures LateHeap(mem, heap, now) ==> LateHeap(mem2, heap + {timer}, now)
  {
  }

  lemma {:induction false} RemoveShorter(s: seq<Ptr>, p: Ptr)
    ensures |Remove(s, p)| <= |s|
    decreases |s|
  {
    if s != [] && s[0] != p { RemoveShorter(s[1..], p); }
  }

  lemma RemoveFirst(s: seq<Ptr>)
    requires s != []
    ensures Remove(s, s[0]) == s[1..]
  {
  }

  lemma ActiveInside(mem: map<Ptr, EventRec>, heap: set<Ptr>, active: seq<Ptr>, queues: seq<CommonList>)
    requires Inv(mem, heap, active, queues) && active != []
    ensures active[0] in mem && mem[active[0]].active
  {
    assert active[0] in active;
  }

  /** While its callback is about to run, a queue is safe. */
  lemma NowRunning(mem: map<Ptr, EventRec>, heap: set<Ptr>, queues: seq<CommonList>, running: set<nat>, x: int)
    requires AwakeBut(mem, heap, queues, running, x)
    ensures 0 <= x ==> Awake(mem, heap, queues, running + {x as nat})
    ensures x == -1 ==> Awake(mem, heap, queues, running)
  {
    if 0 <= x {
      var more := running + {x as nat};
      forall j | 0 <= j < |queues| ensures AwakeAt(mem, heap, queues, more, j) {
        if j != x { assert AwakeAt(mem, heap, queues, running, j); }
      }
    }
  }

  /** An event whose timeout has made it active */
  function Fired(rec: EventRec): EventRec {
    rec.(inTimeout := false, active := true, byTimeout := true)
  }

  /** The queue of which p is the shared timer, or -1. */
  lemma TimerOf(mem: map<Ptr, EventRec>, heap: set<Ptr>, active: seq<Ptr>, queues: seq<CommonList>,
                running: set<nat>, p: Ptr) returns (x: int)
    requires Inv(mem, heap, active, queues) && Awake(mem, heap, queues, running)
    ensures OnlyTimerOf(queues, p, x) && AwakeBut(mem, heap, queues, running, x)
    ensures x == -1 || (0 <= x < |queues| && queues[x].timer == p)
  {
    if i :| 0 <= i < |queues| && queues[i].timer == p {
      x := i;
    } else {
      x := -1;
    }
  }

  lemma HeapOk(mem: map<Ptr, EventRec>, heap: set<Ptr>, active: seq<Ptr>, queues: seq<CommonList>)
    requires Inv(mem, heap, active, queues)
    ensures forall p :: p in heap ==> p in mem && mem[p].inTimeout && !IsCommon(mem[p].timeout, |queues|)
  {
    forall p | p in heap ensures !IsCommon(mem[p].timeout, |queues|) {
      CommonTag(mem[p].timeout, |queues|);
    }
  }

  /** What callers may ask for: a proper time, plain or with the tag of a queue.  The duration of a queue can be a
      million microseconds. */
  predicate Usable(tv: Tv, n: nat, isAbsolute: bool) {
    if IsCommon(tv, n) then Clear(tv).usec < MILLION + if isAbsolute then 0 else 1 else Proper(tv)
  }

  /** The absolute time of a timeout, with the tag of its queue. */
  function When(tv: Tv, n: nat, isAbsolute: bool, now: Tv): Tv
    requires Proper(now) && Usable(tv, n, isAbsolute)
  {
    if isAbsolute then tv
    else if IsCommon(tv, n) then Tagged(Add(now, Clear(tv)), Tag(tv))
    else Add(now, tv)
  }

  lemma WhenFits(tv: Tv, n: nat, isAbsolute: bool, now: Tv)
    requires Proper(now) && Usable(tv, n, isAbsolute) && n <= 256
    ensures var t := When(tv, n, isAbsolute, now);
            (IsCommon(t, n) <==> IsCommon(tv, n)) && Proper(Clear(t)) &&
            (if IsCommon(tv, n) then Idx(t) == Idx(tv) < n else Proper(t))
    ensures var t := When(tv, n, isAbsolute, now);
            && Micros(Clear(t)) == Micros(Clear(tv)) + (if isAbsolute then 0 else Micros(now))
            && Tag(t) == Tag(tv) && (!isAbsolute && tv.sec >= 0 ==> Le(now, Clear(t)))
  {
    AddIsLater(now, Clear(tv));
    var t := When(tv, n, isAbsolute, now);
    CommonTag(tv, n);
    CommonTag(t, n);
  }

  /** No event of a caller has changed but p. */
  ghost predicate UsersSame(mem: map<Ptr, EventRec>, mem2: map<Ptr, EventRec>, p: Ptr) {
    forall q :: q in mem && q != p && !mem[q].internal ==> q in mem2 && mem2[q] == mem[q]
  }

  lemma AwakeAll(mem: map<Ptr, EventRec>, heap: set<Ptr>, queues: seq<CommonList>, running: set<nat>)
    ensures Awake(mem, heap, queues, running) <==> AwakeBut(mem, heap, queues, running, -1)
  {
  }

  lemma UserIsNoTimer(mem: map<Ptr, EventRec>, heap: set<Ptr>, active: seq<Ptr>, queues: seq<CommonList>, p: Ptr)
    requires Inv(mem, heap, active, queues) && p in mem && !mem[p].internal
    ensures OnlyTimerOf(queues, p, -1) && |queues| <= 256
  {
  }

  lemma TimersAreInternal(mem: map<Ptr, EventRec>, heap: set<Ptr>, active: seq<Ptr>, queues: seq<CommonList>)
    requires Inv(mem, heap, active, queues)
    ensures forall i :: 0 <= i < |queues| ==> queues[i].timer in mem && mem[queues[i].timer].internal
  {
  }

  /** Only p has changed. */
  ghost predicate OthersSame(mem: map<Ptr, EventRec>, mem2: map<Ptr, EventRec>, p: Ptr) {
    p in mem2 && mem2 == mem[p := mem2[p]]
  }

  /** What Inv says about the head of queue i and its shared timer. */
  lemma HeadOk(mem: map<Ptr, EventRec>, heap: set<Ptr>, active: seq<Ptr>, queues: seq<CommonList>, i: nat)
    requires Inv(mem, heap, active, queues) && i < |queues| && queues[i].events != []
    ensures var h, t := queues[i].events[0], queues[i].timer;
            && h in mem && t in mem && h != t && Proper(Clear(mem[h].timeout)) && mem[h].inTimeout
            && !IsCommon(mem[t].timeout, |queues|) && OnlyTimerOf(queues, t, i)
            && OnlyTimerOf(queues, h, i) && Tag(mem[h].timeout) == TagOf(i) && IsCommon(mem[h].timeout, |queues|) && Idx(mem[h].timeout) == i
  {
    assert ListOk(mem, queues[i].events, i);
    assert queues[i].events[0] in queues[i].events;
    CommonTag(mem[queues[i].events[0]].timeout, |queues|);
    CommonTag(mem[queues[i].timer].timeout, |queues|);
  }

  /** A pending timeout after the correction */
  function Moved(rec: EventRec, off: Tv): EventRec {
    if off.usec <= Clear(rec.timeout).usec + MILLION && Sub(Clear(rec.timeout), off).usec < USEC_RANGE
    then rec.(timeout := Tagged(Sub(Clear(rec.timeout), off), Tag(rec.timeout))) else rec
  }

  /** All pending timeouts, and nothing else, have been moved. */
  ghost predicate MovedBy(mem: map<Ptr, EventRec>, mem2: map<Ptr, EventRec>, off: Tv) {
    && mem2.Keys == mem.Keys
    && forall p :: p in mem ==> mem2[p] == if mem[p].inTimeout then Moved(mem[p], off) else mem[p]
  }

  ghost predicate PartlyMoved(mem: map<Ptr, EventRec>, mem2: map<Ptr, EventRec>, done: set<Ptr>, off: Tv) {
    && mem2.Keys == mem.Keys
    && forall p :: p in mem ==> mem2[p] == if p in done then Moved(mem[p], off) else mem[p]
  }

  ghost function Elements(s: seq<Ptr>): set<Ptr> {
    set p | p in s
  }

  ghost function EventsBefore(queues: seq<CommonList>, i: nat): set<Ptr>
    requires i <= |queues|
  {
    if i == 0 then {} else EventsBefore(queues, i - 1) + Elements(queues[i - 1].events)
  }

  lemma MovedPlain(rec: EventRec, off: Tv)
    requires Proper(rec.timeout) && Proper(off)
    ensures Moved(rec, off) == rec.(timeout := Sub(rec.timeout, off))
  {
  }

  lemma MovedTagged(rec: EventRec, off: Tv)
    requires Proper(Clear(rec.timeout)) && Proper(off)
    ensures Moved(rec, off) == rec.(timeout := Tagged(Sub(Clear(rec.timeout), off), Tag(rec.timeout)))
    ensures Proper(Clear(Moved(rec, off).timeout)) && Tag(Moved(rec, off).timeout) == Tag(rec.timeout)
  {
  }

  /** The events of the heap */
  lemma PendingAre(mem: map<Ptr, EventRec>, heap: set<Ptr>, active: seq<Ptr>, queues: seq<CommonList>)
    requires Inv(mem, heap, active, queues)
    ensures forall p :: p in heap ==> p in mem && mem[p].inTimeout && Proper(mem[p].timeout)
  {
  }

  /** The events of the first i queues have lower tags than those of queue i. */
  lemma {:induction false} TagsBefore(mem: map<Ptr, EventRec>, queues: seq<CommonList>, i: nat)
    requires i <= |queues| && forall j :: 0 <= j < |queues| ==> ListOk(mem, queues[j].events, j)
    ensures forall p :: p in EventsBefore(queues, i) ==>
              p in mem && mem[p].inTimeout && TagOf(0) <= Tag(mem[p].timeout) < TagOf(i)
  {
    if i > 0 {
      TagsBefore(mem, queues, i - 1);
      assert ListOk(mem, queues[i - 1].events, i - 1);
    }
  }

  lemma {:induction false} BeforeHas(queues: seq<CommonList>, i: nat, j: nat)
    requires j < i <= |queues|
    ensures Elements(queues[j].events) <= EventsBefore(queues, i)
  {
    if j < i - 1 { BeforeHas(queues, i - 1, j); }
  }

  /** The events of queue i are in no other place. */
  lemma QueueIs(mem: map<Ptr, EventRec>, heap: set<Ptr>, active: seq<Ptr>, queues: seq<CommonList>, i: nat)
    requires Inv(mem, heap, active, queues) && i < |queues|
    ensures NoDup(queues[i].events)
    ensures forall p :: p in queues[i].events ==>
              p in mem && Tag(mem[p].timeout) == TagOf(i) && Proper(Clear(mem[p].timeout)) &&
              p !in heap && p !in EventsBefore(queues, i)
  {
    TagsBefore(mem, queues, i);
    assert ListOk(mem, queues[i].events, i);
  }

  lemma AllMoved(mem: map<Ptr, EventRec>, mem2: map<Ptr, EventRec>, heap: set<Ptr>, active: seq<Ptr>,
                 queues: seq<CommonList>, done: set<Ptr>, off: Tv)
    requires Inv(mem, heap, active, queues) && PartlyMoved(mem, mem2, done, off)
    requires done == heap + EventsBefore(queues, |queues|)
    ensures MovedBy(mem, mem2, off)
  {
    hide Moved;
    TagsBefore(mem, queues, |queues|);
    forall p | p in mem ensures mem[p].inTimeout <==> p in done {
      if mem[p].inTimeout && IsCommon(mem[p].timeout, |queues|) {
        BeforeHas(queues, |queues|, Idx(mem[p].timeout));
      }
    }
  }

  /** Moving all pending timeouts keeps every order. */
  lemma MoveKeeps(mem: map<Ptr, EventRec>, mem2: map<Ptr, EventRec>, heap: set<Ptr>, active: seq<Ptr>,
                  queues: seq<CommonList>, running: set<nat>, off: Tv)
    requires Inv(mem, heap, active, queues) && Awake(mem, heap, queues, running) && MovedBy(mem, mem2, off) && Proper(off)
    ensures Inv(mem2, heap, active, queues) && Awake(mem2, heap, queues, running)
  {
    hide Moved, ListOk, NoDup;
    forall i | 0 <= i < |queues| ensures ListOk(mem2, queues[i].events, i) && AwakeAt(mem2, heap, queues, running, i) {
      assert AwakeAt(mem, heap, queues, running, i);
      MoveKeepsQueue(mem, mem2, queues[i].events, i, off);
      var t := queues[i].timer;
      if t in heap && queues[i].events != [] {
        MovedPlain(mem[t], off);
        HeadOk(mem, heap, active, queues, i);
        var h := queues[i].events[0];
        MovedTagged(mem[h], off);
        SubKeepsOrder(mem[t].timeout, Clear(mem[h].timeout), off);
      }
    }
    forall p | p in mem && mem[p].inTimeout && !IsCommon(mem[p].timeout, |queues|)
      ensures Proper(mem2[p].timeout)
    {
      assert p in heap;
      MovedPlain(mem[p], off);
      SubKeepsOrder(mem[p].timeout, mem[p].timeout, off);
    }
    forall p | p in mem && mem[p].inTimeout
      ensures mem2[p].inTimeout && IsCommon(mem2[p].timeout, |queues|) == IsCommon(mem[p].timeout, |queues|) &&
              (IsCommon(mem[p].timeout, |queues|) ==> Idx(mem2[p].timeout) == Idx(mem[p].timeout))
    {
      MovedFlags(mem[p], off);
      CommonTag(mem[p].timeout, |queues|);
      CommonTag(mem2[p].timeout, |queues|);
    }
    forall p | p in mem ensures mem2[p].active == mem[p].active && mem2[p].internal == mem[p].internal {
      MovedFlags(mem[p], off);
    }
    forall i | 0 <= i < |queues| ensures Proper(mem2[queues[i].timer].timeout) {
      CommonTag(mem[queues[i].timer].timeout, |queues|);
    }
  }

  /** The time of the event is so many microseconds earlier, in order, with its tag, and the rest of it is as before. */
  ghost predicate EarlierBy(rec: EventRec, rec2: EventRec, micros: int) {
    && rec2 == rec.(timeout := rec2.timeout) && Tag(rec2.timeout) == Tag(rec.timeout)
    && Proper(Clear(rec2.timeout)) && Micros(Clear(rec2.timeout)) == Micros(Clear(rec.timeout)) - micros
  }

  lemma PendingEarlier(mem: map<Ptr, EventRec>, mem2: map<Ptr, EventRec>, heap: set<Ptr>, active: seq<Ptr>,
                       queues: seq<CommonList>, off: Tv)
    requires Inv(mem, heap, active, queues) && MovedBy(mem, mem2, off) && Proper(off)
    ensures forall p :: p in mem && mem[p].inTimeout ==> EarlierBy(mem[p], mem2[p], Micros(off))
  {
    hide Moved, Tagged, Sub, Micros, EarlierBy;
    forall p | p in mem && mem[p].inTimeout ensures EarlierBy(mem[p], mem2[p], Micros(off)) {
      if IsCommon(mem[p].timeout, |queues|) {
        assert ListOk(mem, queues[Idx(mem[p].timeout)].events, Idx(mem[p].timeout));
      }
      MovedEarlier(mem[p], off);
    }
  }

  lemma MovedEarlier(rec: EventRec, off: Tv)
    requires Proper(Clear(rec.timeout)) && Proper(off)
    ensures EarlierBy(rec, Moved(rec, off), Micros(off))
  {
    MovedTagged(rec, off);
    SubIsEarlier(Clear(rec.timeout), off);
  }

  lemma MovedFlags(rec: EventRec, off: Tv)
    ensures var r := Moved(rec, off);
            r.inTimeout == rec.inTimeout && r.active == rec.active && r.internal == rec.internal &&
            Tag(r.timeout) == Tag(rec.timeout)
  {
  }

  lemma MoveKeepsQueue(mem: map<Ptr, EventRec>, mem2: map<Ptr, EventRec>, s: seq<Ptr>, i: nat, off: Tv)
    requires ListOk(mem, s, i) && MovedBy(mem, mem2, off) && Proper(off)
    ensures ListOk(mem2, s, i)
  {
    hide Moved;
    forall p | p in s
      ensures p in mem2 && mem2[p].inTimeout && Tag(mem2[p].timeout) == TagOf(i) && Proper(Clear(mem2[p].timeout))
    {
      MovedTagged(mem[p], off);
      MovedFlags(mem[p], off);
    }
    forall j, k | 0 <= j < k < |s| ensures Le(mem2[s[j]].timeout, mem2[s[k]].timeout) {
      var a, b := mem[s[j]], mem[s[k]];
      assert s[j] in s && s[k] in s;
      MovedTagged(a, off);
      MovedTagged(b, off);
      SameTag(a.timeout, b.timeout);
      SubKeepsOrder(Clear(a.timeout), Clear(b.timeout), off);
      SameTag(Moved(a, off).timeout, Moved(b, off).timeout);
    }
  }

  lemma QueuesFit(mem: map<Ptr, EventRec>, heap: set<Ptr>, active: seq<Ptr>, queues: seq<CommonList>)
    requires Inv(mem, heap, active, queues)
    ensures |queues| <= MAX_COMMON_TIMEOUTS
    ensures forall j :: 0 <= j < |queues| ==> Tag(queues[j].duration) == TagOf(j)
  {
  }

  /** One more queue: no pending timeout has its tag yet. */
  lemma NewQueueKeeps(mem: map<Ptr, EventRec>, heap: set<Ptr>, active: seq<Ptr>, queues: seq<CommonList>,
                      running: set<nat>, q: CommonList)
    requires Inv(mem, heap, active, queues) && Awake(mem, heap, queues, running)
    requires |queues| < MAX_COMMON_TIMEOUTS && q.events == [] && Tag(q.duration) == TagOf(|queues|)
    requires q.timer in mem && mem[q.timer].internal && Proper(mem[q.timer].timeout) && OnlyTimerOf(queues, q.timer, -1)
    ensures Inv(mem, heap, active, queues + [q]) && Awake(mem, heap, queues + [q], running)
  {
    hide ListOk;
    var more := queues + [q];
    EmptyListOk(mem, |queues|);
    forall p | p in mem && mem[p].inTimeout
      ensures if IsCommon(mem[p].timeout, |more|) then p in more[Idx(mem[p].timeout)].events else p in heap
    {
      CommonTag(mem[p].timeout, |queues|);
      CommonTag(mem[p].timeout, |more|);
    }
    forall i | 0 <= i < |more| ensures AwakeAt(mem, heap, more, running, i) {
      if i < |queues| { assert AwakeAt(mem, heap, queues, running, i); }
    }
  }

  lemma EmptyListOk(mem: map<Ptr, EventRec>, i: nat)
    ensures ListOk(mem, [], i)
  {
  }

  lemma NewIsNoTimer(mem: map<Ptr, EventRec>, heap: set<Ptr>, active: seq<Ptr>, queues: seq<CommonList>, p: Ptr)
    requires Inv(mem, heap, active, queues) && p !in mem
    ensures OnlyTimerOf(queues, p, -1)
  {
  }

  lemma NewKeeps(mem: map<Ptr, EventRec>, heap: set<Ptr>, active: seq<Ptr>, queues: seq<CommonList>,
                 running: set<nat>, p: Ptr, rec: EventRec, x: int)
    requires Inv(mem, heap, active, queues) && AwakeBut(mem, heap, queues, running, x)
    requires p !in mem && !rec.inTimeout && !rec.active
    ensures Inv(mem[p := rec], heap, active, queues) && AwakeBut(mem[p := rec], heap, queues, running, x)
  {
    hide ListOk;
    var mem2 := mem[p := rec];
    ListsSame(mem, mem2, queues);
    forall j | 0 <= j < |queues| && j != x ensures AwakeAt(mem2, heap, queues, running, j) {
      assert AwakeAt(mem, heap, queues, running, j);
    }
  }

  /** No lost timeout: what waits in a queue is woken in time, by the heap or because the shared timer is active
      already. */
  lemma NoLostTimeout(mem: map<Ptr, EventRec>, heap: set<Ptr>, active: seq<Ptr>, queues: seq<CommonList>,
                      running: set<nat>, p: Ptr)
    requires Inv(mem, heap, active, queues) && Awake(mem, heap, queues, running)
    requires p in mem && mem[p].inTimeout
    ensures p in heap ||
            (IsCommon(mem[p].timeout, |queues|) &&
             var i := Idx(mem[p].timeout);
             var t := queues[i].timer;
             p in queues[i].events &&
             (i in running || t in active || (t in heap && t in mem && Le(mem[t].timeout, Clear(mem[p].timeout)))))
  {
    if IsCommon(mem[p].timeout, |queues|) {
      var i := Idx(mem[p].timeout);
      var s := queues[i].events;
      assert ListOk(mem, s, i) && AwakeAt(mem, heap, queues, running, i);
      var k :| 0 <= k < |s| && s[k] == p;
      assert s[0] in s;
      assert k == 0 || Le(mem[s[0]].timeout, mem[s[k]].timeout);
      SameTag(mem[s[0]].timeout, mem[p].timeout);
    }
  }
}
