/** Token buckets, and the suspension of bufferevents whose buckets are empty. */
module RateLimit {
  const WORD: int := 0x1_0000_0000_0000_0000
  const SSIZE_MAX: int := 0x7fff_ffff_ffff_ffff
  const TICK_RANGE: int := 0x1_0000_0000
  const INT_MAX: int := 0x7fff_ffff
  const MAX_EVER: int := 16384

  function Min(a: int, b: int): int {
    if a <= b then a else b
  }

  function Max(a: int, b: int): int {
    if a >= b then a else b
  }

  // ----- refill arithmetic -----

  /** A size_t with the bits of an int64 result */
  function AsSize(x: int): (r: int)
    ensures 0 <= r < WORD
  {
    x % WORD
  }

  /** An ev_ssize_t with the bits of a size_t */
  function AsSsize(x: int): (r: int)
    ensures -SSIZE_MAX - 1 <= r <= SSIZE_MAX
  {
    var u := x % WORD;
    if u <= SSIZE_MAX then u else u - WORD
  }

  /** One direction of ev_token_bucket_update, in 64-bit arithmetic: max - limit and n * rate are unsigned, and the
      sum goes back to a signed limit. */
  function Refilled(limit: int, max: int, rate: int, n: int): int
    requires n > 0
  {
    if AsSize(max - limit) / n < rate then AsSsize(max) else AsSsize(AsSize(limit) + AsSize(n * rate))
  }

  lemma DivLess(a: int, n: int, rate: int)
    requires a >= 0 && n > 0
    ensures a / n < rate <==> a < n * rate
  {
    var q, r := a / n, a % n;
    assert a == n * q + r && 0 <= r < n;
    if q < rate {
      assert n * (q + 1) <= n * rate by { MulMonotone(n, q + 1, rate); }
    } else {
      assert n * rate <= n * q by { MulMonotone(n, rate, q); }
    }
  }

  lemma MulMonotone(n: int, a: int, b: int)
    requires n >= 0 && a <= b
    ensures n * a <= n * b
  {
  }

  /** The division test computes the naive formula, and nothing overflows: the amount that is added fits. */
  lemma RefillExact(limit: int, max: int, rate: int, n: int)
    requires -SSIZE_MAX - 1 <= limit <= max <= SSIZE_MAX && 0 <= rate && 0 < n
    ensures Refilled(limit, max, rate, n) == Min(max, limit + n * rate)
    ensures limit <= Refilled(limit, max, rate, n) <= max
    ensures AsSize(max - limit) == max - limit
    ensures AsSize(max - limit) / n >= rate ==> AsSize(n * rate) == n * rate <= max - limit
  {
    hide AsSize, AsSsize;
    Unwrapped(max - limit);
    AsSsizeIs(max);
    DivLess(max - limit, n, rate);
    MulMonotone(n, 0, rate);
    if max - limit >= n * rate { SumFits(limit, n * rate, max); }
  }

  lemma Unwrapped(x: int)
    requires 0 <= x < WORD
    ensures AsSize(x) == x
  {
  }

  lemma AsSsizeIs(x: int)
    requires -SSIZE_MAX - 1 <= x <= SSIZE_MAX
    ensures AsSsize(x) == x && AsSsize(x + WORD) == x
  {
  }

  lemma SumFits(limit: int, p: int, max: int)
    requires -SSIZE_MAX - 1 <= limit <= max <= SSIZE_MAX && 0 <= p <= max - limit
    ensures AsSsize(AsSize(limit) + AsSize(p)) == limit + p && AsSize(p) == p
  {
    AsSsizeIs(limit + p);
    assert AsSize(limit) == limit || AsSize(limit) == limit + WORD;
  }

  // ----- buckets -----

  /** struct ev_token_bucket_cfg, as ev_token_bucket_cfg_new makes it */
  class Cfg {
    const readRate: int
    const readMaximum: int
    const writeRate: int
    const writeMaximum: int
    const msecPerTick: int

    predicate Ok() {
      1 <= readRate <= readMaximum <= SSIZE_MAX && 1 <= writeRate <= writeMaximum <= SSIZE_MAX && msecPerTick > 0
    }

    function Rate(isWrite: bool): int {
      if isWrite then writeRate else readRate
    }

    function Maximum(isWrite: bool): int {
      if isWrite then writeMaximum else readMaximum
    }

    constructor (readRate: int, readBurst: int, writeRate: int, writeBurst: int, msecPerTick: int)
      requires 1 <= readRate <= readBurst <= SSIZE_MAX && 1 <= writeRate <= writeBurst <= SSIZE_MAX && msecPerTick > 0
      ensures Ok() && this.msecPerTick == msecPerTick
      ensures this.readRate == readRate && this.readMaximum == readBurst && this.writeRate == writeRate && this.writeMaximum == writeBurst
    {
      this.readRate, this.readMaximum := readRate, readBurst;
      this.writeRate, this.writeMaximum := writeRate, writeBurst;
      this.msecPerTick := msecPerTick;
    }
  }

  /** The number of ticks since the last update, when it counts: unsigned subtraction wraps, and a large difference
      means that time has gone backwards. */
  function TicksSince(last: int, tick: int): (n: nat)
    ensures n <= INT_MAX
  {
    var n := (tick - last) % TICK_RANGE;
    if n > INT_MAX then 0 else n
  }

  /** A limit after the ticks since the last update */
  function Updated(limit: int, max: int, rate: int, n: nat): int {
    if n == 0 then limit else Min(max, limit + n * rate)
  }

  /** The limit under a new configuration: clipped, or what one tick adds */
  function FirstLimit(reinitialize: bool, limit: int, cfg: Cfg, isWrite: bool): int {
    if reinitialize then Min(limit, cfg.Maximum(isWrite)) else cfg.Rate(isWrite)
  }

  /** struct ev_token_bucket */
  class TokenBucket {
    var readLimit: int
    var writeLimit: int
    var lastUpdated: int

    constructor ()
      ensures readLimit == writeLimit == lastUpdated == 0
    {
      readLimit, writeLimit, lastUpdated := 0, 0, 0;
    }

    function Limit(isWrite: bool): int
      reads this
    {
      if isWrite then writeLimit else readLimit
    }

    /** No limit is above its maximum, or below what 64 bits hold. */
    ghost predicate Fits(cfg: Cfg)
      reads this
    {
      && cfg.Ok() && 0 <= lastUpdated < TICK_RANGE
      && -SSIZE_MAX - 1 <= readLimit <= cfg.readMaximum
      && -SSIZE_MAX - 1 <= writeLimit <= cfg.writeMaximum
    }

    /** ev_token_bucket_init */
    method Init(cfg: Cfg, tick: int, reinitialize: bool)
      requires cfg.Ok() && 0 <= tick < TICK_RANGE
      requires reinitialize ==> 0 <= lastUpdated < TICK_RANGE && readLimit >= -SSIZE_MAX - 1 && writeLimit >= -SSIZE_MAX - 1
      modifies this
      ensures Fits(cfg)
      ensures forall w :: Limit(w) == FirstLimit(reinitialize, old(Limit(w)), cfg, w)
      ensures lastUpdated == if reinitialize then old(lastUpdated) else tick
    {
      if reinitialize {
        if readLimit > cfg.readMaximum { readLimit := cfg.readMaximum; }
        if writeLimit > cfg.writeMaximum { writeLimit := cfg.writeMaximum; }
      } else {
        readLimit, writeLimit, lastUpdated := cfg.readRate, cfg.writeRate, tick;
      }
    }

    /** ev_token_bucket_update */
    method Update(cfg: Cfg, tick: int) returns (r: int)
      requires Fits(cfg) && 0 <= tick < TICK_RANGE
      modifies this
      ensures Fits(cfg)
      ensures r == if TicksSince(old(lastUpdated), tick) == 0 then 0 else 1
      ensures Refreshed(old(readLimit), old(writeLimit), old(lastUpdated), this, cfg, tick)
      ensures old(readLimit) <= readLimit && old(writeLimit) <= writeLimit
    {
      var n := (tick - lastUpdated) % TICK_RANGE;
      if n == 0 || n > INT_MAX { return 0; }
      RefillExact(readLimit, cfg.readMaximum, cfg.readRate, n);
      RefillExact(writeLimit, cfg.writeMaximum, cfg.writeRate, n);
      readLimit := Refilled(readLimit, cfg.readMaximum, cfg.readRate, n);
      writeLimit := Refilled(writeLimit, cfg.writeMaximum, cfg.writeRate, n);
      lastUpdated := tick;
      r := 1;
    }
  }

  /** ev_token_bucket_get_tick, for a time in milliseconds */
  function GetTick(msec: nat, msecPerTick: nat): (tick: int)
    requires msecPerTick > 0
    ensures 0 <= tick < TICK_RANGE
  {
    (msec / msecPerTick) % TICK_RANGE
  }

  /** The ticks between two times are counted, all of them, exactly when there are at most INT_MAX; and none are
      counted between the later and the earlier one. */
  lemma TicksOfTime(before: nat, after: nat, msecPerTick: nat)
    requires msecPerTick > 0 && before <= after
    ensures var n, tick, tick2 := after / msecPerTick - before / msecPerTick,
                                  GetTick(before, msecPerTick), GetTick(after, msecPerTick);
            && n >= 0 && (TicksSince(tick, tick2) == n <==> n <= INT_MAX)
            && (n <= INT_MAX ==> TicksSince(tick2, tick) == 0)
  {
    hide TicksSince;
    var q, q2 := before / msecPerTick, after / msecPerTick;
    DivLess(before, msecPerTick, q);
    DivLess(after, msecPerTick, q);
    TicksBetween(q, q2);
  }

  lemma TicksBetween(q: nat, q2: nat)
    requires q <= q2
    ensures TicksSince(q % TICK_RANGE, q2 % TICK_RANGE) == q2 - q <==> q2 - q <= INT_MAX
    ensures q2 - q <= INT_MAX ==> TicksSince(q2 % TICK_RANGE, q % TICK_RANGE) == 0
  {
    TickDifference(q, q2);
    TickDifference(q2, q);
  }

  lemma TickDifference(q: nat, q2: nat)
    ensures (q2 % TICK_RANGE - q % TICK_RANGE) % TICK_RANGE == (q2 - q) % TICK_RANGE
  {
    var k := q / TICK_RANGE - q2 / TICK_RANGE;
    assert q2 % TICK_RANGE - q % TICK_RANGE == q2 - q + k * TICK_RANGE;
    AddRange(q2 - q, k);
  }

  lemma AddRange(x: int, k: int)
    ensures (x + k * TICK_RANGE) % TICK_RANGE == x % TICK_RANGE
  {
    assert (x + k * TICK_RANGE) / TICK_RANGE == x / TICK_RANGE + k;
  }

  /** The bucket has been brought up to date. */
  ghost predicate Refreshed(readLimit: int, writeLimit: int, last: int, bucket: TokenBucket, cfg: Cfg, tick: int)
    reads bucket
  {
    && bucket.readLimit == Updated(readLimit, cfg.readMaximum, cfg.readRate, TicksSince(last, tick))
    && bucket.writeLimit == Updated(writeLimit, cfg.writeMaximum, cfg.writeRate, TicksSince(last, tick))
    && bucket.lastUpdated == if TicksSince(last, tick) == 0 then last else tick
  }

  // ----- one bufferevent -----

  /** bufferevent_suspend_flags */
  datatype Reason = Watermark | Bandwidth | BandwidthGroup | Lookup

  /** One direction of a bufferevent: why it is suspended, whether EV_READ or EV_WRITE is enabled, and whether the
      backend is listening. */
  datatype Side = Side(suspended: set<Reason>, enabled: bool, armed: bool) {
    /** The backend listens exactly when it should. */
    predicate Right() {
      armed == (enabled && suspended == {})
    }
  }

  /** What happens to a bufferevent with a limit of its own: ticks pass, its owner moves bytes, or its refill timer
      fires, or it brings its buckets up to date. */
  datatype OwnCall = Wait(ticks: nat) | MoveUpTo(isWrite: bool, want: nat) | Timer

  function Waited(calls: seq<OwnCall>): nat
    decreases |calls|
  {
    if calls == [] then 0 else (if calls[0].Wait? then calls[0].ticks else 0) + Waited(calls[1..])
  }

  class Bufferevent {
    var reading: Side
    var writing: Side
    /** rate_limiting != NULL */
    var rateLimiting: bool
    var cfg: Cfg?
    const limit: TokenBucket
    var refillInitialized: bool
    var refillPending: bool

    /** Suspension never sticks: without tokens a direction is suspended, and while a direction is suspended for
        bandwidth the refill timer is pending. */
    ghost predicate Valid()
      reads this, limit
    {
      && reading.Right() && writing.Right()
      && (cfg != null ==> rateLimiting && refillInitialized && limit.Fits(cfg))
      && (cfg != null && limit.readLimit <= 0 ==> Bandwidth in reading.suspended)
      && (cfg != null && limit.writeLimit <= 0 ==> Bandwidth in writing.suspended)
      && (Bandwidth in reading.suspended || Bandwidth in writing.suspended ==> cfg != null && refillPending)
    }

    function Get(isWrite: bool): Side
      reads this
    {
      if isWrite then writing else reading
    }

    constructor ()
      ensures Valid() && fresh(limit) && reading == writing == Side({}, false, false) && cfg == null && !rateLimiting
    {
      reading, writing := Side({}, false, false), Side({}, false, false);
      rateLimiting, cfg, refillInitialized, refillPending := false, null, false, false;
      limit := new TokenBucket();
    }

    method Put(isWrite: bool, side: Side)
      modifies this`reading, this`writing
      ensures Get(isWrite) == side && Get(!isWrite) == old(Get(!isWrite))
    {
      if isWrite { writing := side; } else { reading := side; }
    }

    /** bufferevent_suspend_read and bufferevent_suspend_write */
    method Suspend(isWrite: bool, what: Reason)
      requires Get(isWrite).Right()
      modifies this`reading, this`writing
      ensures Get(!isWrite) == old(Get(!isWrite)) && Get(isWrite).Right()
      ensures Get(isWrite).suspended == old(Get(isWrite).suspended) + {what}
      ensures Get(isWrite).enabled == old(Get(isWrite).enabled)
    {
      var side := Get(isWrite);
      // be_ops->disable
      if side.suspended == {} { side := side.(armed := false); }
      Put(isWrite, side.(suspended := side.suspended + {what}));
      assert what in Get(isWrite).suspended;
    }

    /** bufferevent_unsuspend_read and bufferevent_unsuspend_write */
    method Unsuspend(isWrite: bool, what: Reason)
      requires Get(isWrite).Right()
      modifies this`reading, this`writing
      ensures Get(!isWrite) == old(Get(!isWrite)) && Get(isWrite).Right()
      ensures Get(isWrite).suspended == old(Get(isWrite).suspended) - {what}
      ensures Get(isWrite).enabled == old(Get(isWrite).enabled)
    {
      var side := Get(isWrite);
      side := side.(suspended := side.suspended - {what});
      // be_ops->enable
      if side.suspended == {} && side.enabled { side := side.(armed := true); }
      Put(isWrite, side);
    }

    /** bufferevent_enable */
    method Enable(read: bool, write: bool)
      requires Valid()
      modifies this`reading, this`writing
      ensures Valid()
      ensures reading.enabled == (old(reading.enabled) || read) && writing.enabled == (old(writing.enabled) || write)
      ensures reading.suspended == old(reading.suspended) && writing.suspended == old(writing.suspended)
    {
      var implRead, implWrite := read && reading.suspended == {}, write && writing.suspended == {};
      reading := reading.(enabled := reading.enabled || read);
      writing := writing.(enabled := writing.enabled || write);
      if implRead { reading := reading.(armed := true); }
      if implWrite { writing := writing.(armed := true); }
    }

    /** bufferevent_disable */
    method Disable(read: bool, write: bool)
      requires Valid()
      modifies this`reading, this`writing
      ensures Valid()
      ensures reading.enabled == (old(reading.enabled) && !read) && writing.enabled == (old(writing.enabled) && !write)
      ensures reading.suspended == old(reading.suspended) && writing.suspended == old(writing.suspended)
    {
      reading := reading.(enabled := reading.enabled && !read);
      writing := writing.(enabled := writing.enabled && !write);
      if read { reading := reading.(armed := false); }
      if write { writing := writing.(armed := false); }
    }

    /** bufferevent_update_buckets */
    method UpdateBuckets(tick: int)
      requires Valid() && cfg != null && 0 <= tick < TICK_RANGE
      modifies limit
      ensures Valid()
      ensures Refreshed(old(limit.readLimit), old(limit.writeLimit), old(limit.lastUpdated), limit, cfg, tick)
    {
      if tick != limit.lastUpdated {
        var r := limit.Update(cfg, tick);
      }
    }

    /** The bufferevent's own part of _bufferevent_get_rlim_max. */
    method OwnMax(isWrite: bool, tick: int) returns (max: int)
      requires Valid() && 0 <= tick < TICK_RANGE
      modifies limit
      ensures Valid()
      ensures max == if cfg == null then MAX_EVER else limit.Limit(isWrite)
      ensures cfg != null ==> Refreshed(old(limit.readLimit), old(limit.writeLimit), old(limit.lastUpdated), limit, cfg, tick)
    {
      max := MAX_EVER;
      if !rateLimiting { return; }
      if cfg != null {
        UpdateBuckets(tick);
        max := limit.Limit(isWrite);
      }
    }

    /** limit -= bytes */
    method Spend(isWrite: bool, bytes: int)
      modifies limit
      ensures limit.Limit(isWrite) == old(limit.Limit(isWrite)) - bytes
      ensures limit.Limit(!isWrite) == old(limit.Limit(!isWrite)) && limit.lastUpdated == old(limit.lastUpdated)
    {
      if isWrite { limit.writeLimit := limit.writeLimit - bytes; } else { limit.readLimit := limit.readLimit - bytes; }
    }

    /** The bufferevent's own part of _bufferevent_decrement_read_buckets and _bufferevent_decrement_write_buckets. */
    method DecrementBuckets(isWrite: bool, bytes: int)
      requires Valid() && (cfg != null ==> -SSIZE_MAX - 1 <= limit.Limit(isWrite) - bytes <= cfg.Maximum(isWrite))
      modifies this`reading, this`writing, this`refillPending, limit
      ensures Valid()
      ensures cfg != null ==> limit.Limit(isWrite) == old(limit.Limit(isWrite)) - bytes
      ensures limit.Limit(!isWrite) == old(limit.Limit(!isWrite)) && limit.lastUpdated == old(limit.lastUpdated)
      ensures cfg != null ==> (Bandwidth in Get(isWrite).suspended <==> limit.Limit(isWrite) <= 0)
      ensures forall w :: Get(w).suspended - {Bandwidth} == old(Get(w).suspended) - {Bandwidth}
    {
      if !rateLimiting { return; }
      if cfg != null {
        Spend(isWrite, bytes);
        if limit.Limit(isWrite) <= 0 {
          Suspend(isWrite, Bandwidth);
          refillPending := true;
        } else if Bandwidth in Get(isWrite).suspended {
          if Bandwidth !in Get(!isWrite).suspended { refillPending := false; }
          Unsuspend(isWrite, Bandwidth);
        }
      }
    }

    /** bufferevent_decrement_read_limit and bufferevent_decrement_write_limit: a charge or a refund */
    method DecrementLimit(isWrite: bool, bytes: int)
      requires Valid() && cfg != null && -SSIZE_MAX - 1 <= limit.Limit(isWrite) - bytes <= cfg.Maximum(isWrite)
      modifies this`reading, this`writing, this`refillPending, limit
      ensures Valid() && limit.Limit(isWrite) == old(limit.Limit(isWrite)) - bytes
      ensures limit.Limit(!isWrite) == old(limit.Limit(!isWrite)) && limit.lastUpdated == old(limit.lastUpdated)
      ensures Get(!isWrite) == old(Get(!isWrite)) && Get(isWrite).enabled == old(Get(isWrite).enabled)
      ensures Get(isWrite).suspended ==
              if old(limit.Limit(isWrite)) > 0 >= limit.Limit(isWrite) then old(Get(isWrite).suspended) + {Bandwidth}
              else if old(limit.Limit(isWrite)) <= 0 < limit.Limit(isWrite) then old(Get(isWrite).suspended) - {Bandwidth}
              else old(Get(isWrite).suspended)
    {
      var oldLimit := limit.Limit(isWrite);
      Spend(isWrite, bytes);
      var newLimit := limit.Limit(isWrite);
      if oldLimit > 0 && newLimit <= 0 {
        Suspend(isWrite, Bandwidth);
        refillPending := true;
      } else if oldLimit <= 0 && newLimit > 0 {
        if Bandwidth !in Get(!isWrite).suspended { refillPending := false; }
        Unsuspend(isWrite, Bandwidth);
      }
    }

    /** _bev_refill_callback: the timer has fired, and is set again if a direction is still out of tokens. */
    method RefillCallback(tick: int)
      requires Valid() && refillPending && 0 <= tick < TICK_RANGE
      modifies this`reading, this`writing, this`refillPending, limit
      ensures Valid()
      ensures cfg != null ==>
                Refreshed(old(limit.readLimit), old(limit.writeLimit), old(limit.lastUpdated), limit, cfg, tick)
      ensures cfg != null ==> (Bandwidth in reading.suspended <==>
                               Bandwidth in old(reading.suspended) && limit.readLimit <= 0)
      ensures cfg != null ==> (Bandwidth in writing.suspended <==>
                               Bandwidth in old(writing.suspended) && limit.writeLimit <= 0)
    {
      refillPending := false;
      if !rateLimiting || cfg == null { return; }
      var r := limit.Update(cfg, tick);
      var again := Recover(false);
      var again2 := Recover(true);
      if again || again2 { refillPending := true; }
    }

    /** End the suspension of a direction that has tokens again; or say that it needs another refill. */
    method Recover(isWrite: bool) returns (again: bool)
      requires Get(isWrite).Right()
      modifies this`reading, this`writing
      ensures Get(!isWrite) == old(Get(!isWrite)) && Get(isWrite).Right()
      ensures again <==> Bandwidth in Get(isWrite).suspended
      ensures again <==> Bandwidth in old(Get(isWrite)).suspended && limit.Limit(isWrite) <= 0
      ensures Get(isWrite).enabled == old(Get(isWrite).enabled)
    {
      again := false;
      if Bandwidth in Get(isWrite).suspended {
        if limit.Limit(isWrite) > 0 { Unsuspend(isWrite, Bandwidth); } else { again := true; }
      }
    }

    lemma LimitFits(isWrite: bool)
      requires Valid() && cfg != null
      ensures -SSIZE_MAX - 1 <= limit.Limit(isWrite) <= cfg.Maximum(isWrite)
    {
    }

    /** One direction, as the bound sees it */
    ghost function StateOf(isWrite: bool, now: nat): State
      reads this, limit
    {
      State(limit.Limit(isWrite), limit.lastUpdated, now)
    }

    /** One read or write: at most what may be moved now, and it is charged. */
    method Transfer(isWrite: bool, want: nat, now: nat) returns (moved: nat)
      requires Valid() && cfg != null
      modifies this`reading, this`writing, this`refillPending, limit
      ensures Valid() && moved == Min(want, Max(0, LimitNow(old(StateOf(isWrite, now)), cfg.Maximum(isWrite), cfg.Rate(isWrite))))
      ensures StateOf(isWrite, now) == After(old(StateOf(isWrite, now)), cfg.Maximum(isWrite), cfg.Rate(isWrite), Move(moved))
      ensures StateOf(!isWrite, now) ==
              After(old(StateOf(!isWrite, now)), cfg.Maximum(!isWrite), cfg.Rate(!isWrite), Move(0))
    {
      var max := OwnMax(isWrite, now % TICK_RANGE);
      if max < 0 { max := 0; }
      moved := Min(want, max);
      DecrementBuckets(isWrite, moved);
    }

    /** Any run of one bufferevent: time passes, bytes are moved in both directions, and the refill timer fires when
        it is pending.  In each direction the bytes are bounded by the burst and the rate for every tick. */
    method Run(isWrite: bool, now: nat, calls: seq<OwnCall>) returns (moved: nat, ghost steps: seq<Step>)
      requires Valid() && cfg != null
      modifies this`reading, this`writing, this`refillPending, limit
      ensures Valid() && moved == Moved(steps) && Elapsed(steps) == Waited(calls)
      ensures Obeys(old(StateOf(isWrite, now)), cfg.Maximum(isWrite), cfg.Rate(isWrite), steps)
      ensures moved <= cfg.Maximum(isWrite) + Waited(calls) * cfg.Rate(isWrite)
      decreases |calls|
    {
      ghost var s := StateOf(isWrite, now);
      if calls == [] {
        moved, steps := 0, [];
      } else {
        ghost var step;
        var n;
        n, step := Perform(isWrite, now, calls[0]);
        var later := now + if calls[0].Wait? then calls[0].ticks else 0;
        moved, steps := Run(isWrite, later, calls[1..]);
        moved, steps := n + moved, [step] + steps;
      }
      BandwidthBound(s, cfg.Maximum(isWrite), cfg.Rate(isWrite), steps);
    }

    /** One call of a run, and what it is for direction isWrite */
    method Perform(isWrite: bool, now: nat, call: OwnCall) returns (n: nat, ghost step: Step)
      requires Valid() && cfg != null
      modifies this`reading, this`writing, this`refillPending, limit
      ensures Valid() && n == (if step.Move? then step.bytes else 0)
      ensures if call.Wait? then step == Pass(call.ticks) else step.Move?
      ensures step.Move? ==> n <= Max(0, LimitNow(old(StateOf(isWrite, now)), cfg.Maximum(isWrite), cfg.Rate(isWrite)))
      ensures StateOf(isWrite, now + if call.Wait? then call.ticks else 0) ==
              After(old(StateOf(isWrite, now)), cfg.Maximum(isWrite), cfg.Rate(isWrite), step)
    {
      match call
      case Wait(k) => n, step := 0, Pass(k);
      case MoveUpTo(w, want) =>
        var moved := Transfer(w, want, now);
        n := if w == isWrite then moved else 0;
        step := Move(n);
      case Timer =>
        if refillPending {
          RefillCallback(now % TICK_RANGE);
        } else {
          UpdateBuckets(now % TICK_RANGE);
        }
        n, step := 0, Move(0);
    }

    /** bufferevent_set_rate_limit */
    method SetRateLimit(newCfg: Cfg?, tick: int)
      requires Valid() && (newCfg != null ==> newCfg.Ok()) && 0 <= tick < TICK_RANGE
      modifies this, limit
      ensures Valid() && cfg == newCfg
      ensures newCfg != null && newCfg != old(cfg) ==>
                forall w :: Bandwidth in Get(w).suspended <==> limit.Limit(w) <= 0
      ensures newCfg != null && newCfg != old(cfg) ==>
                forall w :: limit.Limit(w) == FirstLimit(old(cfg) != null, old(limit.Limit(w)), newCfg, w)
      ensures forall w :: Get(w).enabled == old(Get(w).enabled)
      ensures forall w :: Get(w).suspended - {Bandwidth} == old(Get(w).suspended) - {Bandwidth}
    {
      if newCfg == null {
        ClearRateLimit();
      } else if !(rateLimiting && cfg == newCfg) {
        InstallRateLimit(newCfg, tick);
      }
    }

    /** bufferevent_set_rate_limit without a configuration: the limit is taken away. */
    method ClearRateLimit()
      requires Valid()
      modifies this`reading, this`writing, this`cfg, this`refillPending
      ensures Valid() && cfg == null
      ensures forall w :: Get(w).enabled == old(Get(w).enabled)
      ensures forall w :: Get(w).suspended - {Bandwidth} == old(Get(w).suspended) - {Bandwidth}
    {
      if rateLimiting {
        cfg := null;
        Unsuspend(false, Bandwidth);
        Unsuspend(true, Bandwidth);
        if refillInitialized { refillPending := false; }
      }
    }

    /** bufferevent_set_rate_limit with another configuration */
    method InstallRateLimit(newCfg: Cfg, tick: int)
      requires Valid() && newCfg.Ok() && 0 <= tick < TICK_RANGE
      modifies this, limit
      ensures Valid() && cfg == newCfg
      ensures forall w :: Bandwidth in Get(w).suspended <==> limit.Limit(w) <= 0
      ensures forall w :: limit.Limit(w) == FirstLimit(old(cfg) != null, old(limit.Limit(w)), newCfg, w)
      ensures forall w :: Get(w).enabled == old(Get(w).enabled)
      ensures forall w :: Get(w).suspended - {Bandwidth} == old(Get(w).suspended) - {Bandwidth}
    {
      rateLimiting := true;
      var reinit := cfg != null;
      cfg := newCfg;
      limit.Init(cfg, tick, reinit);
      if reinit { refillPending := false; }
      // evtimer_assign
      refillInitialized, refillPending := true, false;
      var suspended := ByLimit(false);
      var suspended2 := ByLimit(true);
      if suspended || suspended2 { refillPending := true; }
    }

    /** Suspend a direction that has no tokens, and no other. */
    method ByLimit(isWrite: bool) returns (suspended: bool)
      requires Get(isWrite).Right()
      modifies this`reading, this`writing
      ensures Get(!isWrite) == old(Get(!isWrite)) && Get(isWrite).Right()
      ensures suspended == (limit.Limit(isWrite) <= 0)
      ensures Get(isWrite).suspended == if suspended then old(Get(isWrite).suspended) + {Bandwidth}
                                        else old(Get(isWrite).suspended) - {Bandwidth}
      ensures Get(isWrite).enabled == old(Get(isWrite).enabled)
    {
      suspended := limit.Limit(isWrite) <= 0;
      if !suspended { Unsuspend(isWrite, Bandwidth); } else { Suspend(isWrite, Bandwidth); }
    }

    /** Suspension and its end for a reason other than bandwidth */
    method SuspendFor(isWrite: bool, what: Reason)
      requires Valid() && what != Bandwidth
      modifies this`reading, this`writing
      ensures Valid() && Get(!isWrite) == old(Get(!isWrite)) && Get(isWrite).enabled == old(Get(isWrite).enabled)
      ensures Get(isWrite).suspended == old(Get(isWrite).suspended) + {what}
    {
      Suspend(isWrite, what);
    }

    method UnsuspendFor(isWrite: bool, what: Reason)
      requires Valid() && what != Bandwidth
      modifies this`reading, this`writing
      ensures Valid() && Get(!isWrite) == old(Get(!isWrite)) && Get(isWrite).enabled == old(Get(isWrite).enabled)
      ensures Get(isWrite).suspended == old(Get(isWrite).suspended) - {what}
    {
      Unsuspend(isWrite, what);
    }

    method StartRateLimiting()
      requires Valid()
      modifies this`rateLimiting, this`refillInitialized
      ensures Valid()
    {
      if !rateLimiting {
        refillInitialized, rateLimiting := true, true;
      }
    }

    method FollowGroup(readSuspended: bool, writeSuspended: bool)
      requires Valid()
      modifies this`reading, this`writing
      ensures Valid() && forall w :: Get(w).enabled == old(Get(w).enabled)
      ensures forall w :: Get(w).suspended == old(Get(w).suspended) +
                if (if w then writeSuspended else readSuspended) then {BandwidthGroup} else {}
    {
      hide Valid;
      if readSuspended { SuspendFor(false, BandwidthGroup); }
      if writeSuspended { SuspendFor(true, BandwidthGroup); }
    }
  }

  // ----- groups -----

  /** Division of C: truncation toward zero */
  function TruncDiv(a: int, n: nat): int
    requires n > 0
  {
    if a >= 0 then a / n else -(-a / n)
  }

  /** One direction of a group: whether it is suspended, and whether the end of a suspension could not be passed
      on to all members. */
  datatype GroupSide = GroupSide(suspended: bool, pendingUnsuspend: bool)

  /** The members are bufferevents of their own. */
  ghost predicate Distinct(members: seq<Bufferevent>, bucket: TokenBucket) {
    && (forall i :: 0 <= i < |members| ==> members[i].limit != bucket)
    && (forall i, j :: 0 <= i < j < |members| ==> members[i] != members[j] && members[i].limit != members[j].limit)
  }

  class Group {
    const rateLimit: TokenBucket
    const cfg: Cfg
    var members: seq<Bufferevent>
    var reading: GroupSide
    var writing: GroupSide
    var configuredMinShare: nat
    var minShare: nat

    function Get(isWrite: bool): GroupSide
      reads this
    {
      if isWrite then writing else reading
    }

    /** A group that has run out of tokens is suspended; and no member is suspended for the group for longer than
        the group is, or knows that it has to try again. */
    ghost predicate Valid()
      reads this, rateLimit, members, set m | m in members :: m.limit
    {
      && Distinct(members, rateLimit) && rateLimit.Fits(cfg)
      && (forall i :: 0 <= i < |members| ==> members[i].Valid())
      && SideOk(false) && SideOk(true) && minShare <= Min(cfg.readRate, cfg.writeRate)
    }

    /** One direction, as the bound sees it */
    ghost function StateOf(isWrite: bool, now: nat): GroupState
      reads this, rateLimit
    {
      GroupState(rateLimit.Limit(isWrite), rateLimit.lastUpdated, Get(isWrite).suspended, now)
    }

    /** Valid, with tokens in every direction that is not suspended, and a debt below one share. */
    ghost predicate Sound()
      reads this, rateLimit, members, set m | m in members :: m.limit
    {
      Valid() && Solvent(StateOf(false, 0), minShare) && Solvent(StateOf(true, 0), minShare)
    }

    lemma SoundSide(isWrite: bool, now: nat)
      requires Sound()
      ensures Solvent(StateOf(isWrite, now), minShare) && StateOf(isWrite, now).limit <= cfg.Maximum(isWrite)
      ensures minShare <= cfg.Rate(isWrite) <= cfg.Maximum(isWrite) <= SSIZE_MAX
      ensures 0 <= rateLimit.lastUpdated < TICK_RANGE
    {
    }

    ghost predicate SideOk(isWrite: bool)
      reads this, rateLimit, members
    {
      && (!Get(isWrite).suspended ==> rateLimit.Limit(isWrite) >= 0)
      && (Get(isWrite).pendingUnsuspend ==> !Get(isWrite).suspended)
      && Informed(isWrite)
    }

    /** No member is suspended for the group without reason. */
    ghost predicate Informed(isWrite: bool)
      reads this, members
    {
      forall i :: 0 <= i < |members| && BandwidthGroup in members[i].Get(isWrite).suspended ==>
        (Get(isWrite).suspended || Get(isWrite).pendingUnsuspend)
    }

    /** bufferevent_rate_limit_group_new */
    constructor (cfg: Cfg, tick: int)
      requires cfg.Ok() && 0 <= tick < TICK_RANGE
      ensures Sound() && fresh(rateLimit) && members == [] && minShare == Min(64, Min(cfg.readRate, cfg.writeRate))
      ensures forall w :: rateLimit.Limit(w) == cfg.Rate(w) && Get(w) == GroupSide(false, false)
    {
      this.cfg := cfg;
      members := [];
      reading, writing := GroupSide(false, false), GroupSide(false, false);
      rateLimit := new TokenBucket();
      configuredMinShare, minShare := 64, Min(64, Min(cfg.readRate, cfg.writeRate));
      new;
      rateLimit.Init(cfg, tick, false);
    }

    /** bufferevent_rate_limit_group_set_min_share */
    method SetMinShare(share: nat) returns (r: int)
      requires Valid()
      modifies this`configuredMinShare, this`minShare
      ensures Valid()
      ensures if share > SSIZE_MAX then r == -1 && minShare == old(minShare)
              else r == 0 && configuredMinShare == share && minShare == Min(share, Min(cfg.readRate, cfg.writeRate))
    {
      if share > SSIZE_MAX { return -1; }
      configuredMinShare := share;
      var s := share;
      if s > cfg.readRate { s := cfg.readRate; }
      if s > cfg.writeRate { s := cfg.writeRate; }
      minShare := s;
      r := 0;
    }

    method Put(isWrite: bool, side: GroupSide)
      modifies this`reading, this`writing
      ensures Get(isWrite) == side && Get(!isWrite) == old(Get(!isWrite))
    {
      if isWrite { writing := side; } else { reading := side; }
    }

    /** _bev_group_suspend_reading and _bev_group_suspend_writing: members whose lock cannot be had find out
        later. */
    method SuspendAll(isWrite: bool, lockable: set<Bufferevent>)
      requires Distinct(members, rateLimit) && (forall i :: 0 <= i < |members| ==> members[i].Valid())
      modifies this`reading, this`writing, (set m | m in members)`reading, (set m | m in members)`writing
      ensures forall i :: 0 <= i < |members| ==> members[i].Valid()
      ensures Get(isWrite) == GroupSide(true, false) && Get(!isWrite) == old(Get(!isWrite))
      ensures forall i :: 0 <= i < |members| ==>
                members[i].Get(isWrite).suspended ==
                  old(members[i].Get(isWrite).suspended) + (if members[i] in lockable then {BandwidthGroup} else {})
      ensures forall i :: 0 <= i < |members| ==> members[i].Get(!isWrite) == old(members[i].Get(!isWrite))
    {
      hide Bufferevent.Valid;
      Put(isWrite, GroupSide(true, false));
      var i := 0;
      while i < |members|
        invariant 0 <= i <= |members| && Get(isWrite) == GroupSide(true, false) && Get(!isWrite) == old(Get(!isWrite))
        invariant forall j :: 0 <= j < |members| ==> members[j].Valid()
        invariant forall j :: 0 <= j < |members| ==> members[j].Get(!isWrite) == old(members[j].Get(!isWrite))
        invariant forall j :: i <= j < |members| ==> members[j].Get(isWrite) == old(members[j].Get(isWrite))
        invariant forall j :: 0 <= j < i ==>
                    members[j].Get(isWrite).suspended ==
                      old(members[j].Get(isWrite).suspended) + (if members[j] in lockable then {BandwidthGroup} else {})
      {
        if members[i] in lockable { members[i].SuspendFor(isWrite, BandwidthGroup); }
        i := i + 1;
      }
    }

    /** A part of the round through the members: again if a lock could not be had. */
    method UnsuspendRange(isWrite: bool, lockable: set<Bufferevent>, lo: nat, hi: nat) returns (again: bool)
      requires Distinct(members, rateLimit) && lo <= hi <= |members|
      requires forall i :: 0 <= i < |members| ==> members[i].Valid()
      modifies (set m | m in members)`reading, (set m | m in members)`writing
      ensures forall i :: 0 <= i < |members| ==> members[i].Valid()
      ensures forall i :: 0 <= i < |members| ==> members[i].Get(!isWrite) == old(members[i].Get(!isWrite))
      ensures forall i :: 0 <= i < |members| && !(lo <= i < hi && members[i] in lockable) ==>
                members[i].Get(isWrite) == old(members[i].Get(isWrite))
      ensures forall i :: lo <= i < hi && members[i] in lockable ==>
                members[i].Get(isWrite).suspended == old(members[i].Get(isWrite).suspended) - {BandwidthGroup}
      ensures again <==> exists i :: lo <= i < hi && members[i] !in lockable
    {
      hide Bufferevent.Valid;
      again := false;
      var i := lo;
      while i < hi
        invariant lo <= i <= hi
        invariant forall j :: 0 <= j < |members| ==> members[j].Valid()
        invariant forall j :: 0 <= j < |members| ==> members[j].Get(!isWrite) == old(members[j].Get(!isWrite))
        invariant forall j :: 0 <= j < |members| && !(lo <= j < i && members[j] in lockable) ==>
                    members[j].Get(isWrite) == old(members[j].Get(isWrite))
        invariant forall j :: lo <= j < i && members[j] in lockable ==>
                    members[j].Get(isWrite).suspended == old(members[j].Get(isWrite).suspended) - {BandwidthGroup}
        invariant again <==> exists j :: lo <= j < i && members[j] !in lockable
      {
        if members[i] in lockable {
          members[i].UnsuspendFor(isWrite, BandwidthGroup);
        } else {
          again := true;
        }
        i := i + 1;
      }
    }

    /** _bev_group_unsuspend_reading and _bev_group_unsuspend_writing: a round that starts at a random member. */
    method UnsuspendAll(isWrite: bool, lockable: set<Bufferevent>, first: nat)
      requires Distinct(members, rateLimit) && first <= |members|
      requires forall i :: 0 <= i < |members| ==> members[i].Valid()
      modifies this`reading, this`writing, (set m | m in members)`reading, (set m | m in members)`writing
      ensures forall i :: 0 <= i < |members| ==> members[i].Valid()
      ensures !Get(isWrite).suspended && Get(!isWrite) == old(Get(!isWrite))
      ensures Get(isWrite).pendingUnsuspend <==> exists i :: 0 <= i < |members| && members[i] !in lockable
      ensures forall i :: 0 <= i < |members| && members[i] in lockable ==>
                BandwidthGroup !in members[i].Get(isWrite).suspended
      ensures forall i :: 0 <= i < |members| ==> members[i].Get(!isWrite) == old(members[i].Get(!isWrite))
      ensures Informed(isWrite)
    {
      Put(isWrite, Get(isWrite).(suspended := false));
      var again := UnsuspendRange(isWrite, lockable, first, |members|);
      var again2 := UnsuspendRange(isWrite, lockable, 0, first);
      Put(isWrite, Get(isWrite).(pendingUnsuspend := again || again2));
    }

    /** The group's part of the decrement functions */
    method Decrement(isWrite: bool, bytes: int, lockable: set<Bufferevent>, first: nat)
      requires Valid() && -SSIZE_MAX - 1 <= rateLimit.Limit(isWrite) - bytes <= cfg.Maximum(isWrite) && first <= |members|
      modifies this`reading, this`writing, rateLimit, (set m | m in members)`reading, (set m | m in members)`writing
      ensures Valid() && rateLimit.Limit(isWrite) == old(rateLimit.Limit(isWrite)) - bytes
      ensures rateLimit.Limit(!isWrite) == old(rateLimit.Limit(!isWrite)) && rateLimit.lastUpdated == old(rateLimit.lastUpdated)
      ensures Get(!isWrite) == old(Get(!isWrite)) && (Get(isWrite).suspended <==> rateLimit.Limit(isWrite) <= 0)
    {
      hide Bufferevent.Valid;
      if isWrite {
        rateLimit.writeLimit := rateLimit.writeLimit - bytes;
      } else {
        rateLimit.readLimit := rateLimit.readLimit - bytes;
      }
      if rateLimit.Limit(isWrite) <= 0 {
        SuspendAll(isWrite, lockable);
      } else if Get(isWrite).suspended {
        UnsuspendAll(isWrite, lockable, first);
      }
    }

    /** One direction of _bev_group_refill_callback */
    method Recover(isWrite: bool, lockable: set<Bufferevent>, first: nat)
      requires Valid() && first <= |members|
      modifies this`reading, this`writing, (set m | m in members)`reading, (set m | m in members)`writing
      ensures Valid() && Get(!isWrite) == old(Get(!isWrite))
      ensures Get(isWrite).suspended <==> old(Get(isWrite).suspended) && rateLimit.Limit(isWrite) < minShare
      ensures Get(isWrite).pendingUnsuspend ==> exists i :: 0 <= i < |members| && members[i] !in lockable
    {
      if Get(isWrite).pendingUnsuspend || (Get(isWrite).suspended && rateLimit.Limit(isWrite) >= minShare) {
        UnsuspendAll(isWrite, lockable, first);
      }
    }

    /** _bev_group_refill_callback, at every tick */
    method RefillCallback(tick: int, lockable: set<Bufferevent>, first: nat, first2: nat)
      requires Valid() && first <= |members| && first2 <= |members| && 0 <= tick < TICK_RANGE
      modifies this`reading, this`writing, rateLimit, (set m | m in members)`reading, (set m | m in members)`writing
      ensures Valid()
      ensures Refreshed(old(rateLimit.readLimit), old(rateLimit.writeLimit), old(rateLimit.lastUpdated), rateLimit, cfg, tick)
      ensures forall w :: Get(w).suspended <==> old(Get(w).suspended) && rateLimit.Limit(w) < minShare
    {
      var r := rateLimit.Update(cfg, tick);
      Recover(false, lockable, first);
      Recover(true, lockable, first2);
    }

    /** bufferevent_add_to_rate_limit_group, for a bufferevent that is in no group */
    method AddMember(bev: Bufferevent)
      requires Valid() && bev.Valid() && Distinct(members + [bev], rateLimit)
      requires BandwidthGroup !in bev.reading.suspended && BandwidthGroup !in bev.writing.suspended
      modifies this`members, bev
      ensures Valid() && members == old(members) + [bev] && (old(Sound()) ==> Sound())
      ensures forall w :: bev.Get(w).enabled == old(bev.Get(w).enabled)
      ensures forall w :: bev.Get(w).suspended ==
                          old(bev.Get(w).suspended) + (if Get(w).suspended then {BandwidthGroup} else {})
    {
      hide Bufferevent.Valid;
      bev.StartRateLimiting();
      members := members + [bev];
      assert forall i :: 0 <= i < |old(members)| ==> members[i] == old(members)[i];
      bev.FollowGroup(reading.suspended, writing.suspended);
    }

    /** bufferevent_remove_from_rate_limit_group, for member i */
    method RemoveMember(i: nat)
      requires Valid() && i < |members|
      modifies this`members, members[i]
      ensures Valid() && members == old(members)[..i] + old(members)[i + 1..] && (old(Sound()) ==> Sound())
      ensures old(members)[i].Valid()
      ensures forall w :: old(members)[i].Get(w).suspended == old(members[i].Get(w).suspended) - {BandwidthGroup}
    {
      hide Bufferevent.Valid;
      var bev := members[i];
      members := members[..i] + members[i + 1..];
      assert forall j :: 0 <= j < |members| ==> members[j] == old(members)[if j < i then j else j + 1];
      bev.UnsuspendFor(false, BandwidthGroup);
      bev.UnsuspendFor(true, BandwidthGroup);
    }

    /** _bufferevent_get_rlim_max, for member i: what it may read or write now. */
    method RlimMax(i: nat, isWrite: bool, tick: int) returns (max: int)
      requires Valid() && i < |members| && 0 <= tick < TICK_RANGE
      modifies {members[i]}`reading, {members[i]}`writing, members[i].limit
      ensures Valid() && max >= 0
      ensures Get(isWrite).suspended ==> max == 0 && BandwidthGroup in members[i].Get(isWrite).suspended
      ensures members[i].cfg == old(members[i].cfg)
      ensures members[i].cfg != null ==>
                Refreshed(old(members[i].limit.readLimit), old(members[i].limit.writeLimit),
                          old(members[i].limit.lastUpdated), members[i].limit, members[i].cfg, tick)
      ensures !Get(isWrite).suspended ==>
                max == Max(0, Min(if members[i].cfg == null then MAX_EVER else members[i].limit.Limit(isWrite),
                                  Max(rateLimit.Limit(isWrite) / |members|, minShare)))
    {
      hide Bufferevent.Valid;
      max := members[i].OwnMax(isWrite, tick);
      var share := 0;
      if Get(isWrite).suspended {
        members[i].SuspendFor(isWrite, BandwidthGroup);
      } else {
        share := TruncDiv(rateLimit.Limit(isWrite), |members|);
        if share < minShare { share := minShare; }
      }
      if max > share { max := share; }
      if max < 0 { max := 0; }
    }

    /** One read or write of member i: at most what it may move now, and it is charged to the member and to the
        group. */
    method Transfer(i: nat, isWrite: bool, want: nat, now: nat, lockable: set<Bufferevent>, first: nat) returns (moved: int)
      requires Sound() && i < |members| && first <= |members|
      modifies this`reading, this`writing, rateLimit
      modifies (set m | m in members)`reading, (set m | m in members)`writing, {members[i]}`refillPending, members[i].limit
      ensures Sound() && 0 <= moved <= want && moved <= Share(old(StateOf(isWrite, now)), minShare, |members|)
      ensures StateOf(isWrite, now) ==
              GroupAfter(old(StateOf(isWrite, now)), cfg.Maximum(isWrite), cfg.Rate(isWrite), minShare, GroupMove(moved, |members|))
      ensures StateOf(!isWrite, now) == old(StateOf(!isWrite, now))
    {
      hide Bufferevent.Valid, SideOk;
      ghost var s := StateOf(isWrite, now);
      SoundSide(isWrite, now);
      SoundSide(!isWrite, 0);
      moved := Take(i, isWrite, want, now);
      MoveKeeps(s, cfg.Maximum(isWrite), cfg.Rate(isWrite), minShare, moved, |members|);
      Decrement(isWrite, moved, lockable, first);
    }

    /** What a member moves, charged to the member alone */
    method Take(i: nat, isWrite: bool, want: nat, now: nat) returns (moved: int)
      requires Valid() && i < |members|
      modifies {members[i]}`reading, {members[i]}`writing, {members[i]}`refillPending, members[i].limit
      ensures Valid() && 0 <= moved <= want && moved <= Share(StateOf(isWrite, now), minShare, |members|)
    {
      hide Bufferevent.Valid, SideOk;
      var max := RlimMax(i, isWrite, now % TICK_RANGE);
      moved := Min(want, max);
      Charge(i, isWrite, moved);
    }

    /** The member's part of the decrement functions */
    method Charge(i: nat, isWrite: bool, bytes: int)
      requires Valid() && i < |members|
      requires bytes >= 0 && (members[i].cfg != null ==> bytes <= Max(0, members[i].limit.Limit(isWrite)))
      modifies {members[i]}`reading, {members[i]}`writing, {members[i]}`refillPending, members[i].limit
      ensures Valid()
    {
      hide Bufferevent.Valid;
      if members[i].cfg != null { members[i].LimitFits(isWrite); }
      members[i].DecrementBuckets(isWrite, bytes);
      assert forall w :: BandwidthGroup in members[i].Get(w).suspended ==>
          BandwidthGroup in old(members[i].Get(w)).suspended - {Bandwidth};
    }

    /** The refill timer, from a sound state */
    method Refill(now: nat, lockable: set<Bufferevent>, first: nat, first2: nat)
      requires Sound() && first <= |members| && first2 <= |members|
      modifies this`reading, this`writing, rateLimit, (set m | m in members)`reading, (set m | m in members)`writing
      ensures Sound()
      ensures forall w :: StateOf(w, now) == GroupAfter(old(StateOf(w, now)), cfg.Maximum(w), cfg.Rate(w), minShare, GroupRefill)
    {
      hide Bufferevent.Valid, SideOk;
      ghost var r, w := StateOf(false, now), StateOf(true, now);
      SoundSide(false, now);
      SoundSide(true, now);
      RefillCallback(now % TICK_RANGE, lockable, first, first2);
      SolventStays(r, cfg.readMaximum, cfg.readRate, minShare, GroupRefill);
      SolventStays(w, cfg.writeMaximum, cfg.writeRate, minShare, GroupRefill);
    }

    /** One call of a run, and what it is for direction isWrite: nothing, if it moves bytes the other way */
    method Perform(isWrite: bool, now: nat, call: GroupCall) returns (n: int, ghost steps: seq<GroupStep>)
      requires Sound() && call.For(members)
      modifies this`reading, this`writing, rateLimit
      modifies (set m | m in members)`reading, (set m | m in members)`writing, (set m | m in members)`refillPending
      modifies set m | m in members :: m.limit
      ensures Sound() && n == GroupMoved(steps) && |steps| <= 1
      ensures GroupElapsed(steps) == if call.Tick? then call.ticks else 0
      ensures GroupObeys(old(StateOf(isWrite, now)), cfg.Maximum(isWrite), cfg.Rate(isWrite), minShare, steps)
      ensures StateOf(isWrite, now + if call.Tick? then call.ticks else 0) ==
              if steps == [] then old(StateOf(isWrite, now))
              else GroupAfter(old(StateOf(isWrite, now)), cfg.Maximum(isWrite), cfg.Rate(isWrite), minShare, steps[0])
    {
      ghost var s := StateOf(isWrite, now);
      n, steps := 0, [];
      match call {
        case Tick(k) =>
          steps := [GroupPass(k)];
        case MemberMoves(i, w, want, lockable, first) =>
          var moved := Transfer(i, w, want, now, lockable, first);
          if w == isWrite { n, steps := moved, [GroupMove(moved, |members|)]; }
        case RefillTimer(lockable, first, first2) =>
          Refill(now, lockable, first, first2);
          steps := [GroupRefill];
      }
      if steps != [] {
        One(s, cfg.Maximum(isWrite), cfg.Rate(isWrite), minShare, steps[0]);
      }
    }

    /** Any run of a group: time passes, members move bytes in both directions, and the refill timer fires.  In each
        direction the bytes are bounded by the tokens at the start, the rate for every tick since the bucket was
        last brought up to date, and one share. */
    method Run(isWrite: bool, now: nat, calls: seq<GroupCall>) returns (moved: int, ghost steps: seq<GroupStep>)
      requires Sound() && forall call | call in calls :: call.For(members)
      modifies this`reading, this`writing, rateLimit
      modifies (set m | m in members)`reading, (set m | m in members)`writing, (set m | m in members)`refillPending
      modifies set m | m in members :: m.limit
      ensures Sound() && moved == GroupMoved(steps) && GroupElapsed(steps) == Ticked(calls)
      ensures GroupObeys(old(StateOf(isWrite, now)), cfg.Maximum(isWrite), cfg.Rate(isWrite), minShare, steps)
      ensures moved < old(rateLimit.Limit(isWrite)) + (Pending(old(StateOf(isWrite, now))) + Ticked(calls)) * cfg.Rate(isWrite) + Slack(minShare)
      decreases |calls|
    {
      hide GroupObeys, GroupMoved, GroupElapsed, GroupAfter, Sound, Solvent, Pending;
      ghost var s, max, rate := StateOf(isWrite, now), cfg.Maximum(isWrite), cfg.Rate(isWrite);
      SoundSide(isWrite, now);
      NoSteps(s, max, rate, minShare);
      moved, steps := 0, [];
      if calls != [] {
        ghost var step, rest;
        moved, step := Perform(isWrite, now, calls[0]);
        var more;
        more, rest := Run(isWrite, now + if calls[0].Tick? then calls[0].ticks else 0, calls[1..]);
        Joined(s, max, rate, minShare, step, rest);
        moved, steps := moved + more, step + rest;
      }
      GroupBandwidthBound(s, max, rate, minShare, steps);
    }
  }

  /** What happens to a group: ticks pass, a member moves bytes, and the refill timer fires.  Only the lockable
      members can be told at once, and a round through the members starts at a random one. */
  datatype GroupCall =
    | Tick(ticks: nat)
    | MemberMoves(i: nat, isWrite: bool, want: nat, lockable: set<Bufferevent>, first: nat)
    | RefillTimer(lockable: set<Bufferevent>, first: nat, first2: nat)
  {
    predicate For(members: seq<Bufferevent>) {
      match this
      case Tick(_) => true
      case MemberMoves(i, _, _, _, first) => i < |members| && first <= |members|
      case RefillTimer(_, first, first2) => first <= |members| && first2 <= |members|
    }
  }

  function Ticked(calls: seq<GroupCall>): nat
    decreases |calls|
  {
    if calls == [] then 0 else (if calls[0].Tick? then calls[0].ticks else 0) + Ticked(calls[1..])
  }

  // ----- bandwidth over whole runs -----

  /** Passing time does not make more ticks count than pass. */
  lemma TicksPass(last: int, now: nat, k: nat)
    requires 0 <= last < TICK_RANGE
    ensures TicksSince(last, (now + k) % TICK_RANGE) <= TicksSince(last, now % TICK_RANGE) + k
    ensures TicksSince(now % TICK_RANGE, now % TICK_RANGE) == 0
  {
    var d, d2 := (now % TICK_RANGE - last) % TICK_RANGE, ((now + k) % TICK_RANGE - last) % TICK_RANGE;
    var q := (d + k) / TICK_RANGE;
    assert d2 == (d + k) % TICK_RANGE;
  }

  /** What happens to one direction of a bufferevent with a limit of its own: ticks pass, or bytes move after the
      bucket has been brought up to date. */
  datatype Step = Pass(ticks: nat) | Move(bytes: nat)

  /** One direction of a bucket, and the tick that it is, not wrapped */
  datatype State = State(limit: int, last: int, now: nat)

  /** The limit of a bucket that is brought up to date now */
  function LimitNow(s: State, max: int, rate: int): int {
    Updated(s.limit, max, rate, TicksSince(s.last, s.now % TICK_RANGE))
  }

  function After(s: State, max: int, rate: int, step: Step): State {
    match step
    case Pass(k) => s.(now := s.now + k)
    case Move(b) =>
      State(LimitNow(s, max, rate) - b,
            if TicksSince(s.last, s.now % TICK_RANGE) == 0 then s.last else s.now % TICK_RANGE, s.now)
  }

  /** No transfer is larger than the maximum that was just returned. */
  predicate Obeys(s: State, max: int, rate: int, steps: seq<Step>)
    decreases |steps|
  {
    steps == [] ||
    ((steps[0].Move? ==> steps[0].bytes <= Max(0, LimitNow(s, max, rate))) &&
     Obeys(After(s, max, rate, steps[0]), max, rate, steps[1..]))
  }

  function Moved(steps: seq<Step>): nat
    decreases |steps|
  {
    if steps == [] then 0 else (if steps[0].Move? then steps[0].bytes else 0) + Moved(steps[1..])
  }

  function Elapsed(steps: seq<Step>): nat
    decreases |steps|
  {
    if steps == [] then 0 else (if steps[0].Pass? then steps[0].ticks else 0) + Elapsed(steps[1..])
  }

  /** Over any run, from any state of the bucket: no more bytes move than could move at the start, plus the rate
      for every tick; so at most the burst plus the rate for every tick. */
  lemma {:induction false} BandwidthBound(s: State, max: int, rate: int, steps: seq<Step>)
    requires 0 <= s.last < TICK_RANGE && s.limit <= max && 0 <= rate && 0 <= max && Obeys(s, max, rate, steps)
    ensures Moved(steps) <= Max(0, LimitNow(s, max, rate)) + Elapsed(steps) * rate
    ensures Moved(steps) <= max + Elapsed(steps) * rate
    decreases |steps|
  {
    Scale(0, Elapsed(steps), rate);
    LimitAtMost(s, max, rate);
    if steps != [] {
      var t, rest := After(s, max, rate, steps[0]), steps[1..];
      LimitAfter(s, max, rate, steps[0]);
      hide LimitNow, After;
      BandwidthBound(t, max, rate, rest);
      if steps[0].Pass? { Distribute(steps[0].ticks, Elapsed(rest), rate); }
    }
  }

  lemma LimitAtMost(s: State, max: int, rate: int)
    requires s.limit <= max
    ensures LimitNow(s, max, rate) <= max
  {
  }

  /** What one step does to the limit that a caller would be told */
  lemma LimitAfter(s: State, max: int, rate: int, step: Step)
    requires 0 <= s.last < TICK_RANGE && s.limit <= max && 0 <= rate && 0 <= max
    requires step.Move? ==> step.bytes <= Max(0, LimitNow(s, max, rate))
    ensures var t := After(s, max, rate, step);
            && 0 <= t.last < TICK_RANGE && t.limit <= max
            && (step.Pass? ==> Max(0, LimitNow(t, max, rate)) <= Max(0, LimitNow(s, max, rate)) + step.ticks * rate)
            && (step.Move? ==> step.bytes + Max(0, LimitNow(t, max, rate)) <= Max(0, LimitNow(s, max, rate)))
  {
    var t := After(s, max, rate, step);
    match step
    case Pass(k) =>
      TicksPass(s.last, s.now, k);
      Scale(0, k, rate);
      UpdatedStep(s.limit, max, rate, TicksSince(s.last, s.now % TICK_RANGE), TicksSince(s.last, t.now % TICK_RANGE), k);
    case Move(b) =>
      TicksPass(s.last, s.now, 0);
  }

  lemma Distribute(a: int, b: int, rate: int)
    ensures (a + b) * rate == a * rate + b * rate
  {
  }

  lemma UpdatedStep(limit: int, max: int, rate: int, n: nat, n2: nat, k: nat)
    requires limit <= max && rate >= 0
    ensures Updated(limit, max, rate, n) <= max
    ensures n2 <= n + k ==> Updated(limit, max, rate, n2) <= Updated(limit, max, rate, n) + k * rate
  {
    Scale(0, n, rate);
    Scale(0, k, rate);
    if n2 <= n + k {
      Scale(n2, n + k, rate);
      Distribute(n, k, rate);
    }
  }

  lemma Scale(a: int, b: int, rate: int)
    requires a <= b && rate >= 0
    ensures a * rate <= b * rate
  {
  }

  /** What happens to one direction of a group: ticks pass, a member moves bytes, the refill timer fires. */
  datatype GroupStep = GroupPass(ticks: nat) | GroupMove(bytes: nat, nMembers: nat) | GroupRefill

  datatype GroupState = GroupState(limit: int, last: int, suspended: bool, now: nat)

  function Pending(s: GroupState): nat {
    TicksSince(s.last, s.now % TICK_RANGE)
  }

  function GroupAfter(s: GroupState, max: int, rate: int, minShare: nat, step: GroupStep): GroupState {
    match step
    case GroupPass(k) => s.(now := s.now + k)
    case GroupMove(b, n) => s.(limit := s.limit - b, suspended := s.limit - b <= 0)
    case GroupRefill =>
      var limit := Updated(s.limit, max, rate, Pending(s));
      GroupState(limit, if Pending(s) == 0 then s.last else s.now % TICK_RANGE, s.suspended && limit < minShare, s.now)
  }

  /** What the group lets each of n members move */
  function Share(s: GroupState, minShare: nat, n: nat): int
    requires n > 0
  {
    if s.suspended then 0 else Max(s.limit / n, minShare)
  }

  /** No member moves more than its share, and nothing while the group is suspended. */
  predicate GroupObeys(s: GroupState, max: int, rate: int, minShare: nat, steps: seq<GroupStep>)
    decreases |steps|
  {
    steps == [] ||
    ((steps[0].GroupMove? ==> steps[0].nMembers > 0 && steps[0].bytes <= Share(s, minShare, steps[0].nMembers)) &&
     GroupObeys(GroupAfter(s, max, rate, minShare, steps[0]), max, rate, minShare, steps[1..]))
  }

  function GroupMoved(steps: seq<GroupStep>): nat
    decreases |steps|
  {
    if steps == [] then 0 else (if steps[0].GroupMove? then steps[0].bytes else 0) + GroupMoved(steps[1..])
  }

  function GroupElapsed(steps: seq<GroupStep>): nat
    decreases |steps|
  {
    if steps == [] then 0 else (if steps[0].GroupPass? then steps[0].ticks else 0) + GroupElapsed(steps[1..])
  }

  /** One share; with no minimal share one byte, so that below it there are none. */
  function Slack(minShare: nat): int {
    Max(minShare, 1)
  }

  /** An unsuspended group has tokens, and a suspended one owes less than one share.  With no minimal share, an
      unsuspended group may have none, and no group owes any. */
  predicate Solvent(s: GroupState, minShare: nat) {
    (!s.suspended ==> if minShare > 0 then s.limit > 0 else s.limit >= 0) && s.limit + Slack(minShare) > 0
  }

  /** No step takes away the tokens of an unsuspended group, or lets it owe a whole share. */
  lemma SolventStays(s: GroupState, max: int, rate: int, minShare: nat, step: GroupStep)
    requires Solvent(s, minShare) && s.limit <= max && rate >= 0 && GroupObeys(s, max, rate, minShare, [step])
    ensures Solvent(GroupAfter(s, max, rate, minShare, step), minShare)
    ensures GroupAfter(s, max, rate, minShare, step).limit <= max
  {
    match step
    case GroupPass(k) =>
    case GroupMove(b, n) => Quotient(s.limit, n);
    case GroupRefill => Scale(0, Pending(s), rate);
  }

  lemma MoveKeeps(s: GroupState, max: int, rate: int, minShare: nat, b: nat, n: nat)
    requires Solvent(s, minShare) && s.limit <= max && n > 0 && b <= Share(s, minShare, n)
    ensures s.limit - b + Slack(minShare) > 0 && Solvent(GroupAfter(s, max, rate, minShare, GroupMove(b, n)), minShare)
  {
    Quotient(s.limit, n);
  }

  lemma Quotient(a: int, n: nat)
    requires n > 0
    ensures a >= 0 ==> 0 <= a / n <= a
  {
    if a >= 0 {
      var q := a / n;
      assert a == n * q + a % n;
      assert 0 <= q by { if q < 0 { Scale(q, -1, n); } }
      Scale(1, n, q);
    }
  }

  /** Over any run of a group: fewer bytes move than the tokens at the start, the rate for every tick since the
      bucket was last brought up to date, and one minimal share. */
  lemma {:induction false} GroupBandwidthBound(s: GroupState, max: int, rate: int, minShare: nat, steps: seq<GroupStep>)
    requires 0 <= s.last < TICK_RANGE && s.limit <= max && 0 <= rate && Solvent(s, minShare)
    requires GroupObeys(s, max, rate, minShare, steps)
    ensures GroupMoved(steps) < s.limit + (Pending(s) + GroupElapsed(steps)) * rate + Slack(minShare)
    ensures Pending(s) == 0 ==> GroupMoved(steps) < max + GroupElapsed(steps) * rate + Slack(minShare)
    decreases |steps|
  {
    Scale(0, Pending(s) + GroupElapsed(steps), rate);
    if steps != [] {
      var step := steps[0];
      var t := GroupAfter(s, max, rate, minShare, step);
      assert [step][1..] == [];
      SolventStays(s, max, rate, minShare, step);
      hide TicksSince, GroupObeys, Solvent;
      GroupBandwidthBound(t, max, rate, minShare, steps[1..]);
      var e := GroupElapsed(steps[1..]);
      match step {
        case GroupPass(k) =>
          TicksPass(s.last, s.now, k);
          Scale(Pending(t) + e, Pending(s) + k + e, rate);
        case GroupMove(b, n) =>
        case GroupRefill =>
          TicksPass(s.last, s.now, 0);
          assert (Pending(s) + e) * rate == Pending(s) * rate + e * rate;
      }
    }
  }

  /** The bound of the whole burst, the rate for every tick of the run, and one minimal share */
  ghost predicate Bounded(s: GroupState, max: int, rate: int, minShare: nat) {
    forall steps | GroupObeys(s, max, rate, minShare, steps) ::
      GroupMoved(steps) < max + GroupElapsed(steps) * rate + Slack(minShare)
  }

  /** Ticks that have passed before the run count when the refill is late.  So the bound holds for every run exactly
      when the group has no tokens at the start, or has room for those that are due. */
  lemma BoundedExactly(s: GroupState, max: int, rate: int, minShare: nat)
    requires 0 <= s.last < TICK_RANGE && s.limit <= max && 0 <= rate && minShare <= max && Solvent(s, minShare)
    ensures Bounded(s, max, rate, minShare) <==> s.limit <= 0 || s.limit + Pending(s) * rate <= max
  {
    if s.limit <= 0 {
      forall steps | GroupObeys(s, max, rate, minShare, steps)
        ensures GroupMoved(steps) < max + GroupElapsed(steps) * rate + Slack(minShare)
      {
        EmptyStart(s, max, rate, minShare, steps);
      }
    } else if s.limit + Pending(s) * rate <= max {
      forall steps | GroupObeys(s, max, rate, minShare, steps)
        ensures GroupMoved(steps) < max + GroupElapsed(steps) * rate + Slack(minShare)
      {
        GroupBandwidthBound(s, max, rate, minShare, steps);
        Distribute(Pending(s), GroupElapsed(steps), rate);
      }
    } else {
      var steps := LateRefill(s, max, rate, minShare);
      assert !(GroupMoved(steps) < max + GroupElapsed(steps) * rate + Slack(minShare));
    }
  }

  /** Without tokens nothing moves before the first refill, and then no tick is pending. */
  lemma {:induction false} EmptyStart(s: GroupState, max: int, rate: int, minShare: nat, steps: seq<GroupStep>)
    requires 0 <= s.last < TICK_RANGE && s.limit <= 0 && 0 <= rate && minShare <= max && Solvent(s, minShare)
    requires GroupObeys(s, max, rate, minShare, steps)
    ensures GroupMoved(steps) < max + GroupElapsed(steps) * rate + Slack(minShare)
    decreases |steps|
  {
    if steps != [] {
      var step, e := steps[0], GroupElapsed(steps[1..]);
      var t := GroupAfter(s, max, rate, minShare, step);
      assert [step][1..] == [];
      SolventStays(s, max, rate, minShare, step);
      hide GroupObeys, TicksSince;
      match step {
        case GroupPass(k) =>
          EmptyStart(t, max, rate, minShare, steps[1..]);
          Distribute(k, e, rate);
          Scale(0, k, rate);
        case GroupMove(_, _) =>
          EmptyStart(t, max, rate, minShare, steps[1..]);
        case GroupRefill =>
          TicksPass(s.last, s.now, 0);
          GroupBandwidthBound(t, max, rate, minShare, steps[1..]);
      }
    }
  }

  /** A run that moves too much: nearly all tokens, the late refill, and nearly all tokens and a share again */
  lemma LateRefill(s: GroupState, max: int, rate: int, minShare: nat) returns (steps: seq<GroupStep>)
    requires 0 <= s.last < TICK_RANGE && 0 < s.limit <= max && 0 <= rate && minShare <= max
    requires s.limit + Pending(s) * rate > max
    ensures GroupObeys(s, max, rate, minShare, steps) && GroupElapsed(steps) == 0
    ensures GroupMoved(steps) >= max + Slack(minShare)
  {
    var s1 := s.(suspended := false);
    TicksPass(s.last, s.now, 0);
    var rest;
    if minShare > 0 {
      rest := RefillBetween(s1, max, rate, minShare);
    } else {
      rest := RefillAfter(s1, max, rate);
    }
    Next(s, s1, max, rate, minShare, GroupMove(0, 1), rest);
    steps := [GroupMove(0, 1)] + rest;
  }

  lemma RefillBetween(s: GroupState, max: int, rate: int, minShare: nat) returns (steps: seq<GroupStep>)
    requires 0 < s.limit <= max && 0 <= rate && 0 < minShare <= max && !s.suspended && s.limit + Pending(s) * rate > max
    ensures GroupObeys(s, max, rate, minShare, steps) && GroupElapsed(steps) == 0
    ensures GroupMoved(steps) >= max + minShare
  {
    var b := if s.limit == 1 then 1 else s.limit - 1;
    var s2 := GroupAfter(s, max, rate, minShare, GroupMove(b, 1));
    var s3 := GroupAfter(s2, max, rate, minShare, GroupRefill);
    assert Pending(s2) == Pending(s);
    var c := s3.limit - 1;
    var s4 := s3.(limit := 1);
    steps := [GroupMove(b, 1)] + ([GroupRefill] + ([GroupMove(c, 1)] + [GroupMove(minShare, 1)]));
    One(s4, max, rate, minShare, GroupMove(minShare, 1));
    Next(s3, s4, max, rate, minShare, GroupMove(c, 1), [GroupMove(minShare, 1)]);
    Next(s2, s3, max, rate, minShare, GroupRefill, [GroupMove(c, 1)] + [GroupMove(minShare, 1)]);
    Next(s, s2, max, rate, minShare, GroupMove(b, 1), [GroupRefill] + ([GroupMove(c, 1)] + [GroupMove(minShare, 1)]));
  }

  lemma RefillAfter(s: GroupState, max: int, rate: int) returns (steps: seq<GroupStep>)
    requires 0 < s.limit <= max && 0 <= rate && !s.suspended && s.limit + Pending(s) * rate > max
    ensures GroupObeys(s, max, rate, 0, steps) && GroupElapsed(steps) == 0
    ensures GroupMoved(steps) > max
  {
    var s2 := GroupAfter(s, max, rate, 0, GroupMove(s.limit, 1));
    var s3 := GroupAfter(s2, max, rate, 0, GroupRefill);
    assert Pending(s2) == Pending(s);
    steps := [GroupMove(s.limit, 1)] + ([GroupRefill] + [GroupMove(s3.limit, 1)]);
    One(s3, max, rate, 0, GroupMove(s3.limit, 1));
    Next(s2, s3, max, rate, 0, GroupRefill, [GroupMove(s3.limit, 1)]);
    Next(s, s2, max, rate, 0, GroupMove(s.limit, 1), [GroupRefill] + [GroupMove(s3.limit, 1)]);
  }

  // ----- a minimal share of 0 -----

  function GroupEnd(s: GroupState, max: int, rate: int, minShare: nat, steps: seq<GroupStep>): GroupState
    decreases |steps|
  {
    if steps == [] then s else GroupEnd(GroupAfter(s, max, rate, minShare, steps[0]), max, rate, minShare, steps[1..])
  }

  /** bufferevent_rate_limit_group_new, in one direction */
  function NewGroup(rate: int): GroupState {
    GroupState(rate, 0, false, 0)
  }

  predicate HasTokens(s: GroupState) {
    !s.suspended ==> s.limit > 0
  }

  lemma {:induction false} SolventRun(s: GroupState, max: int, rate: int, minShare: nat, steps: seq<GroupStep>)
    requires Solvent(s, minShare) && s.limit <= max && rate >= 0 && GroupObeys(s, max, rate, minShare, steps)
    ensures Solvent(GroupEnd(s, max, rate, minShare, steps), minShare)
    decreases |steps|
  {
    hide Solvent;
    if steps != [] {
      assert [steps[0]][1..] == [];
      SolventStays(s, max, rate, minShare, steps[0]);
      SolventRun(GroupAfter(s, max, rate, minShare, steps[0]), max, rate, minShare, steps[1..]);
    }
  }

  /** An unsuspended group always has tokens exactly if there is a minimal share: a refill that comes before the first tick
      lifts the suspension of a group that has used up its tokens. */
  lemma TokensExactly(max: int, rate: int, minShare: nat)
    requires 1 <= rate <= max && minShare <= rate
    ensures (forall steps | GroupObeys(NewGroup(rate), max, rate, minShare, steps) ::
               HasTokens(GroupEnd(NewGroup(rate), max, rate, minShare, steps))) <==> minShare > 0
  {
    var s := NewGroup(rate);
    if minShare > 0 {
      forall steps | GroupObeys(s, max, rate, minShare, steps)
        ensures HasTokens(GroupEnd(s, max, rate, minShare, steps))
      {
        SolventRun(s, max, rate, minShare, steps);
      }
    } else {
      var steps := NoTokens(max, rate);
      assert !HasTokens(GroupEnd(s, max, rate, 0, steps));
    }
  }

  lemma NoTokens(max: int, rate: int) returns (steps: seq<GroupStep>)
    requires 1 <= rate <= max
    ensures GroupObeys(NewGroup(rate), max, rate, 0, steps)
    ensures GroupEnd(NewGroup(rate), max, rate, 0, steps) == GroupState(0, 0, false, 0)
  {
    var s := NewGroup(rate);
    var s1 := GroupAfter(s, max, rate, 0, GroupMove(rate, 1));
    steps := [GroupMove(rate, 1)] + [GroupRefill];
    One(s1, max, rate, 0, GroupRefill);
    Next(s, s1, max, rate, 0, GroupMove(rate, 1), [GroupRefill]);
    assert steps[0] == GroupMove(rate, 1) && steps[1..] == [GroupRefill] && [GroupRefill][1..] == [];
    assert Pending(s1) == 0;
    var s2 := GroupAfter(s1, max, rate, 0, GroupRefill);
    assert GroupEnd(s2, max, rate, 0, []) == s2;
    assert GroupEnd(s1, max, rate, 0, [GroupRefill]) == s2;
  }

  lemma NoSteps(s: GroupState, max: int, rate: int, minShare: nat)
    ensures GroupObeys(s, max, rate, minShare, []) && GroupMoved([]) == GroupElapsed([]) == 0
  {
  }

  lemma Joined(s: GroupState, max: int, rate: int, minShare: nat, first: seq<GroupStep>, rest: seq<GroupStep>)
    requires |first| <= 1 && GroupObeys(s, max, rate, minShare, first)
    requires GroupObeys(if first == [] then s else GroupAfter(s, max, rate, minShare, first[0]), max, rate, minShare, rest)
    ensures GroupObeys(s, max, rate, minShare, first + rest)
    ensures GroupMoved(first + rest) == GroupMoved(first) + GroupMoved(rest)
    ensures GroupElapsed(first + rest) == GroupElapsed(first) + GroupElapsed(rest)
  {
    if first == [] {
      assert first + rest == rest;
    } else {
      assert first == [first[0]] && first[1..] == [];
      Next(s, GroupAfter(s, max, rate, minShare, first[0]), max, rate, minShare, first[0], rest);
    }
  }

  lemma One(s: GroupState, max: int, rate: int, minShare: nat, step: GroupStep)
    requires step.GroupMove? ==> step.nMembers > 0 && step.bytes <= Share(s, minShare, step.nMembers)
    ensures GroupObeys(s, max, rate, minShare, [step])
    ensures GroupMoved([step]) == if step.GroupMove? then step.bytes else 0
    ensures GroupElapsed([step]) == if step.GroupPass? then step.ticks else 0
  {
    assert [step][1..] == [];
  }

  /** One more step in front of a run */
  lemma Next(s: GroupState, t: GroupState, max: int, rate: int, minShare: nat, step: GroupStep, steps: seq<GroupStep>)
    requires step.GroupMove? ==> step.nMembers > 0 && step.bytes <= Share(s, minShare, step.nMembers)
    requires t == GroupAfter(s, max, rate, minShare, step) && GroupObeys(t, max, rate, minShare, steps)
    ensures GroupObeys(s, max, rate, minShare, [step] + steps)
    ensures GroupMoved([step] + steps) == (if step.GroupMove? then step.bytes else 0) + GroupMoved(steps)
    ensures GroupElapsed([step] + steps) == (if step.GroupPass? then step.ticks else 0) + GroupElapsed(steps)
  {
    assert ([step] + steps)[1..] == steps;
  }
}
