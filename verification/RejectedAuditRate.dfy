/** Exactly which configurations of the rejection limiter keep the rate: a pruned bucket starts
    again with a full burst, so an idle bucket must refill before it may be pruned. */
module RejectedAuditRate {
  import opened Outcomes
  import opened RejectedAuditLimiter

  /** What configuration loading accepts that matters here: a positive time to live in whole
      seconds and a burst that fits its type. */
  predicate Accepted(cfg: Config) {
    cfg.ttl == WholeSeconds(cfg.ttl) * SECOND && WholeSeconds(cfg.ttl) >= 1 && cfg.burst <= USIZE_MAX
  }

  /** The window of a run: `prefix` up to `from`, then `run` up to `to`. */
  predicate WindowHolds(cfg: Config, prefix: seq<Arrival>, run: seq<Arrival>, start: int, from: int, to: int,
                        slot: Slot)
  {
    Monotone(prefix, start, from) && Monotone(run, from, to) ==>
      Writes(After(Empty, cfg, prefix), cfg, run, slot) <= WindowBound(cfg, from, to)
  }

  /** In every window of every run every bucket stays within the bound. */
  ghost predicate RateHolds(cfg: Config) {
    forall prefix: seq<Arrival>, run: seq<Arrival>, start: int, from: int, to: int, slot: Slot ::
      WindowHolds(cfg, prefix, run, start, from, to, slot)
  }

  // ---------- Sufficient ----------

  lemma {:induction false} SaneAfter(bs: Buckets, cfg: Config, run: seq<Arrival>, from: int, to: int)
    requires Sane(bs, cfg, from) && Monotone(run, from, to)
    ensures Sane(After(bs, cfg, run), cfg, to)
    decreases |run|
  {
    if run != [] {
      CheckKeepsSane(bs, cfg, from, run[0].now, run[0].key);
      SaneAfter(Check(bs, cfg, run[0].now, run[0].key).0, cfg, run[1..], run[0].now, to);
    }
  }

  lemma Sufficient(cfg: Config)
    requires Accepted(cfg) && WholeSeconds(cfg.ttl) * cfg.refillPerSec >= cfg.burst
    ensures RateHolds(cfg)
  {
    forall prefix: seq<Arrival>, run: seq<Arrival>, start: int, from: int, to: int, slot: Slot
      ensures WindowHolds(cfg, prefix, run, start, from, to, slot)
    {
      if Monotone(prefix, start, from) && Monotone(run, from, to) {
        SaneAfter(Empty, cfg, prefix, start, from);
        RateLimit(After(Empty, cfg, prefix), cfg, from, run, to, slot);
      }
    }
  }

  // ---------- Necessary ----------

  function Burst(now: int, key: LimitKey, n: nat): seq<Arrival> {
    if n == 0 then [] else [Arrival(now, key)] + Burst(now, key, n - 1)
  }

  /** The bucket that answers `key` when it is alone. */
  function SlotFor(cfg: Config, key: LimitKey): Slot { Route(Empty, cfg, key) }

  /** A limiter with that bucket only. */
  function Solo(cfg: Config, key: LimitKey, b: Bucket): Buckets { Put(Empty, SlotFor(cfg, key), b) }

  /** The bucket as a check at `now` finds it: pruned and refilled. */
  function Found(b: Bucket, cfg: Config, now: int): Bucket {
    Refill(if Stale(b, cfg, now) then NewBucket(cfg, now) else b, cfg, now)
  }

  /** The bucket after it has let `n` events through at `now`. */
  function Spent(f: Bucket, now: int, n: nat): Bucket
    requires n <= f.tokens
  {
    Bucket(f.tokens - n, 0, f.lastRefill, now, Some(now))
  }

  lemma PutSolo(cfg: Config, key: LimitKey, b: Bucket, c: Bucket)
    ensures Put(Solo(cfg, key, b), SlotFor(cfg, key), c) == Solo(cfg, key, c)
    ensures Route(Solo(cfg, key, b), cfg, key) == SlotFor(cfg, key)
  {
    assert Empty.own[key := b][key := c] == Empty.own[key := c];
  }

  lemma PruneSolo(cfg: Config, key: LimitKey, b: Bucket, now: int)
    ensures Prune(Solo(cfg, key, b), cfg, now) == if Stale(b, cfg, now) then Empty else Solo(cfg, key, b)
  {}

  lemma CheckSolo(cfg: Config, key: LimitKey, b: Bucket, now: int)
    requires Found(b, cfg, now).tokens > 0 && Found(b, cfg, now).suppressed == 0
    ensures Check(Solo(cfg, key, b), cfg, now, key)
         == (Solo(cfg, key, Spent(Found(b, cfg, now), now, 1)), SlotFor(cfg, key), Write(0))
  {
    PruneSolo(cfg, key, b, now);
    PutSolo(cfg, key, b, Spent(Found(b, cfg, now), now, 1));
  }

  lemma FoundAgain(b: Bucket, cfg: Config, now: int)
    requires Found(b, cfg, now).tokens > 0
    ensures Found(Spent(Found(b, cfg, now), now, 1), cfg, now) == Spent(Found(b, cfg, now), now, 1)
  {}

  /** At one instant a lone bucket lets through as many events as it has tokens. */
  lemma {:induction false} BurstPasses(cfg: Config, key: LimitKey, b: Bucket, now: int, n: nat)
    requires 0 < n <= Found(b, cfg, now).tokens && Found(b, cfg, now).suppressed == 0
    ensures Writes(Solo(cfg, key, b), cfg, Burst(now, key, n), SlotFor(cfg, key)) == n
    ensures After(Solo(cfg, key, b), cfg, Burst(now, key, n)) == Solo(cfg, key, Spent(Found(b, cfg, now), now, n))
    decreases n
  {
    CheckSolo(cfg, key, b, now);
    assert Burst(now, key, n)[1..] == Burst(now, key, n - 1);
    if n > 1 {
      FoundAgain(b, cfg, now);
      BurstPasses(cfg, key, Spent(Found(b, cfg, now), now, 1), now, n - 1);
    }
  }

  lemma {:induction false} Concat(bs: Buckets, cfg: Config, x: seq<Arrival>, y: seq<Arrival>, slot: Slot)
    ensures After(bs, cfg, x + y) == After(After(bs, cfg, x), cfg, y)
    ensures Writes(bs, cfg, x + y, slot) == Writes(bs, cfg, x, slot) + Writes(After(bs, cfg, x), cfg, y, slot)
    decreases |x|
  {
    if x == [] {
      assert x + y == y;
    } else {
      assert (x + y)[1..] == x[1..] + y;
      Concat(Check(bs, cfg, x[0].now, x[0].key).0, cfg, x[1..], y, slot);
    }
  }

  /** From `bs`, `run` makes the bucket let `n` events through and leads to `end`. */
  predicate Passes(cfg: Config, slot: Slot, bs: Buckets, run: seq<Arrival>, n: nat, end: Buckets) {
    Writes(bs, cfg, run, slot) == n && After(bs, cfg, run) == end
  }

  lemma PassesConcat(cfg: Config, slot: Slot, bs: Buckets, x: seq<Arrival>, m: nat, mid: Buckets,
                     y: seq<Arrival>, n: nat, end: Buckets)
    requires Passes(cfg, slot, bs, x, m, mid) && Passes(cfg, slot, mid, y, n, end)
    ensures Passes(cfg, slot, bs, x + y, m + n, end)
  {
    Concat(bs, cfg, x, y, slot);
  }

  lemma {:induction false} MonotoneConcat(x: seq<Arrival>, y: seq<Arrival>, from: int, mid: int, to: int)
    requires Monotone(x, from, mid) && Monotone(y, mid, to) && mid <= to
    ensures Monotone(x + y, from, to)
    decreases |x|
  {
    if x == [] {
      assert x + y == y;
      if y != [] { assert from <= y[0].now; }
    } else {
      assert (x + y)[1..] == x[1..] + y;
      MonotoneConcat(x[1..], y, x[0].now, mid, to);
    }
  }

  lemma {:induction false} MonotoneBurst(now: int, key: LimitKey, n: nat, from: int)
    requires from <= now
    ensures Monotone(Burst(now, key, n), from, now)
  {
    if n > 0 {
      assert Burst(now, key, n)[1..] == Burst(now, key, n - 1);
      MonotoneBurst(now, key, n - 1, now);
    }
  }

  // ---------- A run that exceeds the bound ----------

  function Pause(cfg: Config): nat { cfg.ttl + 1 }

  /** After one event at time zero: the rest of the burst just before the first second is over, the
      refill of that second, and two full bursts, each after the bucket was pruned. */
  function Excess(cfg: Config, key: LimitKey): seq<Arrival>
    requires cfg.burst > 0
  {
    Burst(SECOND - 1, key, cfg.burst - 1) + Burst(SECOND, key, cfg.refillPerSec)
    + Burst(SECOND + Pause(cfg), key, cfg.burst) + Burst(SECOND + 2 * Pause(cfg), key, cfg.burst)
  }

  function ExcessEnd(cfg: Config): int { SECOND + 2 * Pause(cfg) }

  lemma ExcessMonotone(cfg: Config, key: LimitKey)
    requires cfg.burst > 0
    ensures Monotone([Arrival(0, key)], 0, SECOND - 1) && Monotone(Excess(cfg, key), SECOND - 1, ExcessEnd(cfg))
  {
    var a, b := Burst(SECOND - 1, key, cfg.burst - 1), Burst(SECOND, key, cfg.refillPerSec);
    var c, d := Burst(SECOND + Pause(cfg), key, cfg.burst), Burst(ExcessEnd(cfg), key, cfg.burst);
    MonotoneBurst(SECOND - 1, key, cfg.burst - 1, SECOND - 1);
    MonotoneBurst(SECOND, key, cfg.refillPerSec, SECOND - 1);
    MonotoneBurst(SECOND + Pause(cfg), key, cfg.burst, SECOND);
    MonotoneBurst(ExcessEnd(cfg), key, cfg.burst, SECOND + Pause(cfg));
    MonotoneConcat(a, b, SECOND - 1, SECOND - 1, SECOND);
    MonotoneConcat(a + b, c, SECOND - 1, SECOND, SECOND + Pause(cfg));
    MonotoneConcat(a + b + c, d, SECOND - 1, SECOND + Pause(cfg), ExcessEnd(cfg));
  }

  lemma FirstEvent(cfg: Config, key: LimitKey, b: Bucket)
    requires cfg.burst > 0 && b == Bucket(cfg.burst - 1, 0, 0, 0, Some(0))
    ensures After(Empty, cfg, [Arrival(0, key)]) == Solo(cfg, key, b)
  {
    assert Prune(Empty, cfg, 0) == Empty;
    assert [Arrival(0, key)][1..] == [];
  }

  /** The tokens left of the first burst pass just before the first second is over. */
  lemma RestOfBurst(cfg: Config, key: LimitKey, b: Bucket) returns (c: Bucket)
    requires cfg.burst > 0 && cfg.ttl >= SECOND && b == Bucket(cfg.burst - 1, 0, 0, 0, Some(0))
    ensures Passes(cfg, SlotFor(cfg, key), Solo(cfg, key, b), Burst(SECOND - 1, key, cfg.burst - 1), cfg.burst - 1,
                   Solo(cfg, key, c))
    ensures c.tokens == 0 && c.suppressed == 0 && c.lastRefill == 0 && 0 <= c.lastSeen < SECOND
  {
    if cfg.burst > 1 {
      BurstPasses(cfg, key, b, SECOND - 1, cfg.burst - 1);
      c := Spent(Found(b, cfg, SECOND - 1), SECOND - 1, cfg.burst - 1);
    } else {
      c := b;
    }
  }

  /** The refill of the first second passes at its end. */
  lemma FirstRefill(cfg: Config, key: LimitKey, b: Bucket) returns (c: Bucket)
    requires cfg.burst <= USIZE_MAX && cfg.refillPerSec <= cfg.burst && cfg.ttl >= SECOND
    requires b.tokens == 0 && b.suppressed == 0 && b.lastRefill == 0 && 0 <= b.lastSeen < SECOND
    ensures Passes(cfg, SlotFor(cfg, key), Solo(cfg, key, b), Burst(SECOND, key, cfg.refillPerSec), cfg.refillPerSec,
                   Solo(cfg, key, c))
    ensures c.lastSeen <= SECOND
  {
    if cfg.refillPerSec > 0 {
      assert Found(b, cfg, SECOND).tokens == cfg.refillPerSec;
      BurstPasses(cfg, key, b, SECOND, cfg.refillPerSec);
      c := Spent(Found(b, cfg, SECOND), SECOND, cfg.refillPerSec);
    } else {
      c := b;
    }
  }

  /** A bucket pruned for idleness lets a full burst through. */
  lemma FreshBurst(cfg: Config, key: LimitKey, b: Bucket, now: int) returns (c: Bucket)
    requires cfg.burst > 0 && b.lastSeen + cfg.ttl < now
    ensures Passes(cfg, SlotFor(cfg, key), Solo(cfg, key, b), Burst(now, key, cfg.burst), cfg.burst, Solo(cfg, key, c))
    ensures c.lastSeen == now
  {
    BurstPasses(cfg, key, b, now, cfg.burst);
    c := Spent(Found(b, cfg, now), now, cfg.burst);
  }

  lemma FourParts(cfg: Config, slot: Slot, b0: Buckets, b1: Buckets, b2: Buckets, b3: Buckets, b4: Buckets,
                  w: seq<Arrival>, x: seq<Arrival>, y: seq<Arrival>, z: seq<Arrival>, n: nat, r: nat)
    requires n > 0 && Passes(cfg, slot, b0, w, n - 1, b1) && Passes(cfg, slot, b1, x, r, b2)
    requires Passes(cfg, slot, b2, y, n, b3) && Passes(cfg, slot, b3, z, n, b4)
    ensures Writes(b0, cfg, w + x + y + z, slot) == 3 * n - 1 + r
  {
    PassesConcat(cfg, slot, b0, w, n - 1, b1, x, r, b2);
    PassesConcat(cfg, slot, b0, w + x, n - 1 + r, b2, y, n, b3);
    PassesConcat(cfg, slot, b0, w + x + y, n - 1 + r + n, b3, z, n, b4);
  }

  lemma ExcessWrites(cfg: Config, key: LimitKey)
    requires 0 < cfg.burst <= USIZE_MAX && cfg.refillPerSec <= cfg.burst && cfg.ttl >= SECOND
    ensures Writes(After(Empty, cfg, [Arrival(0, key)]), cfg, Excess(cfg, key), SlotFor(cfg, key))
         == 3 * cfg.burst - 1 + cfg.refillPerSec
  {
    var b := Bucket(cfg.burst - 1, 0, 0, 0, Some(0));
    FirstEvent(cfg, key, b);
    var b1 := RestOfBurst(cfg, key, b);
    var b2 := FirstRefill(cfg, key, b1);
    var b3 := FreshBurst(cfg, key, b2, SECOND + Pause(cfg));
    var b4 := FreshBurst(cfg, key, b3, ExcessEnd(cfg));
    FourParts(cfg, SlotFor(cfg, key), Solo(cfg, key, b), Solo(cfg, key, b1), Solo(cfg, key, b2), Solo(cfg, key, b3),
              Solo(cfg, key, b4), Burst(SECOND - 1, key, cfg.burst - 1), Burst(SECOND, key, cfg.refillPerSec),
              Burst(SECOND + Pause(cfg), key, cfg.burst), Burst(ExcessEnd(cfg), key, cfg.burst),
              cfg.burst, cfg.refillPerSec);
  }

  lemma ExcessBound(cfg: Config)
    requires Accepted(cfg)
    ensures WindowBound(cfg, SECOND - 1, ExcessEnd(cfg))
         == cfg.burst + 2 * (WholeSeconds(cfg.ttl) * cfg.refillPerSec) + cfg.refillPerSec
  {
    var t := WholeSeconds(cfg.ttl);
    assert Since(ExcessEnd(cfg), SECOND - 1) == 2 * t * SECOND + 3;
    assert WholeSeconds(Since(ExcessEnd(cfg), SECOND - 1)) == 2 * t;
    assert cfg.refillPerSec * (2 * t + 1) == 2 * (t * cfg.refillPerSec) + cfg.refillPerSec;
  }

  /** Every configuration in which an idle bucket may be pruned before it has refilled exceeds the
      bound, by this run. */
  lemma ExcessExceeds(cfg: Config, key: LimitKey)
    requires Accepted(cfg) && WholeSeconds(cfg.ttl) * cfg.refillPerSec < cfg.burst
    ensures Writes(After(Empty, cfg, [Arrival(0, key)]), cfg, Excess(cfg, key), SlotFor(cfg, key))
          > WindowBound(cfg, SECOND - 1, ExcessEnd(cfg))
    ensures !WindowHolds(cfg, [Arrival(0, key)], Excess(cfg, key), 0, SECOND - 1, ExcessEnd(cfg), SlotFor(cfg, key))
  {
    assert cfg.refillPerSec <= WholeSeconds(cfg.ttl) * cfg.refillPerSec;
    ExcessWrites(cfg, key);
    ExcessBound(cfg);
    ExcessMonotone(cfg, key);
  }

  /** The rate holds in every window of every run if and only if the time to live, in seconds, times
      the refill per second is at least the burst. */
  lemma RateHoldsIff(cfg: Config)
    requires Accepted(cfg)
    ensures RateHolds(cfg) <==> WholeSeconds(cfg.ttl) * cfg.refillPerSec >= cfg.burst
  {
    if WholeSeconds(cfg.ttl) * cfg.refillPerSec >= cfg.burst {
      Sufficient(cfg);
    } else {
      ExcessExceeds(cfg, LimitKey("", "", ""));
    }
  }

  /** A configuration that is accepted and does not keep the rate. */
  lemma AcceptedConfigExceeds()
    ensures var cfg := Config(100, 1, 4096, 60 * SECOND, 60 * SECOND); Accepted(cfg) && !RateHolds(cfg)
  {
    RateHoldsIff(Config(100, 1, 4096, 60 * SECOND, 60 * SECOND));
  }
}
