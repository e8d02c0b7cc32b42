/** Rate limiting of audit events for rejected peers: one token bucket per (peer, resource,
    error), a shared overflow bucket, suppression counts, and pruning of idle buckets.
    Times are nanoseconds on a monotonic clock. */
module RejectedAuditLimiter {
  import opened Maps
  import opened Outcomes

  const USIZE_MAX: nat := 0xFFFF_FFFF_FFFF_FFFF
  const U64_MAX: nat := 0xFFFF_FFFF_FFFF_FFFF
  const SECOND: nat := 1_000_000_000

  datatype LimitKey = LimitKey(remoteEndpointId: string, resource: string, errorCode: string)

  datatype Config = Config(burst: nat, refillPerSec: nat, maxBuckets: nat, ttl: nat, aggregateInterval: nat)

  datatype Bucket = Bucket(tokens: nat, suppressed: nat, lastRefill: int, lastSeen: int, lastWrite: Option<int>)

  datatype Decision = Write(suppressedCount: nat) | Suppress

  /** `now.saturating_duration_since(past)` */
  function Since(now: int, past: int): nat {
    if now >= past then now - past else 0
  }

  function WholeSeconds(d: nat): nat {
    d / SECOND
  }

  // ---------- One bucket ----------

  function NewBucket(cfg: Config, now: int): Bucket {
    Bucket(cfg.burst, 0, now, now, None)
  }

  function Refill(b: Bucket, cfg: Config, now: int): Bucket {
    var elapsed := WholeSeconds(Since(now, b.lastRefill));
    if elapsed == 0 then b
    else
      var refill := Min(elapsed * cfg.refillPerSec, USIZE_MAX);
      b.(tokens := Min(Min(b.tokens + refill, USIZE_MAX), cfg.burst), lastRefill := now)
  }

  function CheckBucket(b: Bucket, cfg: Config, now: int): (Bucket, Decision) {
    var b := Refill(b, cfg, now).(lastSeen := now);
    var tooSoon := b.suppressed > 0 && b.lastWrite.Some? && Since(now, b.lastWrite.value) < cfg.aggregateInterval;
    if b.tokens > 0 && !tooSoon then
      (b.(tokens := b.tokens - 1, suppressed := 0, lastWrite := Some(now)), Write(b.suppressed))
    else
      (b.(suppressed := Min(b.suppressed + 1, U64_MAX)), Suppress)
  }

  // ---------- All buckets ----------

  datatype Buckets = Buckets(own: map<LimitKey, Bucket>, overflow: Option<Bucket>)

  /** Which bucket answers a check. */
  datatype Slot = Own(key: LimitKey) | Overflow

  predicate Stale(b: Bucket, cfg: Config, now: int) {
    Since(now, b.lastSeen) > cfg.ttl
  }

  function Prune(bs: Buckets, cfg: Config, now: int): Buckets {
    Buckets(map k | k in bs.own && !Stale(bs.own[k], cfg, now) :: bs.own[k],
            if bs.overflow.Some? && Stale(bs.overflow.value, cfg, now) then None else bs.overflow)
  }

  function Route(bs: Buckets, cfg: Config, key: LimitKey): Slot {
    if key in bs.own || |bs.own| < cfg.maxBuckets then Own(key) else Overflow
  }

  function At(bs: Buckets, slot: Slot): Option<Bucket> {
    match slot
    case Own(key) => if key in bs.own then Some(bs.own[key]) else None
    case Overflow => bs.overflow
  }

  function Put(bs: Buckets, slot: Slot, b: Bucket): Buckets {
    match slot
    case Own(key) => bs.(own := bs.own[key := b])
    case Overflow => bs.(overflow := Some(b))
  }

  function GetOrNew(bs: Buckets, slot: Slot, cfg: Config, now: int): Bucket {
    match At(bs, slot)
    case Some(b) => b
    case None => NewBucket(cfg, now)
  }

  function Check(bs: Buckets, cfg: Config, now: int, key: LimitKey): (Buckets, Slot, Decision) {
    var kept := Prune(bs, cfg, now);
    var slot := Route(kept, cfg, key);
    var (b, decision) := CheckBucket(GetOrNew(kept, slot, cfg, now), cfg, now);
    (Put(kept, slot, b), slot, decision)
  }

  class Limiter {
    const cfg: Config
    var buckets: map<LimitKey, Bucket>
    var overflow: Option<Bucket>

    function Contents(): Buckets
      reads this
    {
      Buckets(buckets, overflow)
    }

    constructor (cfg: Config)
      ensures Contents() == Buckets(map[], None) && this.cfg == cfg
    {
      this.cfg, buckets, overflow := cfg, map[], None;
    }

    method PruneStale(now: int)
      modifies this
      ensures Contents() == Prune(old(Contents()), cfg, now)
    {
      buckets := map k | k in buckets && !Stale(buckets[k], cfg, now) :: buckets[k];
      if overflow.Some? && Stale(overflow.value, cfg, now) { overflow := None; }
    }

    method CheckAt(now: int, key: LimitKey) returns (decision: Decision)
      modifies this
      ensures Contents() == Check(old(Contents()), cfg, now, key).0
      ensures decision == Check(old(Contents()), cfg, now, key).2
    {
      PruneStale(now);
      var b;
      if key in buckets || |buckets| < cfg.maxBuckets {
        b := if key in buckets then buckets[key] else NewBucket(cfg, now);
        b, decision := CheckBucket(b, cfg, now).0, CheckBucket(b, cfg, now).1;
        buckets := buckets[key := b];
      } else {
        b := if overflow.Some? then overflow.value else NewBucket(cfg, now);
        b, decision := CheckBucket(b, cfg, now).0, CheckBucket(b, cfg, now).1;
        overflow := Some(b);
      }
    }
  }

  // ---------- Runs ----------

  datatype Arrival = Arrival(now: int, key: LimitKey)

  /** Times do not run back and stay within `[from, to]`. */
  predicate Monotone(run: seq<Arrival>, from: int, to: int)
  {
    if run == [] then from <= to
    else from <= run[0].now <= to && Monotone(run[1..], run[0].now, to)
  }

  function After(bs: Buckets, cfg: Config, run: seq<Arrival>): Buckets
    decreases |run|
  {
    if run == [] then bs else After(Check(bs, cfg, run[0].now, run[0].key).0, cfg, run[1..])
  }

  function Wrote(slot: Slot, at: Slot, decision: Decision): nat {
    if at == slot && decision.Write? then 1 else 0
  }

  /** How many events the bucket at `slot` lets through. */
  function Writes(bs: Buckets, cfg: Config, run: seq<Arrival>, slot: Slot): nat
    decreases |run|
  {
    if run == [] then 0
    else
      var (bs', at, decision) := Check(bs, cfg, run[0].now, run[0].key);
      Wrote(slot, at, decision) + Writes(bs', cfg, run[1..], slot)
  }

  /** Some check of the run finds the slot's bucket idle for too long and prunes it. */
  predicate EverPruned(bs: Buckets, cfg: Config, run: seq<Arrival>, slot: Slot)
    decreases |run|
  {
    run != [] &&
    (At(bs, slot) != At(Prune(bs, cfg, run[0].now), slot)
     || EverPruned(Check(bs, cfg, run[0].now, run[0].key).0, cfg, run[1..], slot))
  }

  // ---------- The rate ----------

  ghost predicate BucketSane(b: Bucket, cfg: Config, now: int) {
    b.tokens <= cfg.burst && b.lastRefill <= b.lastSeen <= now
  }

  ghost predicate Sane(bs: Buckets, cfg: Config, now: int) {
    forall slot: Slot :: At(bs, slot).Some? ==> BucketSane(At(bs, slot).value, cfg, now)
  }

  /** The source's saturating arithmetic never shows: a refill is the plain capped sum. */
  lemma RefillExact(b: Bucket, cfg: Config, now: int)
    requires cfg.burst <= USIZE_MAX
    ensures var elapsed := WholeSeconds(Since(now, b.lastRefill));
            && (elapsed == 0 ==> Refill(b, cfg, now) == b)
            && (elapsed > 0 ==> Refill(b, cfg, now).tokens == Min(b.tokens + elapsed * cfg.refillPerSec, cfg.burst)
                                && Refill(b, cfg, now).lastRefill == now)
  {
    assert WholeSeconds(Since(now, b.lastRefill)) * cfg.refillPerSec >= 0;
  }

  /** Seconds spent in two adjoining stretches, each rounded down, fit in the whole. */
  lemma WholeSecondsAdd(a: int, b: int, c: int)
    requires a <= b <= c
    ensures WholeSeconds(Since(b, a)) + WholeSeconds(Since(c, b)) <= WholeSeconds(Since(c, a))
    ensures WholeSeconds(Since(c, b)) <= WholeSeconds(Since(c, a))
  {
  }

  lemma ScaleSum(x: nat, y: nat, z: nat, r: nat)
    requires x + y <= z
    ensures x * r + y * r <= z * r
  {
    assert (x + y) * r <= z * r;
  }

  function Earned(cfg: Config, from: int, to: int): nat {
    WholeSeconds(Since(to, from)) * cfg.refillPerSec
  }

  lemma EarnedAdd(cfg: Config, a: int, b: int, c: int)
    requires a <= b <= c
    ensures Earned(cfg, a, b) + Earned(cfg, b, c) <= Earned(cfg, a, c)
  {
    WholeSecondsAdd(a, b, c);
    ScaleSum(WholeSeconds(Since(b, a)), WholeSeconds(Since(c, b)), WholeSeconds(Since(c, a)), cfg.refillPerSec);
  }

  /** The most a bucket can still let through by `to`. */
  function Credit(b: Bucket, cfg: Config, to: int): nat {
    b.tokens + Earned(cfg, b.lastRefill, to)
  }

  function SlotCredit(bs: Buckets, slot: Slot, cfg: Config, now: int, to: int): nat {
    match At(bs, slot)
    case Some(b) => Credit(b, cfg, to)
    case None => cfg.burst + Earned(cfg, now, to)
  }

  lemma CheckSpendsCredit(b: Bucket, cfg: Config, now: int, to: int)
    requires cfg.burst <= USIZE_MAX && b.lastRefill <= now <= to
    ensures var (b', d) := CheckBucket(b, cfg, now);
            (if d.Write? then 1 else 0) + Credit(b', cfg, to) <= Credit(b, cfg, to)
  {
    RefillExact(b, cfg, now);
    EarnedAdd(cfg, b.lastRefill, now, to);
  }

  lemma CheckSane(b: Bucket, cfg: Config, now: int)
    requires b.tokens <= cfg.burst && b.lastRefill <= now
    ensures BucketSane(CheckBucket(b, cfg, now).0, cfg, now)
  {
  }

  lemma CheckKeepsSane(bs: Buckets, cfg: Config, clock: int, now: int, key: LimitKey)
    requires Sane(bs, cfg, clock) && clock <= now
    ensures Sane(Check(bs, cfg, now, key).0, cfg, now)
  {
    var kept := Prune(bs, cfg, now);
    var (bs', at, _) := Check(bs, cfg, now, key);
    var b := GetOrNew(kept, at, cfg, now);
    assert At(kept, at).Some? ==> At(bs, at) == At(kept, at);
    CheckSane(b, cfg, now);
    forall slot: Slot | At(bs', slot).Some? ensures BucketSane(At(bs', slot).value, cfg, now) {
      if slot != at { assert At(bs', slot) == At(kept, slot) == At(bs, slot); }
    }
  }

  /** Pruning is harmless to the rate: no bucket was pruned, or an idle bucket would have
      refilled to the brim by the time it may be pruned. */
  ghost predicate PruningHarmless(bs: Buckets, cfg: Config, run: seq<Arrival>, slot: Slot) {
    !EverPruned(bs, cfg, run, slot) || WholeSeconds(cfg.ttl) * cfg.refillPerSec >= cfg.burst
  }

  lemma PruneKeepsCredit(bs: Buckets, cfg: Config, clock: int, now: int, to: int, slot: Slot)
    requires Sane(bs, cfg, clock) && clock <= now <= to
    requires At(bs, slot) == At(Prune(bs, cfg, now), slot) || WholeSeconds(cfg.ttl) * cfg.refillPerSec >= cfg.burst
    ensures SlotCredit(Prune(bs, cfg, now), slot, cfg, now, to) <= SlotCredit(bs, slot, cfg, clock, to)
  {
    match At(bs, slot)
    case None => EarnedAdd(cfg, clock, now, to);
    case Some(b) =>
      if Stale(b, cfg, now) {
        EarnedAdd(cfg, b.lastRefill, now, to);
        ScaleSum(WholeSeconds(cfg.ttl), 0, WholeSeconds(Since(now, b.lastRefill)), cfg.refillPerSec);
      }
  }

  lemma CheckKeepsCredit(bs: Buckets, cfg: Config, clock: int, now: int, to: int, key: LimitKey, slot: Slot)
    requires Sane(bs, cfg, clock) && clock <= now <= to && cfg.burst <= USIZE_MAX
    requires At(bs, slot) == At(Prune(bs, cfg, now), slot) || WholeSeconds(cfg.ttl) * cfg.refillPerSec >= cfg.burst
    ensures var (bs', at, d) := Check(bs, cfg, now, key);
            Wrote(slot, at, d) + SlotCredit(bs', slot, cfg, now, to) <= SlotCredit(bs, slot, cfg, clock, to)
  {
    var kept := Prune(bs, cfg, now);
    var (bs', at, d) := Check(bs, cfg, now, key);
    PruneKeepsCredit(bs, cfg, clock, now, to, slot);
    assert At(kept, at).Some? ==> At(bs, at) == At(kept, at);
    if at == slot {
      CheckSpendsCredit(GetOrNew(kept, at, cfg, now), cfg, now, to);
    } else {
      assert At(bs', slot) == At(kept, slot);
    }
  }

  lemma {:induction false} WritesWithinCredit(bs: Buckets, cfg: Config, clock: int, run: seq<Arrival>, to: int,
                                              slot: Slot)
    requires Sane(bs, cfg, clock) && Monotone(run, clock, to) && cfg.burst <= USIZE_MAX
    requires PruningHarmless(bs, cfg, run, slot)
    ensures Writes(bs, cfg, run, slot) <= SlotCredit(bs, slot, cfg, clock, to)
    decreases |run|
  {
    if run != [] {
      var now, key := run[0].now, run[0].key;
      CheckKeepsCredit(bs, cfg, clock, now, to, key, slot);
      CheckKeepsSane(bs, cfg, clock, now, key);
      WritesWithinCredit(Check(bs, cfg, now, key).0, cfg, now, run[1..], to, slot);
    }
  }

  function WindowBound(cfg: Config, from: int, to: int): nat {
    cfg.burst + cfg.refillPerSec * (WholeSeconds(Since(to, from)) + 1)
  }

  /** After the first check in a window the bucket's credit is within the window's bound. */
  lemma FirstTouch(b: Bucket, cfg: Config, from: int, now: int, to: int)
    requires cfg.burst <= USIZE_MAX && b.tokens <= cfg.burst && b.lastRefill <= now && from <= now <= to
    ensures var (b', d) := CheckBucket(b, cfg, now);
            (if d.Write? then 1 else 0) + Credit(b', cfg, to) <= WindowBound(cfg, from, to)
  {
    RefillExact(b, cfg, now);
    EarnedSinceRefill(cfg, Refill(b, cfg, now).lastRefill, from, now, to);
    CheckTakesOne(b, cfg, now, to);
  }

  lemma EarnedSinceRefill(cfg: Config, lastRefill: int, from: int, now: int, to: int)
    requires lastRefill <= now && WholeSeconds(Since(now, lastRefill)) == 0 && from <= now <= to
    ensures Earned(cfg, lastRefill, to) <= cfg.refillPerSec * (WholeSeconds(Since(to, from)) + 1)
  {
    assert WholeSeconds(Since(to, lastRefill)) <= WholeSeconds(Since(to, from)) + 1;
    ScaleSum(WholeSeconds(Since(to, lastRefill)), 0, WholeSeconds(Since(to, from)) + 1, cfg.refillPerSec);
  }

  lemma CheckTakesOne(b: Bucket, cfg: Config, now: int, to: int)
    ensures var (b', d) := CheckBucket(b, cfg, now);
            (if d.Write? then 1 else 0) + Credit(b', cfg, to) == Credit(Refill(b, cfg, now), cfg, to)
  {}

  lemma BoundCovers(cfg: Config, from: int, now: int, to: int)
    requires from <= now <= to
    ensures cfg.burst + Earned(cfg, now, to) <= WindowBound(cfg, from, to)
    ensures WindowBound(cfg, now, to) <= WindowBound(cfg, from, to)
  {
    WholeSecondsAdd(from, now, to);
    ScaleSum(WholeSeconds(Since(to, now)), 0, WholeSeconds(Since(to, from)), cfg.refillPerSec);
  }

  /** Over any window, whatever other keys are checked in between, a bucket lets through at
      most its burst plus its refill for every whole second and one more. */
  lemma {:induction false} RateLimit(bs: Buckets, cfg: Config, from: int, run: seq<Arrival>, to: int, slot: Slot)
    requires Sane(bs, cfg, from) && Monotone(run, from, to) && cfg.burst <= USIZE_MAX
    requires PruningHarmless(bs, cfg, run, slot)
    ensures Writes(bs, cfg, run, slot) <= WindowBound(cfg, from, to)
    decreases |run|
  {
    if At(bs, slot) == None {
      WritesWithinCredit(bs, cfg, from, run, to, slot);
      BoundCovers(cfg, from, from, to);
    } else if run != [] {
      var now, key := run[0].now, run[0].key;
      var kept := Prune(bs, cfg, now);
      var (bs', at, d) := Check(bs, cfg, now, key);
      CheckKeepsSane(bs, cfg, from, now, key);
      BoundCovers(cfg, from, now, to);
      if at == slot {
        assert At(kept, at).Some? ==> At(bs, at) == At(kept, at);
        WritesWithinCredit(bs', cfg, now, run[1..], to, slot);
        FirstTouch(GetOrNew(kept, at, cfg, now), cfg, from, now, to);
      } else {
        RateLimit(bs', cfg, now, run[1..], to, slot);
      }
    } else {
      assert cfg.refillPerSec * (WholeSeconds(Since(to, from)) + 1) >= 0;
    }
  }

  // ---------- Conservation of suppressed events ----------

  function Counts(own: map<LimitKey, Bucket>): map<LimitKey, nat> {
    map k | k in own :: own[k].suppressed
  }

  function OverflowCount(overflow: Option<Bucket>): nat {
    if overflow.Some? then overflow.value.suppressed else 0
  }

  /** Suppressed events not yet reported by any write. */
  ghost function Pending(bs: Buckets): nat {
    Sum(Counts(bs.own)) + OverflowCount(bs.overflow)
  }

  /** Suppressed events whose bucket a check at `now` prunes away. */
  ghost function Forgotten(bs: Buckets, cfg: Config, now: int): nat {
    Sum(Counts(map k | k in bs.own && Stale(bs.own[k], cfg, now) :: bs.own[k]))
    + (if bs.overflow.Some? && Stale(bs.overflow.value, cfg, now) then bs.overflow.value.suppressed else 0)
  }

  lemma PruneSplits(bs: Buckets, cfg: Config, now: int)
    ensures Pending(bs) == Pending(Prune(bs, cfg, now)) + Forgotten(bs, cfg, now)
  {
    var counts := Counts(bs.own);
    var stale := set k | k in bs.own && Stale(bs.own[k], cfg, now);
    SumSplit(counts, stale);
    assert (map k | k in counts && k in stale :: counts[k])
           == Counts(map k | k in bs.own && Stale(bs.own[k], cfg, now) :: bs.own[k]);
    assert counts - stale == Counts(Prune(bs, cfg, now).own);
  }

  lemma PutPending(bs: Buckets, slot: Slot, b: Bucket)
    ensures Pending(Put(bs, slot, b))
         == Pending(bs) + b.suppressed - (if At(bs, slot).Some? then At(bs, slot).value.suppressed else 0)
  {
    if slot.Own? {
      SumUpdate(Counts(bs.own), slot.key, b.suppressed);
      assert Counts(bs.own[slot.key := b]) == Counts(bs.own)[slot.key := b.suppressed];
    }
  }

  function Reported(d: Decision): nat {
    if d.Write? then d.suppressedCount else 0
  }

  lemma CountBound(bs: Buckets, slot: Slot)
    ensures At(bs, slot).Some? ==> At(bs, slot).value.suppressed <= Pending(bs)
  {
    if slot.Own? && slot.key in bs.own { SumWithout(Counts(bs.own), slot.key); }
  }

  /** One check is written, or joins the pending count; a write reports the whole pending count. */
  lemma CheckConserves(bs: Buckets, cfg: Config, now: int, key: LimitKey)
    requires Pending(bs) < U64_MAX
    ensures var (bs', at, d) := Check(bs, cfg, now, key);
            1 + Pending(bs) == (if d.Write? then 1 else 0) + Reported(d) + Pending(bs') + Forgotten(bs, cfg, now)
  {
    var kept := Prune(bs, cfg, now);
    var (bs', at, d) := Check(bs, cfg, now, key);
    PruneSplits(bs, cfg, now);
    CountBound(kept, at);
    PutPending(kept, at, CheckBucket(GetOrNew(kept, at, cfg, now), cfg, now).0);
  }

  datatype Tally = Tally(written: nat, reported: nat, forgotten: nat)

  ghost function TallyOf(bs: Buckets, cfg: Config, run: seq<Arrival>): Tally
    decreases |run|
  {
    if run == [] then Tally(0, 0, 0)
    else
      var (bs', _, d) := Check(bs, cfg, run[0].now, run[0].key);
      var t := TallyOf(bs', cfg, run[1..]);
      Tally(t.written + (if d.Write? then 1 else 0), t.reported + Reported(d),
            t.forgotten + Forgotten(bs, cfg, run[0].now))
  }

  /** Every check is accounted for: written, reported as suppressed by a later write, still
      pending, or pruned away with its bucket (as long as no 64-bit counter saturates). */
  lemma {:induction false} Conservation(bs: Buckets, cfg: Config, run: seq<Arrival>)
    requires Pending(bs) + |run| <= U64_MAX
    ensures var t := TallyOf(bs, cfg, run);
            |run| + Pending(bs) == t.written + t.reported + t.forgotten + Pending(After(bs, cfg, run))
    decreases |run|
  {
    if run != [] {
      CheckConserves(bs, cfg, run[0].now, run[0].key);
      Conservation(Check(bs, cfg, run[0].now, run[0].key).0, cfg, run[1..]);
    }
  }

  // ---------- Size and spacing ----------

  const Empty := Buckets(map[], None)

  /** At most `maxBuckets` buckets beside the overflow one, each of which has written. */
  ghost predicate Bounded(bs: Buckets, cfg: Config) {
    && |bs.own| <= cfg.maxBuckets
    && forall slot: Slot :: At(bs, slot).Some? ==> At(bs, slot).value.lastWrite.Some?
  }

  lemma PruneFewer(bs: Buckets, cfg: Config, now: int)
    ensures |Prune(bs, cfg, now).own| <= |bs.own|
  {
    SubsetSize(Prune(bs, cfg, now).own.Keys, bs.own.Keys);
  }

  lemma CheckBounded(bs: Buckets, cfg: Config, now: int, key: LimitKey)
    requires Bounded(bs, cfg) && cfg.burst > 0
    ensures Bounded(Check(bs, cfg, now, key).0, cfg)
  {
    var kept := Prune(bs, cfg, now);
    var (bs', at, d) := Check(bs, cfg, now, key);
    PruneFewer(bs, cfg, now);
    if at.Own? { InsertSize(kept.own, key, At(bs', at).value); }
    assert forall slot: Slot :: At(kept, slot).Some? ==> At(kept, slot) == At(bs, slot);
    forall slot: Slot | At(bs', slot).Some? ensures At(bs', slot).value.lastWrite.Some? {
      if slot != at { assert At(bs', slot) == At(kept, slot); }
    }
  }

  lemma {:induction false} AlwaysBounded(bs: Buckets, cfg: Config, run: seq<Arrival>)
    requires Bounded(bs, cfg) && cfg.burst > 0
    ensures Bounded(After(bs, cfg, run), cfg)
    decreases |run|
  {
    if run != [] {
      CheckBounded(bs, cfg, run[0].now, run[0].key);
      AlwaysBounded(Check(bs, cfg, run[0].now, run[0].key).0, cfg, run[1..]);
    }
  }

  /** The answer to the `i`-th check of a run. */
  function Answer(cfg: Config, run: seq<Arrival>, i: nat): (Slot, Decision)
    requires i < |run|
  {
    var (_, at, d) := Check(After(Empty, cfg, run[..i]), cfg, run[i].now, run[i].key);
    (at, d)
  }

  lemma {:induction false} AfterLast(bs: Buckets, cfg: Config, run: seq<Arrival>)
    requires run != []
    ensures var last := run[|run| - 1];
            After(bs, cfg, run) == Check(After(bs, cfg, run[..|run| - 1]), cfg, last.now, last.key).0
    decreases |run|
  {
    if |run| > 1 {
      AfterLast(Check(bs, cfg, run[0].now, run[0].key).0, cfg, run[1..]);
      assert run[1..][..|run| - 2] == run[..|run| - 1][1..];
    }
  }

  /** A bucket's last write is the current one or an earlier one of the same bucket. */
  lemma LastWriteStep(bs: Buckets, cfg: Config, now: int, key: LimitKey, slot: Slot)
    requires At(Check(bs, cfg, now, key).0, slot).Some? && At(Check(bs, cfg, now, key).0, slot).value.lastWrite.Some?
    ensures var (bs', at, d) := Check(bs, cfg, now, key);
            if at == slot && d.Write? then At(bs', slot).value.lastWrite == Some(now)
            else At(bs, slot).Some? && At(bs, slot).value.lastWrite == At(bs', slot).value.lastWrite
  {}

  lemma AnswerInPrefix(cfg: Config, run: seq<Arrival>, n: nat, m: nat)
    requires m < n <= |run|
    ensures Answer(cfg, run[..n], m) == Answer(cfg, run, m)
  {
    assert run[..n][..m] == run[..m];
  }

  /** No write of the bucket at `slot` between the `j`-th check and the `n`-th. */
  ghost predicate QuietBetween(cfg: Config, run: seq<Arrival>, slot: Slot, j: nat, n: nat)
    requires n <= |run|
  {
    forall m :: j < m < n && Answer(cfg, run, m).0 == slot ==> Answer(cfg, run, m).1.Suppress?
  }

  lemma QuietInPrefix(cfg: Config, run: seq<Arrival>, slot: Slot, j: nat, n: nat)
    requires n <= |run| && QuietBetween(cfg, run[..n], slot, j, n)
    ensures QuietBetween(cfg, run, slot, j, n)
  {
    forall m | j < m < n && Answer(cfg, run, m).0 == slot ensures Answer(cfg, run, m).1.Suppress? {
      AnswerInPrefix(cfg, run, n, m);
    }
  }

  /** The last check of a run wrote, or left the bucket's last write alone. */
  lemma LastCheckOfRun(cfg: Config, run: seq<Arrival>, slot: Slot)
    requires run != []
    requires At(After(Empty, cfg, run), slot).Some? && At(After(Empty, cfg, run), slot).value.lastWrite.Some?
    ensures var n, before := |run| - 1, After(Empty, cfg, run[..|run| - 1]);
            var lastWrite := At(After(Empty, cfg, run), slot).value.lastWrite;
            if Answer(cfg, run, n).0 == slot && Answer(cfg, run, n).1.Write? then lastWrite == Some(run[n].now)
            else At(before, slot).Some? && At(before, slot).value.lastWrite == lastWrite
  {
    var last := run[|run| - 1];
    AfterLast(Empty, cfg, run);
    LastWriteStep(After(Empty, cfg, run[..|run| - 1]), cfg, last.now, last.key, slot);
  }

  /** A bucket's `lastWrite` is the time of the last event it let through. */
  lemma {:induction false} LastWriteHappened(cfg: Config, run: seq<Arrival>, slot: Slot) returns (j: nat)
    requires At(After(Empty, cfg, run), slot).Some? && At(After(Empty, cfg, run), slot).value.lastWrite.Some?
    ensures j < |run| && Answer(cfg, run, j).0 == slot && Answer(cfg, run, j).1.Write?
    ensures At(After(Empty, cfg, run), slot).value.lastWrite == Some(run[j].now)
    ensures QuietBetween(cfg, run, slot, j, |run|)
    decreases |run|
  {
    var n := |run| - 1;
    LastCheckOfRun(cfg, run, slot);
    if Answer(cfg, run, n).0 == slot && Answer(cfg, run, n).1.Write? {
      j := n;
    } else {
      j := LastWriteHappened(cfg, run[..n], slot);
      AnswerInPrefix(cfg, run, n, j);
      QuietInPrefix(cfg, run, slot, j, n);
    }
  }

  /** A write that reports suppressed events comes at least the aggregate interval after the
      previous write of the same bucket. */
  lemma ReportsAreSpaced(cfg: Config, run: seq<Arrival>, i: nat) returns (j: nat)
    requires cfg.burst > 0 && i < |run|
    requires Answer(cfg, run, i).1.Write? && Answer(cfg, run, i).1.suppressedCount > 0
    ensures j < i && Answer(cfg, run, j).0 == Answer(cfg, run, i).0 && Answer(cfg, run, j).1.Write?
    ensures QuietBetween(cfg, run, Answer(cfg, run, i).0, j, i)
    ensures Since(run[i].now, run[j].now) >= cfg.aggregateInterval
  {
    var bs, slot := After(Empty, cfg, run[..i]), Answer(cfg, run, i).0;
    AlwaysBounded(Empty, cfg, run[..i]);
    var kept := Prune(bs, cfg, run[i].now);
    assert At(kept, slot).Some? && At(kept, slot) == At(bs, slot);
    j := LastWriteHappened(cfg, run[..i], slot);
    AnswerInPrefix(cfg, run, i, j);
    QuietInPrefix(cfg, run, slot, j, i);
  }
}
