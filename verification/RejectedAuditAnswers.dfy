/** What the limiter for rejection audits answers to each check of a run, in terms of the run: when
    a check is written, when it is suppressed, and how many events a write reports. */
module RejectedAuditAnswers {
  import opened RejectedAuditLimiter
  import opened Outcomes

  /** The time since an instant is the gap between the two, and nothing if the clock runs back. */
  lemma SinceIsGap(a: int, b: int)
    ensures Since(a, b) - Since(b, a) == a - b && (Since(a, b) == 0 || Since(b, a) == 0)
  {}

  /** The checks that the bucket at `slot` answers between the `j`-th check and the `n`-th. */
  function ChecksBetween(cfg: Config, run: seq<Arrival>, slot: Slot, j: nat, n: nat): nat
    requires n <= |run|
  {
    if n <= j + 1 then 0
    else ChecksBetween(cfg, run, slot, j, n - 1) + (if Answer(cfg, run, n - 1).0 == slot then 1 else 0)
  }

  /** The bucket at `slot` after the first `n` checks. */
  function BucketAt(cfg: Config, run: seq<Arrival>, slot: Slot, n: nat): Option<Bucket>
    requires n <= |run|
  {
    At(After(Empty, cfg, run[..n]), slot)
  }

  lemma StepOfRun(cfg: Config, run: seq<Arrival>, n: nat)
    requires n < |run|
    ensures After(Empty, cfg, run[..n + 1]) == Check(After(Empty, cfg, run[..n]), cfg, run[n].now, run[n].key).0
  {
    assert run[..n + 1][..n] == run[..n];
    AfterLast(Empty, cfg, run[..n + 1]);
  }

  /** A check of another bucket keeps or prunes this one; a suppressing check finds the bucket and
      counts the event; a write leaves nothing suppressed. */
  lemma CheckCounts(bs: Buckets, cfg: Config, now: int, key: LimitKey, slot: Slot)
    requires cfg.burst > 0 && At(Check(bs, cfg, now, key).0, slot).Some?
    ensures var (bs', at, d) := Check(bs, cfg, now, key);
            if at == slot && d.Write? then At(bs', slot).value.suppressed == 0
            else
              && At(bs, slot).Some?
              && At(bs', slot).value.suppressed
                 == (if at == slot then Min(At(bs, slot).value.suppressed + 1, U64_MAX)
                     else At(bs, slot).value.suppressed)
  {
    var kept := Prune(bs, cfg, now);
    assert At(kept, slot).Some? ==> At(kept, slot) == At(bs, slot);
  }

  lemma CountStep(cfg: Config, run: seq<Arrival>, slot: Slot, n: nat)
    requires cfg.burst > 0 && n < |run| && BucketAt(cfg, run, slot, n + 1).Some?
    ensures var b, b' := BucketAt(cfg, run, slot, n), BucketAt(cfg, run, slot, n + 1).value;
            if Answer(cfg, run, n).0 == slot && Answer(cfg, run, n).1.Write? then b'.suppressed == 0
            else
              b.Some? && b'.suppressed == (if Answer(cfg, run, n).0 == slot then Min(b.value.suppressed + 1, U64_MAX)
                                           else b.value.suppressed)
  {
    StepOfRun(cfg, run, n);
    CheckCounts(After(Empty, cfg, run[..n]), cfg, run[n].now, run[n].key, slot);
  }

  lemma QuietLast(cfg: Config, run: seq<Arrival>, slot: Slot, j: nat, n: nat)
    requires j < n < |run| && QuietBetween(cfg, run, slot, j, n + 1)
    ensures QuietBetween(cfg, run, slot, j, n)
    ensures Answer(cfg, run, n).0 == slot ==> Answer(cfg, run, n).1.Suppress?
  {}

  /** A bucket's count of suppressed events is the number of checks it answered since its last
      write, as far as 64 bits go. */
  lemma {:induction false} SuppressedSince(cfg: Config, run: seq<Arrival>, slot: Slot, j: nat, n: nat)
    requires cfg.burst > 0 && j < n <= |run| && BucketAt(cfg, run, slot, n).Some?
    requires Answer(cfg, run, j).0 == slot && Answer(cfg, run, j).1.Write? && QuietBetween(cfg, run, slot, j, n)
    ensures BucketAt(cfg, run, slot, n).value.suppressed == Min(ChecksBetween(cfg, run, slot, j, n), U64_MAX)
    decreases n
  {
    CountStep(cfg, run, slot, n - 1);
    if j < n - 1 {
      QuietLast(cfg, run, slot, j, n - 1);
      SuppressedSince(cfg, run, slot, j, n - 1);
    }
  }

  /** The bucket that answers the `i`-th check, unless it is made or made anew for it. */
  function Found(cfg: Config, run: seq<Arrival>, i: nat): Option<Bucket>
    requires i < |run|
  {
    At(Prune(After(Empty, cfg, run[..i]), cfg, run[i].now), Answer(cfg, run, i).0)
  }

  /** The tokens a bucket has when it is looked at. */
  function TokensAt(b: Bucket, cfg: Config, now: int): nat {
    var elapsed := WholeSeconds(Since(now, b.lastRefill));
    if elapsed == 0 then b.tokens else Min(b.tokens + elapsed * cfg.refillPerSec, cfg.burst)
  }

  /** A check of a new bucket is written and reports nothing. */
  lemma NewBucketWrites(cfg: Config, run: seq<Arrival>, i: nat)
    requires cfg.burst > 0 && i < |run| && Found(cfg, run, i).None?
    ensures Answer(cfg, run, i).1 == Write(0)
  {}

  /** Any other check is suppressed exactly if the bucket has no token, or has suppressed events
      since its previous write less than the aggregate interval ago; a write reports them all. */
  lemma SuppressedIff(cfg: Config, run: seq<Arrival>, i: nat) returns (j: nat)
    requires 0 < cfg.burst <= USIZE_MAX && i < |run| && Found(cfg, run, i).Some?
    ensures j < i && Answer(cfg, run, j).0 == Answer(cfg, run, i).0 && Answer(cfg, run, j).1.Write?
    ensures QuietBetween(cfg, run, Answer(cfg, run, i).0, j, i)
    ensures var pending := Min(ChecksBetween(cfg, run, Answer(cfg, run, i).0, j, i), U64_MAX);
            var tokens := TokensAt(Found(cfg, run, i).value, cfg, run[i].now);
            var tooSoon := pending > 0 && Since(run[i].now, run[j].now) < cfg.aggregateInterval;
            Answer(cfg, run, i).1 == if tokens == 0 || tooSoon then Suppress else Write(pending)
  {
    var bs, slot := After(Empty, cfg, run[..i]), Answer(cfg, run, i).0;
    AlwaysBounded(Empty, cfg, run[..i]);
    assert At(bs, slot) == Found(cfg, run, i);
    j := LastWriteHappened(cfg, run[..i], slot);
    AnswerInPrefix(cfg, run, i, j);
    QuietInPrefix(cfg, run, slot, j, i);
    SuppressedSince(cfg, run, slot, j, i);
    RefillExact(Found(cfg, run, i).value, cfg, run[i].now);
  }

  // ---------- Which buckets there are ----------

  /** The bucket at `slot` answers no check between the `m`-th and the `n`-th. */
  ghost predicate UnseenBetween(cfg: Config, run: seq<Arrival>, slot: Slot, m: nat, n: nat)
    requires n <= |run|
  {
    forall k :: m < k < n ==> Answer(cfg, run, k).0 != slot
  }

  lemma CheckSees(bs: Buckets, cfg: Config, now: int, key: LimitKey, slot: Slot)
    ensures var (bs', at, _) := Check(bs, cfg, now, key);
            if at == slot then At(bs', slot).Some? && At(bs', slot).value.lastSeen == now
            else At(bs', slot) == if At(bs, slot).Some? && Since(now, At(bs, slot).value.lastSeen) > cfg.ttl
                                  then None else At(bs, slot)
  {}

  lemma SeenStep(cfg: Config, run: seq<Arrival>, slot: Slot, n: nat)
    requires n < |run|
    ensures var b, b' := BucketAt(cfg, run, slot, n), BucketAt(cfg, run, slot, n + 1);
            if Answer(cfg, run, n).0 == slot then b'.Some? && b'.value.lastSeen == run[n].now
            else b' == if b.Some? && Since(run[n].now, b.value.lastSeen) > cfg.ttl then None else b
  {
    StepOfRun(cfg, run, n);
    CheckSees(After(Empty, cfg, run[..n]), cfg, run[n].now, run[n].key, slot);
  }

  predicate Forward(run: seq<Arrival>, n: nat)
    requires n <= |run|
  {
    forall i, j :: 0 <= i <= j < n ==> run[i].now <= run[j].now
  }

  /** A bucket last seen at `seen` that each later check drops once it is stale. */
  lemma {:induction false} StaysWhileSeen(b: nat -> Option<Bucket>, now: nat -> int, ttl: nat, seen: int,
                                          m: nat, n: nat)
    requires m <= n && b(m).Some? && b(m).value.lastSeen == seen
    requires forall k :: m <= k < n ==>
               b(k + 1) == if b(k).Some? && Since(now(k), b(k).value.lastSeen) > ttl then None else b(k)
    requires forall k, l :: m <= k <= l < n ==> seen <= now(k) <= now(l)
    ensures b(n).Some? <==> (n > m ==> now(n - 1) - seen <= ttl)
    ensures b(n).Some? ==> b(n).value.lastSeen == seen
    decreases n
  {
    if m < n { StaysWhileSeen(b, now, ttl, seen, m, n - 1); }
  }

  /** With a clock that does not run back, a bucket exists exactly while its last check is at most
      the time to live ago. */
  lemma ExistsWhileSeen(cfg: Config, run: seq<Arrival>, slot: Slot, m: nat, n: nat)
    requires m < n <= |run| && Answer(cfg, run, m).0 == slot && UnseenBetween(cfg, run, slot, m, n)
    requires Forward(run, n)
    ensures var b := BucketAt(cfg, run, slot, n);
            && (b.Some? <==> run[n - 1].now - run[m].now <= cfg.ttl)
            && (b.Some? ==> b.value.lastSeen == run[m].now)
  {
    var b := (k: nat) => if k <= |run| then BucketAt(cfg, run, slot, k) else None;
    var now := (k: nat) => if k < |run| then run[k].now else 0;
    SeenStep(cfg, run, slot, m);
    forall k: nat | m + 1 <= k < n
      ensures b(k + 1) == if b(k).Some? && Since(now(k), b(k).value.lastSeen) > cfg.ttl then None else b(k)
    {
      SeenStep(cfg, run, slot, k);
    }
    StaysWhileSeen(b, now, cfg.ttl, run[m].now, m + 1, n);
  }

  /** A bucket that has answered no check does not exist. */
  lemma {:induction false} UnseenIsAbsent(cfg: Config, run: seq<Arrival>, slot: Slot, n: nat)
    requires n <= |run| && forall k :: 0 <= k < n ==> Answer(cfg, run, k).0 != slot
    ensures BucketAt(cfg, run, slot, n).None?
    decreases n
  {
    if n > 0 {
      UnseenIsAbsent(cfg, run, slot, n - 1);
      SeenStep(cfg, run, slot, n - 1);
    }
  }

  /** A check finds its bucket exactly if the bucket's previous check is at most the time to live ago. */
  lemma FoundIff(cfg: Config, run: seq<Arrival>, i: nat, m: nat)
    requires m < i < |run| && Answer(cfg, run, m).0 == Answer(cfg, run, i).0
    requires UnseenBetween(cfg, run, Answer(cfg, run, i).0, m, i)
    requires Forward(run, i + 1)
    ensures Found(cfg, run, i).Some? <==> run[i].now - run[m].now <= cfg.ttl
  {
    ExistsWhileSeen(cfg, run, Answer(cfg, run, i).0, m, i);
  }

  /** The overflow bucket answers exactly the checks of keys without a bucket while all are taken. */
  lemma OverflowIff(cfg: Config, run: seq<Arrival>, i: nat)
    requires cfg.burst > 0 && i < |run|
    ensures var own := Prune(After(Empty, cfg, run[..i]), cfg, run[i].now).own;
            && Answer(cfg, run, i).0
               == (if run[i].key !in own && |own| == cfg.maxBuckets then Overflow else Own(run[i].key))
  {
    AlwaysBounded(Empty, cfg, run[..i]);
    PruneFewer(After(Empty, cfg, run[..i]), cfg, run[i].now);
  }
}
