/** Request admission: the freshness window of `validate_issued_at`, the lifetime of
    `nonce_ttl` and the nonce cache, and when together they stop every replay.
    All times are nanoseconds on one timeline. Each request reads the wall clock once
    (for freshness) and the monotonic clock once (inside the cache lock, a little later). */
module ReplayProtection {
  import opened NonceCache
  import opened Maps
  import opened Outcomes

  const U64_MAX: nat := 0xFFFF_FFFF_FFFF_FFFF
  type U64 = x: int | 0 <= x <= U64_MAX
  const I64_LIMIT: nat := 0x8000_0000_0000_0000
  const NANOS_PER_MS: nat := 1_000_000
  const NANOS_PER_SECOND: nat := 1_000_000_000

  datatype Config = Config(skewSeconds: int, maxDeadlineMs: nat, maxGlobal: nat, maxPerPeer: nat)

  /** `nonceWellFormed`: the nonce decodes to exactly 16 bytes. */
  datatype Request = Request(nonce: string, nonceWellFormed: bool, issuedAt: int, deadlineMs: U64)

  datatype Refusal =
    | InvalidDeadline
    | InvalidNonce
    | ClockSkewExceeded
    | RequestExpired
    | ReplayedNonce
    | NonceCacheExhausted(scope: NonceLimitScope, limit: nat)

  datatype Verdict = Admitted | Refused(why: Refusal)

  /** `deadline_ms as i64`, in nanoseconds. */
  function Deadline(req: Request): int {
    (if req.deadlineMs < I64_LIMIT then req.deadlineMs else req.deadlineMs - (U64_MAX + 1)) * NANOS_PER_MS
  }

  function Skew(cfg: Config): int {
    cfg.skewSeconds * NANOS_PER_SECOND
  }

  function CheckIssuedAt(cfg: Config, req: Request, wall: int): Option<Refusal> {
    if req.issuedAt > wall + Skew(cfg) then Some(ClockSkewExceeded)
    else if wall > req.issuedAt + Deadline(req) then Some(RequestExpired)
    else if req.issuedAt < wall - Skew(cfg) then Some(ClockSkewExceeded)
    else None
  }

  /** The nonce's lifetime, with the source's saturating 64-bit arithmetic. */
  function NonceTtl(cfg: Config, req: Request): nat {
    var skewMs := if cfg.skewSeconds < 0 then 0 else Min(cfg.skewSeconds * 1_000, U64_MAX);
    Min(req.deadlineMs + skewMs, U64_MAX) * NANOS_PER_MS
  }

  function VerdictOf(decision: NonceDecision): Verdict {
    match decision
    case Accepted => Admitted
    case Replay => Refused(ReplayedNonce)
    case ResourceExhausted(scope, limit) => Refused(NonceCacheExhausted(scope, limit))
  }

  function Precheck(cfg: Config, req: Request, wall: int): Option<Refusal> {
    if req.deadlineMs == 0 || req.deadlineMs > cfg.maxDeadlineMs then Some(InvalidDeadline)
    else if !req.nonceWellFormed then Some(InvalidNonce)
    else CheckIssuedAt(cfg, req, wall)
  }

  function Admission(live: Live, cfg: Config, wall: int, instant: int, peer: string, req: Request): (Live, Verdict) {
    match Precheck(cfg, req, wall)
    case Some(refusal) => (live, Refused(refusal))
    case None =>
      var (live', decision) :=
        NaiveRegister(live, cfg.maxGlobal, cfg.maxPerPeer, instant, peer, req.nonce, NonceTtl(cfg, req));
      (live', VerdictOf(decision))
  }

  /** The nonce part of request dispatch, on the real cache. */
  method ValidateAndRegister(cache: Cache, cfg: Config, wall: int, instant: int, peer: string, req: Request)
    returns (verdict: Verdict)
    requires cache.Valid() && cache.maxGlobal == cfg.maxGlobal && cache.maxPerPeer == cfg.maxPerPeer
    modifies cache
    ensures cache.Valid()
    ensures (cache.live, verdict) == Admission(old(cache.live), cfg, wall, instant, peer, req)
  {
    match Precheck(cfg, req, wall) {
      case Some(refusal) => verdict := Refused(refusal);
      case None =>
        var decision := cache.RegisterAt(instant, peer, req.nonce, NonceTtl(cfg, req));
        verdict := VerdictOf(decision);
    }
  }

  // ---------- Which requests are admitted ----------

  /** The nonces held at an instant, and those of one peer. */
  function HeldAt(live: Live, instant: int): set<NonceKey> {
    set k | k in live && live[k] > instant
  }

  function HeldOf(live: Live, instant: int, peer: string): set<NonceKey> {
    set k | k in live && live[k] > instant && k.0 == peer
  }

  predicate DeadlineInRange(cfg: Config, req: Request) { 1 <= req.deadlineMs <= cfg.maxDeadlineMs }

  /** Dated within the skew of the wall clock, and not past its deadline. */
  predicate DatedWithinSkew(cfg: Config, req: Request, wall: int) {
    wall - Skew(cfg) <= req.issuedAt <= wall + Skew(cfg)
  }

  predicate BeforeDeadline(req: Request, wall: int) { wall <= req.issuedAt + Deadline(req) }

  /** The request is well formed and fresh: it gets as far as the cache. */
  predicate ReachesCache(cfg: Config, req: Request, wall: int) {
    && DeadlineInRange(cfg, req) && req.nonceWellFormed
    && DatedWithinSkew(cfg, req, wall) && BeforeDeadline(req, wall)
  }

  lemma HeldIsUnexpired(live: Live, instant: int, peer: string)
    ensures |Unexpired(live, instant)| == |HeldAt(live, instant)|
    ensures |PeerKeys(Unexpired(live, instant), peer)| == |HeldOf(live, instant, peer)|
  {
    assert Unexpired(live, instant).Keys == HeldAt(live, instant);
    assert PeerKeys(Unexpired(live, instant), peer) == HeldOf(live, instant, peer);
  }

  /** Exactly which requests are admitted. */
  lemma AdmittedIff(live: Live, cfg: Config, wall: int, instant: int, peer: string, req: Request)
    ensures Admission(live, cfg, wall, instant, peer, req).1 == Admitted <==>
            && 1 <= req.deadlineMs <= cfg.maxDeadlineMs && req.nonceWellFormed
            && wall - Skew(cfg) <= req.issuedAt <= wall + Skew(cfg) && wall <= req.issuedAt + Deadline(req)
            && (peer, req.nonce) !in HeldAt(live, instant)
            && |HeldOf(live, instant, peer)| < cfg.maxPerPeer && |HeldAt(live, instant)| < cfg.maxGlobal
  {
    HeldIsUnexpired(live, instant, peer);
  }

  /** Which condition each refusal before the cache reports: the first that fails. */
  lemma PrecheckRefusals(live: Live, cfg: Config, wall: int, instant: int, peer: string, req: Request)
    ensures var verdict := Admission(live, cfg, wall, instant, peer, req).1;
            var formed := DeadlineInRange(cfg, req) && req.nonceWellFormed;
            && (verdict == Refused(InvalidDeadline) <==> !DeadlineInRange(cfg, req))
            && (verdict == Refused(InvalidNonce) <==> DeadlineInRange(cfg, req) && !req.nonceWellFormed)
            && (verdict == Refused(RequestExpired) <==>
                  formed && !BeforeDeadline(req, wall) && req.issuedAt <= wall + Skew(cfg))
            && (verdict == Refused(ClockSkewExceeded) <==>
                  formed && (req.issuedAt > wall + Skew(cfg)
                             || (BeforeDeadline(req, wall) && req.issuedAt < wall - Skew(cfg))))
  {}

  /** Which condition each refusal of the cache reports. */
  lemma CacheRefusals(live: Live, cfg: Config, wall: int, instant: int, peer: string, req: Request)
    ensures var verdict := Admission(live, cfg, wall, instant, peer, req).1;
            var replayed := (peer, req.nonce) in HeldAt(live, instant);
            var peerFull := |HeldOf(live, instant, peer)| >= cfg.maxPerPeer;
            && (verdict == Refused(ReplayedNonce) <==> ReachesCache(cfg, req, wall) && replayed)
            && (verdict == Refused(NonceCacheExhausted(PerPeer, cfg.maxPerPeer)) <==>
                  ReachesCache(cfg, req, wall) && !replayed && peerFull)
            && (verdict == Refused(NonceCacheExhausted(Global, cfg.maxGlobal)) <==>
                  ReachesCache(cfg, req, wall) && !replayed && !peerFull && |HeldAt(live, instant)| >= cfg.maxGlobal)
  {
    HeldIsUnexpired(live, instant, peer);
  }

  /** What the cache holds afterwards: what it held, less the expired if it was reached, and the
      nonce of an admitted request until its lifetime ends. */
  lemma AdmissionContents(live: Live, cfg: Config, wall: int, instant: int, peer: string, req: Request, k: NonceKey)
    ensures var (after, verdict) := Admission(live, cfg, wall, instant, peer, req);
            if verdict == Admitted && k == (peer, req.nonce) then
              k in after && after[k] == ExpiresAt(instant, NonceTtl(cfg, req))
            else
              && (k in after <==> k in live && (ReachesCache(cfg, req, wall) ==> live[k] > instant))
              && (k in after ==> after[k] == live[k])
  {}

  /** The lifetime is deadline plus skew in milliseconds, capped at what 64 bits hold. */
  lemma NonceTtlExact(cfg: Config, req: Request)
    ensures NonceTtl(cfg, req)
         == Min(req.deadlineMs + (if cfg.skewSeconds > 0 then cfg.skewSeconds * 1_000 else 0), U64_MAX) * NANOS_PER_MS
  {}

  /** The deadline is the request's milliseconds read as a signed 64-bit number. */
  lemma DeadlineIsSigned(req: Request)
    ensures -0x8000_0000_0000_0000 * NANOS_PER_MS <= Deadline(req) < 0x8000_0000_0000_0000 * NANOS_PER_MS
    ensures Deadline(req) == req.deadlineMs * NANOS_PER_MS
            || Deadline(req) == (req.deadlineMs - 0x1_0000_0000_0000_0000) * NANOS_PER_MS
  {}

  // ---------- Runs ----------

  /** One request reaching the cache; requests are listed in lock order. */
  datatype Arrival = Arrival(peer: string, req: Request, wall: int, instant: int)

  /** The monotonic clock does not run back, and at most `stall` passes between the two readings. */
  predicate Timed(run: seq<Arrival>, start: int, stall: nat) {
    run == [] ||
    var init, last := run[..|run| - 1], run[|run| - 1];
    && Timed(init, start, stall)
    && LastInstant(init, start) <= last.instant
    && last.wall <= last.instant <= last.wall + stall
  }

  function LastInstant(run: seq<Arrival>, start: int): int {
    if run == [] then start else run[|run| - 1].instant
  }

  function After(live: Live, cfg: Config, run: seq<Arrival>): Live {
    if run == [] then live
    else
      var last := run[|run| - 1];
      Admission(After(live, cfg, run[..|run| - 1]), cfg, last.wall, last.instant, last.peer, last.req).0
  }

  /** Every cache a run of requests can reach respects both limits. */
  lemma {:induction false} AlwaysWithinLimits(cfg: Config, run: seq<Arrival>)
    ensures WithinLimits(After(map[], cfg, run), cfg.maxGlobal, cfg.maxPerPeer)
  {
    if run == [] {
      forall p ensures PeerKeys(map[], p) == {} {}
    } else {
      var before, last := After(map[], cfg, run[..|run| - 1]), run[|run| - 1];
      AlwaysWithinLimits(cfg, run[..|run| - 1]);
      RegisterWithinLimits(before, cfg.maxGlobal, cfg.maxPerPeer, last.instant, last.peer, last.req.nonce,
                           NonceTtl(cfg, last.req));
    }
  }

  /** Whatever arrives in between, `req` from `peer` is never admitted again. */
  ghost predicate ReplaySafe(live: Live, cfg: Config, peer: string, req: Request, start: int, stall: nat) {
    forall run: seq<Arrival>, wall: int, instant: int ::
      Timed(run, start, stall) && LastInstant(run, start) <= instant && wall <= instant <= wall + stall ==>
        Admission(After(live, cfg, run), cfg, wall, instant, peer, req).1 != Admitted
  }

  /** The last wall-clock reading at which `req` still counts as fresh. */
  function LastFresh(cfg: Config, req: Request): int {
    req.issuedAt + Min(Deadline(req), Skew(cfg))
  }

  lemma {:induction false} InstantsBounded(run: seq<Arrival>, start: int, stall: nat, i: nat)
    requires Timed(run, start, stall) && i < |run|
    ensures start <= run[i].instant <= LastInstant(run, start)
    decreases |run|
  {
    var init := run[..|run| - 1];
    if i < |init| {
      InstantsBounded(init, start, stall, i);
    } else if init != [] {
      InstantsBounded(init, start, stall, |init| - 1);
    }
  }

  /** A nonce survives every admission that happens before its expiry. */
  lemma {:induction false} Remembered(live: Live, cfg: Config, run: seq<Arrival>, key: NonceKey)
    requires key in live
    requires forall i :: 0 <= i < |run| ==> run[i].instant < live[key]
    ensures key in After(live, cfg, run) && After(live, cfg, run)[key] == live[key]
  {
    if run != [] {
      Remembered(live, cfg, run[..|run| - 1], key);
      assert run[|run| - 1].instant < live[key];
    }
  }

  lemma RefusedBeforeExpiry(live: Live, cfg: Config, peer: string, req: Request, wall: int, instant: int)
    requires (peer, req.nonce) in live && instant < live[(peer, req.nonce)]
    ensures Admission(live, cfg, wall, instant, peer, req).1 != Admitted
  {
    assert (peer, req.nonce) in Unexpired(live, instant);
  }

  lemma Sufficient(live: Live, cfg: Config, peer: string, req: Request, start: int, stall: nat,
                   run: seq<Arrival>, wall: int, instant: int)
    requires (peer, req.nonce) in live && LastFresh(cfg, req) + stall < live[(peer, req.nonce)]
    requires Timed(run, start, stall) && LastInstant(run, start) <= instant && wall <= instant <= wall + stall
    ensures Admission(After(live, cfg, run), cfg, wall, instant, peer, req).1 != Admitted
  {
    var key := (peer, req.nonce);
    if instant < live[key] {
      forall i | 0 <= i < |run| ensures run[i].instant < live[key] { InstantsBounded(run, start, stall, i); }
      Remembered(live, cfg, run, key);
      RefusedBeforeExpiry(After(live, cfg, run), cfg, peer, req, wall, instant);
    }
  }

  /** Resubmitting at the last fresh moment is admitted if the nonce has expired by then. */
  lemma Necessary(before: Live, cfg: Config, peer: string, req: Request, wall0: int, instant0: int, stall: nat)
    requires Admission(before, cfg, wall0, instant0, peer, req).1 == Admitted
    requires LastFresh(cfg, req) + stall >= ExpiresAt(instant0, NonceTtl(cfg, req))
    ensures !ReplaySafe(Admission(before, cfg, wall0, instant0, peer, req).0, cfg, peer, req, instant0, stall)
  {
    var live := Admission(before, cfg, wall0, instant0, peer, req).0;
    var expiry := ExpiresAt(instant0, NonceTtl(cfg, req));
    var wall := LastFresh(cfg, req);
    var instant := wall + stall;
    var kept, kept' := Unexpired(before, instant0), Unexpired(live, instant);
    assert live == kept[(peer, req.nonce) := expiry];
    SubsetSize(kept'.Keys, kept.Keys);
    SubsetSize(PeerKeys(kept', peer), PeerKeys(kept, peer));
    assert Admission(After(live, cfg, []), cfg, wall, instant, peer, req).1 == Admitted;
    assert Timed([], instant0, stall) && LastInstant([], instant0) <= instant;
  }

  /** Exactly when an admitted request can never be replayed: its nonce must outlive the
      last moment at which the request is fresh, by more than the longest stall. */
  lemma ReplaySafety(before: Live, cfg: Config, peer: string, req: Request, wall0: int, instant0: int, stall: nat)
    requires Admission(before, cfg, wall0, instant0, peer, req).1 == Admitted
    ensures ReplaySafe(Admission(before, cfg, wall0, instant0, peer, req).0, cfg, peer, req, instant0, stall)
            <==> LastFresh(cfg, req) + stall < ExpiresAt(instant0, NonceTtl(cfg, req))
  {
    var live := Admission(before, cfg, wall0, instant0, peer, req).0;
    if LastFresh(cfg, req) + stall < ExpiresAt(instant0, NonceTtl(cfg, req)) {
      forall run: seq<Arrival>, wall: int, instant: int |
        Timed(run, instant0, stall) && LastInstant(run, instant0) <= instant && wall <= instant <= wall + stall
        ensures Admission(After(live, cfg, run), cfg, wall, instant, peer, req).1 != Admitted
      {
        Sufficient(live, cfg, peer, req, instant0, stall, run, wall, instant);
      }
    } else {
      Necessary(before, cfg, peer, req, wall0, instant0, stall);
    }
  }

  /** With a single clock reading per request and no saturation, the only replayable requests
      are those dated exactly at the edge of the future skew with a deadline within the skew. */
  lemma ReplaySafetyOneReading(before: Live, cfg: Config, peer: string, req: Request, now: int)
    requires Admission(before, cfg, now, now, peer, req).1 == Admitted
    requires cfg.skewSeconds >= 0 && req.deadlineMs < I64_LIMIT
    requires req.deadlineMs + cfg.skewSeconds * 1_000 <= U64_MAX
    requires now + (req.deadlineMs + cfg.skewSeconds * 1_000) * NANOS_PER_MS <= INSTANT_MAX
    ensures ReplaySafe(Admission(before, cfg, now, now, peer, req).0, cfg, peer, req, now, 0)
            <==> !(req.issuedAt == now + Skew(cfg) && Deadline(req) <= Skew(cfg))
  {
    ReplaySafety(before, cfg, peer, req, now, now, 0);
    assert NonceTtl(cfg, req) == Deadline(req) + Skew(cfg);
  }

  /** An admissible request that is replayable: dated at the edge, replayed as its nonce expires. */
  lemma EdgeRequestIsReplayable()
    ensures
      var cfg := Config(60, 30_000, 10, 10);
      var req := Request("n", true, 60 * NANOS_PER_SECOND, 30_000);
      var (live, verdict) := Admission(map[], cfg, 0, 0, "p", req);
      verdict == Admitted && !ReplaySafe(live, cfg, "p", req, 0, 0)
  {
    var cfg := Config(60, 30_000, 10, 10);
    var req := Request("n", true, 60 * NANOS_PER_SECOND, 30_000);
    ReplaySafetyOneReading(map[], cfg, "p", req, 0);
  }
}
