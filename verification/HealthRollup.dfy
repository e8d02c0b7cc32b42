/** Health rollups: one status per five-minute slot (the last evaluation wins), counts of
    observations, nearest-rank percentiles and alias-aware fingerprint changes.
    Instants are nanoseconds since the epoch. */
module HealthRollup {
  import opened Maps
  import opened Outcomes
  import opened Sorting

  const SECOND: int := 1_000_000_000
  const SLOT_SECONDS: int := 300
  const SLOT: int := SLOT_SECONDS * SECOND
  const STATUSES: nat := 6
  const SOURCE_LIMIT: nat := 100_001

  datatype HistoryRow = HistoryRow(computedAt: int, status: string)

  datatype Kind = CertExpiry | ConfigFingerprint | OtherMethod

  /** The certificate statuses the rollup tells apart; a missing one is `Unlisted`. */
  datatype CertStatus = Critical | Expired | Warning | ExpiringSoon | Unlisted

  /** An observation with the summary fields the rollup reads: certificate days and status,
      and the current and previous fingerprint prefixes. */
  datatype Observation = Observation(
    observedAt: int, kind: Kind, ok: Option<bool>, durationMs: Option<nat>,
    days: Option<int>, certStatus: CertStatus, aliases: seq<string>)

  datatype RollupError = TooManyRows | InvalidStatus

  function StatusIndex(status: string): Option<nat> {
    if status == "healthy" then Some(0)
    else if status == "degraded" then Some(1)
    else if status == "unreachable" then Some(2)
    else if status == "stale" then Some(3)
    else if status == "disabled" then Some(4)
    else if status == "unknown" then Some(5)
    else None
  }

  predicate AllValid(rows: seq<HistoryRow>) {
    forall i :: 0 <= i < |rows| ==> StatusIndex(rows[i].status).Some?
  }

  /** `unix_timestamp().div_euclid(300)` */
  function SlotOf(at: int): int {
    (at / SECOND) / SLOT_SECONDS
  }

  /** The status of each covered slot. */
  function Slots(rows: seq<HistoryRow>): map<int, nat>
    requires AllValid(rows)
  {
    if rows == [] then map[]
    else
      var last := rows[|rows| - 1];
      Slots(rows[..|rows| - 1])[SlotOf(last.computedAt) := StatusIndex(last.status).value]
  }

  function SlotsWith(slots: map<int, nat>, index: int): set<int> {
    set s | s in slots && slots[s] == index
  }

  datatype ByStatus = ByStatus(
    healthy: nat, degraded: nat, unreachable: nat, stale: nat, disabled: nat, unknown: nat)

  function Statuses(slots: map<int, nat>): ByStatus {
    ByStatus(|SlotsWith(slots, 0)|, |SlotsWith(slots, 1)|, |SlotsWith(slots, 2)|,
             |SlotsWith(slots, 3)|, |SlotsWith(slots, 4)|, |SlotsWith(slots, 5)|)
  }

  predicate Classified(o: Observation) { o.ok.Some? }

  predicate Errored(o: Observation) { o.ok == Some(false) }

  predicate Timed(o: Observation) { o.durationMs.Some? }

  predicate CertCritical(o: Observation) {
    o.kind.CertExpiry? &&
    ((o.days.Some? && o.days.value <= 7) || o.certStatus.Critical? || o.certStatus.Expired?)
  }

  predicate CertWarning(o: Observation) {
    o.kind.CertExpiry? && !CertCritical(o) &&
    ((o.days.Some? && o.days.value <= 30) || o.certStatus.Warning? || o.certStatus.ExpiringSoon?)
  }

  predicate Fingerprinted(o: Observation) { o.kind.ConfigFingerprint? && o.aliases != [] }

  /** What the observations of a bucket add up to. */
  datatype Tally = Tally(
    classified: nat, errors: nat, timed: nat, certWarnings: nat, certCriticals: nat, fingerprints: nat)

  function Add(x: Tally, y: Tally): Tally {
    Tally(x.classified + y.classified, x.errors + y.errors, x.timed + y.timed,
          x.certWarnings + y.certWarnings, x.certCriticals + y.certCriticals, x.fingerprints + y.fingerprints)
  }

  function One(yes: bool): nat { if yes then 1 else 0 }

  function Count<T>(rows: seq<T>, p: T -> bool): nat {
    if rows == [] then 0 else Count(rows[..|rows| - 1], p) + One(p(rows[|rows| - 1]))
  }

  function TallyOf(rows: seq<Observation>): Tally {
    Tally(Count(rows, Classified), Count(rows, Errored), Count(rows, Timed),
          Count(rows, CertWarning), Count(rows, CertCritical), Count(rows, Fingerprinted))
  }

  function Fingerprints(rows: seq<Observation>): seq<seq<string>> {
    if rows == [] then []
    else
      var last := rows[|rows| - 1];
      if Fingerprinted(last) then Fingerprints(rows[..|rows| - 1]) + [last.aliases]
      else Fingerprints(rows[..|rows| - 1])
  }

  /** No alias in common. */
  predicate Changed(a: seq<string>, b: seq<string>) {
    forall i :: 0 <= i < |a| ==> a[i] !in b
  }

  /** Neighbours that differ. */
  function Changes<T>(s: seq<T>, differ: (T, T) -> bool): nat {
    if |s| < 2 then 0
    else Changes(s[..|s| - 1], differ) + One(differ(s[|s| - 2], s[|s| - 1]))
  }

  function Durations(rows: seq<Observation>): seq<nat> {
    if rows == [] then []
    else
      var last := rows[|rows| - 1];
      if Timed(last) then Durations(rows[..|rows| - 1]) + [last.durationMs.value]
      else Durations(rows[..|rows| - 1])
  }

  function AtMost(a: nat, b: nat): bool { a <= b }

  function Percentile(values: seq<nat>, percent: nat): Option<nat> {
    if values == [] then None
    else
      var rank := (percent * |values| + 99) / 100;
      var index := SaturatingSub(rank, 1);
      if index < |values| then Some(values[index]) else None
  }

  /** The additive part of a rollup. */
  datatype Totals = Totals(covered: nat, statuses: ByStatus, tally: Tally)

  datatype Rollup = Rollup(
    totals: Totals, expectedSlots: nat, p50: Option<nat>, p95: Option<nat>, fingerprintChanges: nat)

  function TotalsOf(slots: map<int, nat>, observations: seq<Observation>): Totals {
    Totals(|slots|, Statuses(slots), TallyOf(observations))
  }

  function RollupOf(history: seq<HistoryRow>, observations: seq<Observation>, bucketSeconds: nat):
    Result<Rollup, RollupError>
  {
    if !AllValid(history) then Err(InvalidStatus)
    else
      var durations := Sort(Durations(observations), AtMost);
      Ok(Rollup(TotalsOf(Slots(history), observations), bucketSeconds / SLOT_SECONDS,
                Percentile(durations, 50), Percentile(durations, 95), Changes(Fingerprints(observations), Changed)))
  }

  // ---------- The loops ----------

  method FillSlots(history: seq<HistoryRow>) returns (slots: map<int, nat>, valid: bool)
    ensures valid <==> AllValid(history)
    ensures valid ==> slots == Slots(history)
  {
    slots := map[];
    for i := 0 to |history|
      invariant AllValid(history[..i]) && slots == Slots(history[..i])
    {
      var index := StatusIndex(history[i].status);
      if index.None? { return slots, false; }
      slots := slots[SlotOf(history[i].computedAt) := index.value];
      assert history[..i + 1][..i] == history[..i];
    }
    assert history[..|history|] == history;
    valid := true;
  }

  lemma TakeSlot(slots: map<int, nat>, s: int)
    requires s in slots
    ensures |slots - {s}| == |slots| - 1
    ensures forall i :: |SlotsWith(slots - {s}, i)| == |SlotsWith(slots, i)| - (if slots[s] == i then 1 else 0)
  {
    assert (slots - {s}).Keys == slots.Keys - {s};
    forall i ensures |SlotsWith(slots - {s}, i)| == |SlotsWith(slots, i)| - (if slots[s] == i then 1 else 0) {
      assert SlotsWith(slots - {s}, i) == SlotsWith(slots, i) - {s};
    }
  }

  method CountStatuses(slots: map<int, nat>) returns (counts: seq<nat>)
    requires forall s :: s in slots ==> slots[s] < STATUSES
    ensures |counts| == STATUSES && forall i :: 0 <= i < STATUSES ==> counts[i] == |SlotsWith(slots, i)|
  {
    counts := seq(STATUSES, _ => 0);
    var rest := slots;
    while rest != map[]
      invariant rest.Keys <= slots.Keys && forall s :: s in rest ==> rest[s] == slots[s]
      invariant |counts| == STATUSES
      invariant forall i :: 0 <= i < STATUSES ==> counts[i] + |SlotsWith(rest, i)| == |SlotsWith(slots, i)|
      decreases |rest|
    {
      var s := AnyKey(rest);
      TakeSlot(rest, s);
      counts := counts[rest[s] := counts[rest[s]] + 1];
      rest := rest - {s};
    }
  }

  method ScanObservations(rows: seq<Observation>)
    returns (warnings: nat, criticals: nat, prints: seq<seq<string>>)
    ensures warnings == TallyOf(rows).certWarnings && criticals == TallyOf(rows).certCriticals
    ensures prints == Fingerprints(rows)
  {
    warnings, criticals, prints := 0, 0, [];
    for i := 0 to |rows|
      invariant warnings == TallyOf(rows[..i]).certWarnings && criticals == TallyOf(rows[..i]).certCriticals
      invariant prints == Fingerprints(rows[..i])
    {
      var o := rows[i];
      assert rows[..i + 1][..i] == rows[..i];
      if o.kind.CertExpiry? {
        if (o.days.Some? && o.days.value <= 7) || o.certStatus.Critical? || o.certStatus.Expired? {
          criticals := criticals + 1;
        } else if (o.days.Some? && o.days.value <= 30) || o.certStatus.Warning? || o.certStatus.ExpiringSoon? {
          warnings := warnings + 1;
        }
      }
      if o.kind.ConfigFingerprint? && o.aliases != [] { prints := prints + [o.aliases]; }
    }
    assert rows[..|rows|] == rows;
  }

  lemma {:induction false} SlotIndexes(rows: seq<HistoryRow>)
    requires AllValid(rows)
    ensures forall s :: s in Slots(rows) ==> Slots(rows)[s] < STATUSES
  {
    if rows != [] { SlotIndexes(rows[..|rows| - 1]); }
  }

  /** The last evaluation of a slot decides its status, and only slots with one are covered. */
  lemma {:induction false} LastEvaluationWins(rows: seq<HistoryRow>, i: nat)
    requires AllValid(rows) && i < |rows|
    requires forall j :: i < j < |rows| ==> SlotOf(rows[j].computedAt) != SlotOf(rows[i].computedAt)
    ensures SlotOf(rows[i].computedAt) in Slots(rows)
    ensures Slots(rows)[SlotOf(rows[i].computedAt)] == StatusIndex(rows[i].status).value
  {
    if i < |rows| - 1 { LastEvaluationWins(rows[..|rows| - 1], i); }
  }

  lemma {:induction false} CoveredSlotHasLast(rows: seq<HistoryRow>, s: int) returns (i: nat)
    requires AllValid(rows) && s in Slots(rows)
    ensures i < |rows| && SlotOf(rows[i].computedAt) == s
    ensures forall j :: i < j < |rows| ==> SlotOf(rows[j].computedAt) != s
  {
    i := |rows| - 1;
    if SlotOf(rows[i].computedAt) != s { i := CoveredSlotHasLast(rows[..|rows| - 1], s); }
  }

  /** The `i`-th evaluation is the last of its slot. */
  predicate LastOfSlot(rows: seq<HistoryRow>, i: nat)
    requires i < |rows|
  {
    forall j :: i < j < |rows| ==> SlotOf(rows[j].computedAt) != SlotOf(rows[i].computedAt)
  }

  /** The slots whose last evaluation has the status of that name. */
  function SlotsNamed(rows: seq<HistoryRow>, name: string): set<int> {
    set i | 0 <= i < |rows| && LastOfSlot(rows, i) && rows[i].status == name :: SlotOf(rows[i].computedAt)
  }

  lemma NameOfIndex(a: string, b: string)
    requires StatusIndex(a).Some? && StatusIndex(b).Some?
    ensures StatusIndex(a) == StatusIndex(b) <==> a == b
  {}

  /** The slots counted under an index are those named by the status of that index. */
  lemma SlotsByName(rows: seq<HistoryRow>, name: string)
    requires AllValid(rows) && StatusIndex(name).Some?
    ensures SlotsWith(Slots(rows), StatusIndex(name).value) == SlotsNamed(rows, name)
  {
    forall s ensures s in SlotsWith(Slots(rows), StatusIndex(name).value) <==> s in SlotsNamed(rows, name) {
      if s in Slots(rows) {
        var i := CoveredSlotHasLast(rows, s);
        LastEvaluationWins(rows, i);
        NameOfIndex(rows[i].status, name);
        assert LastOfSlot(rows, i);
        forall k | 0 <= k < |rows| && LastOfSlot(rows, k) && SlotOf(rows[k].computedAt) == s ensures k == i {}
      } else {
        forall k | 0 <= k < |rows| && LastOfSlot(rows, k) ensures SlotOf(rows[k].computedAt) != s {
          LastEvaluationWins(rows, k);
        }
      }
    }
  }

  /** Each counter counts the slots whose last evaluation has its name. */
  lemma CountersAreNamed(rows: seq<HistoryRow>)
    requires AllValid(rows)
    ensures var n := Statuses(Slots(rows));
            && n.healthy == |SlotsNamed(rows, "healthy")| && n.degraded == |SlotsNamed(rows, "degraded")|
            && n.unreachable == |SlotsNamed(rows, "unreachable")| && n.stale == |SlotsNamed(rows, "stale")|
            && n.disabled == |SlotsNamed(rows, "disabled")| && n.unknown == |SlotsNamed(rows, "unknown")|
  {
    SlotsByName(rows, "healthy");
    SlotsByName(rows, "degraded");
    SlotsByName(rows, "unreachable");
    SlotsByName(rows, "stale");
    SlotsByName(rows, "disabled");
    SlotsByName(rows, "unknown");
  }

  /** A rollup is refused exactly for a status that none of the counters is named after. */
  lemma RefusedIff(history: seq<HistoryRow>, observations: seq<Observation>, bucketSeconds: nat)
    ensures RollupOf(history, observations, bucketSeconds).Err? <==>
            exists i :: 0 <= i < |history| &&
              history[i].status !in {"healthy", "degraded", "unreachable", "stale", "disabled", "unknown"}
  {}

  /** How a certificate observation counts: as critical up to 7 days, as a warning up to 30, unless its
      status is worse; never as both. */
  lemma CertificateClasses(o: Observation)
    ensures CertCritical(o) <==>
            o.kind == CertExpiry && (o.certStatus in {Critical, Expired} || (o.days.Some? && o.days.value < 8))
    ensures CertWarning(o) <==>
            && o.kind == CertExpiry && o.certStatus !in {Critical, Expired}
            && match o.days {
                 case None => o.certStatus in {Warning, ExpiringSoon}
                 case Some(days) => days > 7 && (days < 31 || o.certStatus in {Warning, ExpiringSoon})
               }
  {}

  /** The values of `ok` that are present. */
  function Results(rows: seq<Observation>): seq<bool> {
    if rows == [] then []
    else
      var last := rows[|rows| - 1];
      if Classified(last) then Results(rows[..|rows| - 1]) + [last.ok.value]
      else Results(rows[..|rows| - 1])
  }

  function Failures(outcomes: seq<bool>): nat {
    if outcomes == [] then 0 else Failures(outcomes[..|outcomes| - 1]) + One(!outcomes[|outcomes| - 1])
  }

  /** The lengths the code reports are the tallies. */
  lemma {:induction false} Lengths(rows: seq<Observation>)
    ensures |Results(rows)| == TallyOf(rows).classified
    ensures Failures(Results(rows)) == TallyOf(rows).errors
    ensures |Durations(rows)| == TallyOf(rows).timed
    ensures |Fingerprints(rows)| == TallyOf(rows).fingerprints
  {
    if rows != [] { Lengths(rows[..|rows| - 1]); }
  }

  method BuildHealthRollup(history: seq<HistoryRow>, observations: seq<Observation>, bucketSeconds: nat)
    returns (r: Result<Rollup, RollupError>)
    ensures r == RollupOf(history, observations, bucketSeconds)
  {
    var slots, valid := FillSlots(history);
    if !valid { return Err(InvalidStatus); }
    SlotIndexes(history);
    var counts := CountStatuses(slots);
    var statuses := ByStatus(counts[0], counts[1], counts[2], counts[3], counts[4], counts[5]);
    var outcomes := Results(observations);
    var durations := Sort(Durations(observations), AtMost);
    var warnings, criticals, prints := ScanObservations(observations);
    Lengths(observations);
    SortCorrect(Durations(observations), AtMost);
    assert |multiset(durations)| == |multiset(Durations(observations))|;
    var tally := Tally(|outcomes|, Failures(outcomes), |durations|, warnings, criticals, |prints|);
    r := Ok(Rollup(Totals(|slots|, statuses, tally), bucketSeconds / SLOT_SECONDS,
                   Percentile(durations, 50), Percentile(durations, 95), Changes(prints, Changed)));
  }
}
