/** Rollups over stored tables: what a coarse bucket says is what its fine buckets say together. */
module HealthWindows {
  import opened HealthRollup
  import opened Maps
  import opened Outcomes
  import opened Sorting

  /** One node's rows, in the order the store returns them. */
  datatype Tables = Tables(history: seq<HistoryRow>, observations: seq<Observation>)

  function ComputedAt(r: HistoryRow): int { r.computedAt }

  function ObservedAt(o: Observation): int { o.observedAt }

  predicate Ordered<T>(rows: seq<T>, at: T -> int) {
    forall i, j :: 0 <= i < j < |rows| ==> at(rows[i]) <= at(rows[j])
  }

  predicate InOrder(t: Tables) {
    Ordered(t.history, ComputedAt) && Ordered(t.observations, ObservedAt)
  }

  /** The rows of the half-open window. */
  function Window<T>(rows: seq<T>, at: T -> int, lo: int, hi: int): seq<T> {
    if rows == [] then []
    else
      var last := rows[|rows| - 1];
      if lo <= at(last) < hi then Window(rows[..|rows| - 1], at, lo, hi) + [last]
      else Window(rows[..|rows| - 1], at, lo, hi)
  }

  /** The source rows of the bucket of slots `a` to `b`. */
  function HistoryIn(t: Tables, a: int, b: int): seq<HistoryRow> {
    Window(t.history, ComputedAt, a * SLOT, b * SLOT)
  }

  function ObservationsIn(t: Tables, a: int, b: int): seq<Observation> {
    Window(t.observations, ObservedAt, a * SLOT, b * SLOT)
  }

  predicate Fits(t: Tables, a: int, b: int) {
    |HistoryIn(t, a, b)| < SOURCE_LIMIT && |ObservationsIn(t, a, b)| < SOURCE_LIMIT
  }

  function Bucket(t: Tables, a: int, b: int): Result<Rollup, RollupError>
    requires a <= b
  {
    if !Fits(t, a, b) then Err(TooManyRows)
    else RollupOf(HistoryIn(t, a, b), ObservationsIn(t, a, b), (b - a) * SLOT_SECONDS)
  }

  // ---------- Windows split at any instant ----------

  lemma {:induction false} WindowBefore<T>(rows: seq<T>, at: T -> int, lo: int, hi: int)
    requires forall i :: 0 <= i < |rows| ==> at(rows[i]) < lo
    ensures Window(rows, at, lo, hi) == []
  {
    if rows != [] { WindowBefore(rows[..|rows| - 1], at, lo, hi); }
  }

  lemma {:induction false} WindowSplit<T>(rows: seq<T>, at: T -> int, lo: int, mid: int, hi: int)
    requires Ordered(rows, at) && lo <= mid <= hi
    ensures Window(rows, at, lo, hi) == Window(rows, at, lo, mid) + Window(rows, at, mid, hi)
  {
    if rows != [] {
      WindowSplit(rows[..|rows| - 1], at, lo, mid, hi);
      if at(rows[|rows| - 1]) < mid { WindowBefore(rows[..|rows| - 1], at, mid, hi); }
    }
  }

  lemma {:induction false} WindowWithin<T>(rows: seq<T>, at: T -> int, lo: int, hi: int)
    ensures forall i :: 0 <= i < |Window(rows, at, lo, hi)| ==> lo <= at(Window(rows, at, lo, hi)[i]) < hi
  {
    if rows != [] { WindowWithin(rows[..|rows| - 1], at, lo, hi); }
  }

  // ---------- Totals of concatenated rows ----------

  lemma {:induction false} SlotsConcat(x: seq<HistoryRow>, y: seq<HistoryRow>)
    requires AllValid(x) && AllValid(y)
    ensures Slots(x + y) == Slots(x) + Slots(y)
  {
    if y == [] {
      assert x + y == x;
    } else {
      SlotsConcat(x, y[..|y| - 1]);
      assert (x + y)[..|x + y| - 1] == x + y[..|y| - 1];
    }
  }

  function SlotRange(a: int, b: int): (r: set<int>)
    ensures |r| == Max(b - a, 0)
    ensures forall s :: s in r <==> a <= s < b
    decreases b - a
  {
    if a < b then SlotRange(a, b - 1) + {b - 1} else {}
  }

  lemma SlotInRange(at: int, a: int, b: int)
    requires a * SLOT <= at < b * SLOT
    ensures a <= SlotOf(at) < b
  {
    var second := at / SECOND;
    assert second * SECOND <= at < (second + 1) * SECOND;
    assert a * SLOT_SECONDS <= second < b * SLOT_SECONDS;
  }

  lemma {:induction false} SlotsWithin(rows: seq<HistoryRow>, a: int, b: int)
    requires AllValid(rows)
    requires forall i :: 0 <= i < |rows| ==> a * SLOT <= rows[i].computedAt < b * SLOT
    ensures Slots(rows).Keys <= SlotRange(a, b)
  {
    if rows != [] {
      SlotsWithin(rows[..|rows| - 1], a, b);
      SlotInRange(rows[|rows| - 1].computedAt, a, b);
    }
  }

  lemma {:induction false} CountConcat<T>(x: seq<T>, y: seq<T>, p: T -> bool)
    ensures Count(x + y, p) == Count(x, p) + Count(y, p)
  {
    if y == [] {
      assert x + y == x;
    } else {
      CountConcat(x, y[..|y| - 1], p);
      assert (x + y)[..|x + y| - 1] == x + y[..|y| - 1];
    }
  }

  lemma Fields(x: Tally, y: Tally, sum: Tally)
    requires sum.classified == x.classified + y.classified && sum.errors == x.errors + y.errors
    requires sum.timed == x.timed + y.timed && sum.certWarnings == x.certWarnings + y.certWarnings
    requires sum.certCriticals == x.certCriticals + y.certCriticals
    requires sum.fingerprints == x.fingerprints + y.fingerprints
    ensures sum == Add(x, y)
  {}

  lemma TallyConcat(x: seq<Observation>, y: seq<Observation>)
    ensures TallyOf(x + y) == Add(TallyOf(x), TallyOf(y))
  {
    CountConcat(x, y, Classified);
    CountConcat(x, y, Errored);
    CountConcat(x, y, Timed);
    CountConcat(x, y, CertWarning);
    CountConcat(x, y, CertCritical);
    CountConcat(x, y, Fingerprinted);
    Fields(TallyOf(x), TallyOf(y), TallyOf(x + y));
  }

  lemma {:induction false} FingerprintsConcat(x: seq<Observation>, y: seq<Observation>)
    ensures Fingerprints(x + y) == Fingerprints(x) + Fingerprints(y)
  {
    if y == [] {
      assert x + y == x;
    } else {
      FingerprintsConcat(x, y[..|y| - 1]);
      assert (x + y)[..|x + y| - 1] == x + y[..|y| - 1];
    }
  }

  /** A difference between the last of one part and the first of the next. */
  function SeamOf<T>(x: seq<T>, y: seq<T>, differ: (T, T) -> bool): nat {
    if x != [] && y != [] && differ(x[|x| - 1], y[0]) then 1 else 0
  }

  function Seam(x: seq<seq<string>>, y: seq<seq<string>>): nat { SeamOf(x, y, Changed) }

  lemma {:induction false} ChangesConcat<T>(x: seq<T>, y: seq<T>, differ: (T, T) -> bool)
    ensures Changes(x + y, differ) == Changes(x, differ) + Changes(y, differ) + SeamOf(x, y, differ)
  {
    var all, n := x + y, |x| + |y|;
    if y == [] {
      assert all == x;
    } else if x == [] {
      assert all == y;
    } else {
      var front := y[..|y| - 1];
      assert all[..n - 1] == x + front;
      ChangesConcat(x, front, differ);
      assert all[n - 1] == y[|y| - 1];
      if |y| > 1 {
        assert all[n - 2] == y[|y| - 2] && front[0] == y[0];
      } else {
        assert all[n - 2] == x[|x| - 1];
      }
    }
  }

  function AddStatuses(x: ByStatus, y: ByStatus): ByStatus {
    ByStatus(x.healthy + y.healthy, x.degraded + y.degraded, x.unreachable + y.unreachable,
             x.stale + y.stale, x.disabled + y.disabled, x.unknown + y.unknown)
  }

  function AddTotals(x: Totals, y: Totals): Totals {
    Totals(x.covered + y.covered, AddStatuses(x.statuses, y.statuses), Add(x.tally, y.tally))
  }

  lemma UnionSize<T>(x: set<T>, y: set<T>)
    requires x !! y
    ensures |x + y| == |x| + |y|
  {}

  lemma DisjointSlots(m: map<int, nat>, n: map<int, nat>, i: int)
    requires m.Keys !! n.Keys
    ensures |SlotsWith(m + n, i)| == |SlotsWith(m, i)| + |SlotsWith(n, i)|
  {
    assert SlotsWith(m + n, i) == SlotsWith(m, i) + SlotsWith(n, i);
    UnionSize(SlotsWith(m, i), SlotsWith(n, i));
  }

  lemma CoverageConcat(m: map<int, nat>, n: map<int, nat>)
    requires m.Keys !! n.Keys
    ensures |m + n| == |m| + |n|
  {
    assert (m + n).Keys == m.Keys + n.Keys;
    UnionSize(m.Keys, n.Keys);
  }

  lemma StatusFields(x: ByStatus, y: ByStatus, sum: ByStatus)
    requires sum.healthy == x.healthy + y.healthy && sum.degraded == x.degraded + y.degraded
    requires sum.unreachable == x.unreachable + y.unreachable && sum.stale == x.stale + y.stale
    requires sum.disabled == x.disabled + y.disabled && sum.unknown == x.unknown + y.unknown
    ensures sum == AddStatuses(x, y)
  {}

  lemma StatusesConcat(m: map<int, nat>, n: map<int, nat>)
    requires m.Keys !! n.Keys
    ensures Statuses(m + n) == AddStatuses(Statuses(m), Statuses(n))
  {
    DisjointSlots(m, n, 0);
    DisjointSlots(m, n, 1);
    DisjointSlots(m, n, 2);
    DisjointSlots(m, n, 3);
    DisjointSlots(m, n, 4);
    DisjointSlots(m, n, 5);
    StatusFields(Statuses(m), Statuses(n), Statuses(m + n));
  }

  lemma TotalsFields(x: Totals, y: Totals, sum: Totals)
    requires sum.covered == x.covered + y.covered && sum.statuses == AddStatuses(x.statuses, y.statuses)
    requires sum.tally == Add(x.tally, y.tally)
    ensures sum == AddTotals(x, y)
  {}

  // ---------- Two adjacent buckets ----------

  function Prints(t: Tables, a: int, b: int): seq<seq<string>> {
    Fingerprints(ObservationsIn(t, a, b))
  }

  lemma SplitAt(t: Tables, a: int, b: int, c: int)
    requires InOrder(t) && a <= b <= c
    ensures HistoryIn(t, a, c) == HistoryIn(t, a, b) + HistoryIn(t, b, c)
    ensures ObservationsIn(t, a, c) == ObservationsIn(t, a, b) + ObservationsIn(t, b, c)
    ensures Prints(t, a, c) == Prints(t, a, b) + Prints(t, b, c)
  {
    WindowSplit(t.history, ComputedAt, a * SLOT, b * SLOT, c * SLOT);
    WindowSplit(t.observations, ObservedAt, a * SLOT, b * SLOT, c * SLOT);
    FingerprintsConcat(ObservationsIn(t, a, b), ObservationsIn(t, b, c));
  }

  lemma ValidConcat(x: seq<HistoryRow>, y: seq<HistoryRow>)
    ensures AllValid(x + y) <==> AllValid(x) && AllValid(y)
  {
    if AllValid(x + y) {
      forall i | 0 <= i < |x| ensures StatusIndex(x[i].status).Some? { assert (x + y)[i] == x[i]; }
      forall i | 0 <= i < |y| ensures StatusIndex(y[i].status).Some? { assert (x + y)[|x| + i] == y[i]; }
    }
  }

  /** The slots of a bucket lie inside it. */
  lemma SlotsInside(t: Tables, a: int, b: int)
    requires AllValid(HistoryIn(t, a, b))
    ensures Slots(HistoryIn(t, a, b)).Keys <= SlotRange(a, b)
  {
    WindowWithin(t.history, ComputedAt, a * SLOT, b * SLOT);
    SlotsWithin(HistoryIn(t, a, b), a, b);
  }

  lemma MergeTotals(t: Tables, a: int, b: int, c: int)
    requires InOrder(t) && a <= b <= c && AllValid(HistoryIn(t, a, b)) && AllValid(HistoryIn(t, b, c))
    ensures AllValid(HistoryIn(t, a, c))
    ensures TotalsOf(Slots(HistoryIn(t, a, c)), ObservationsIn(t, a, c))
         == AddTotals(TotalsOf(Slots(HistoryIn(t, a, b)), ObservationsIn(t, a, b)),
                      TotalsOf(Slots(HistoryIn(t, b, c)), ObservationsIn(t, b, c)))
  {
    SplitAt(t, a, b, c);
    ValidConcat(HistoryIn(t, a, b), HistoryIn(t, b, c));
    SlotsConcat(HistoryIn(t, a, b), HistoryIn(t, b, c));
    SlotsInside(t, a, b);
    SlotsInside(t, b, c);
    CoverageConcat(Slots(HistoryIn(t, a, b)), Slots(HistoryIn(t, b, c)));
    StatusesConcat(Slots(HistoryIn(t, a, b)), Slots(HistoryIn(t, b, c)));
    TallyConcat(ObservationsIn(t, a, b), ObservationsIn(t, b, c));
    TotalsFields(TotalsOf(Slots(HistoryIn(t, a, b)), ObservationsIn(t, a, b)),
                 TotalsOf(Slots(HistoryIn(t, b, c)), ObservationsIn(t, b, c)),
                 TotalsOf(Slots(HistoryIn(t, a, c)), ObservationsIn(t, a, c)));
  }

  /** A bucket that fits is computable exactly when both halves are. */
  lemma MergeOk(t: Tables, a: int, b: int, c: int)
    requires InOrder(t) && a <= b <= c && Fits(t, a, c)
    ensures Bucket(t, a, c).Ok? <==> Bucket(t, a, b).Ok? && Bucket(t, b, c).Ok?
  {
    SplitAt(t, a, b, c);
    ValidConcat(HistoryIn(t, a, b), HistoryIn(t, b, c));
  }

  lemma Merge(t: Tables, a: int, b: int, c: int)
    requires InOrder(t) && a <= b <= c && Bucket(t, a, c).Ok?
    ensures Bucket(t, a, b).Ok? && Bucket(t, b, c).Ok?
    ensures Bucket(t, a, c).value.totals == AddTotals(Bucket(t, a, b).value.totals, Bucket(t, b, c).value.totals)
    ensures Bucket(t, a, c).value.fingerprintChanges
         == Bucket(t, a, b).value.fingerprintChanges + Bucket(t, b, c).value.fingerprintChanges
            + Seam(Prints(t, a, b), Prints(t, b, c))
  {
    MergeOk(t, a, b, c);
    MergeTotals(t, a, b, c);
    SplitAt(t, a, b, c);
    ChangesConcat(Prints(t, a, b), Prints(t, b, c), Changed);
  }

  // ---------- Any number of buckets ----------

  /** What is needed of buckets between slot numbers: whether their rows fit, their rollup if they
      have one, and their fingerprints. */
  datatype Buckets = Buckets(
    fits: (int, int) -> bool, rollup: (int, int) -> Option<Rollup>, prints: (int, int) -> seq<seq<string>>)

  predicate MergesAt(s: Buckets, a: int, b: int, c: int) {
    && s.prints(a, c) == s.prints(a, b) + s.prints(b, c)
    && (s.fits(a, c) ==>
          && s.fits(a, b) && s.fits(b, c)
          && (s.rollup(a, c).Some? <==> s.rollup(a, b).Some? && s.rollup(b, c).Some?))
    && (s.fits(a, c) && s.rollup(a, c).Some? ==>
          && s.rollup(a, c).value.totals == AddTotals(s.rollup(a, b).value.totals, s.rollup(b, c).value.totals)
          && s.rollup(a, c).value.fingerprintChanges
             == s.rollup(a, b).value.fingerprintChanges + s.rollup(b, c).value.fingerprintChanges
                + Seam(s.prints(a, b), s.prints(b, c)))
  }

  ghost predicate Merging(s: Buckets) {
    forall a, b, c :: a <= b <= c ==> MergesAt(s, a, b, c)
  }

  function RollupIn(t: Tables, a: int, b: int): Option<Rollup> {
    if a <= b && Bucket(t, a, b).Ok? then Some(Bucket(t, a, b).value) else None
  }

  function BucketsOf(t: Tables): Buckets {
    Buckets((a: int, b: int) => Fits(t, a, b), (a: int, b: int) => RollupIn(t, a, b),
            (a: int, b: int) => Prints(t, a, b))
  }

  lemma MergesIfParts(s: Buckets, a: int, b: int, c: int)
    requires s.fits(a, c) ==> s.fits(a, b) && s.fits(b, c)
    requires s.prints(a, c) == s.prints(a, b) + s.prints(b, c)
    requires s.fits(a, c) ==> (s.rollup(a, c).Some? <==> s.rollup(a, b).Some? && s.rollup(b, c).Some?)
    requires s.rollup(a, c).Some? && s.rollup(a, b).Some? && s.rollup(b, c).Some? ==>
               && s.rollup(a, c).value.totals == AddTotals(s.rollup(a, b).value.totals, s.rollup(b, c).value.totals)
               && s.rollup(a, c).value.fingerprintChanges
                  == s.rollup(a, b).value.fingerprintChanges + s.rollup(b, c).value.fingerprintChanges
                     + Seam(s.prints(a, b), s.prints(b, c))
    ensures MergesAt(s, a, b, c)
  {}

  lemma BucketsMergeAt(t: Tables, a: int, b: int, c: int)
    requires InOrder(t) && a <= b <= c
    ensures MergesAt(BucketsOf(t), a, b, c)
  {
    SplitAt(t, a, b, c);
    if Fits(t, a, c) { MergeOk(t, a, b, c); }
    if Bucket(t, a, c).Ok? { Merge(t, a, b, c); }
    MergesIfParts(BucketsOf(t), a, b, c);
  }

  lemma BucketsMerge(t: Tables)
    requires InOrder(t)
    ensures Merging(BucketsOf(t))
  {
    forall a, b, c | a <= b <= c ensures MergesAt(BucketsOf(t), a, b, c) { BucketsMergeAt(t, a, b, c); }
  }

  predicate Ascending(cuts: seq<int>) {
    |cuts| >= 2 && forall i, j :: 0 <= i < j < |cuts| ==> cuts[i] <= cuts[j]
  }

  /** The fine buckets can all be computed and are `parts`. */
  predicate PartIs(s: Buckets, cuts: seq<int>, parts: seq<Rollup>, i: nat)
    requires Ascending(cuts) && |cuts| == |parts| + 1 && i < |parts|
  {
    s.rollup(cuts[i], cuts[i + 1]) == Some(parts[i])
  }

  predicate Computed(s: Buckets, cuts: seq<int>, parts: seq<Rollup>)
    requires Ascending(cuts)
  {
    |cuts| == |parts| + 1 && forall i :: 0 <= i < |parts| ==> PartIs(s, cuts, parts, i)
  }

  function AddedUp(parts: seq<Rollup>): Totals
    requires parts != []
  {
    var last := |parts| - 1;
    if last == 0 then parts[0].totals else AddTotals(AddedUp(parts[..last]), parts[last].totals)
  }

  function ChangesAddedUp(parts: seq<Rollup>): nat {
    if parts == [] then 0 else ChangesAddedUp(parts[..|parts| - 1]) + parts[|parts| - 1].fingerprintChanges
  }

  /** The changes that fall between two fine buckets. */
  function Seams(s: Buckets, cuts: seq<int>): nat
    requires Ascending(cuts)
  {
    var last := |cuts| - 1;
    if last == 1 then 0
    else Seams(s, cuts[..last]) + Seam(s.prints(cuts[0], cuts[last - 1]), s.prints(cuts[last - 1], cuts[last]))
  }

  /** Fine buckets with at least one fingerprint. */
  function Occupied(s: Buckets, cuts: seq<int>): nat
    requires Ascending(cuts)
  {
    var last := |cuts| - 1;
    var part := if s.prints(cuts[last - 1], cuts[last]) == [] then 0 else 1;
    if last == 1 then part else Occupied(s, cuts[..last]) + part
  }

  lemma {:induction false} SeamsBounded(s: Buckets, cuts: seq<int>)
    requires Merging(s) && Ascending(cuts)
    ensures s.prints(cuts[0], cuts[|cuts| - 1]) == [] <==> Occupied(s, cuts) == 0
    ensures Seams(s, cuts) <= SaturatingSub(Occupied(s, cuts), 1)
  {
    var last := |cuts| - 1;
    if last > 1 {
      SeamsBounded(s, cuts[..last]);
      assert MergesAt(s, cuts[0], cuts[last - 1], cuts[last]);
    }
  }

  /** If a coarse bucket can be computed, so can each of its parts. */
  lemma FineExists(s: Buckets, cuts: seq<int>, i: nat)
    requires Merging(s) && Ascending(cuts) && i < |cuts| - 1
    requires s.fits(cuts[0], cuts[|cuts| - 1]) && s.rollup(cuts[0], cuts[|cuts| - 1]).Some?
    ensures s.rollup(cuts[i], cuts[i + 1]).Some?
  {
    var first, end := cuts[0], cuts[|cuts| - 1];
    assert i > 0 ==> MergesAt(s, first, cuts[i], end);
    assert i + 1 < |cuts| - 1 ==> MergesAt(s, cuts[i], cuts[i + 1], end);
  }

  /** A coarse bucket whose rows fit can be computed when its parts can. Its totals are the sums
      of theirs; its changes exceed theirs by the changes at the seams. */
  lemma {:induction false} CoarseIsSumOfFine(s: Buckets, cuts: seq<int>, parts: seq<Rollup>)
    requires Merging(s) && Ascending(cuts) && Computed(s, cuts, parts) && s.fits(cuts[0], cuts[|cuts| - 1])
    ensures var coarse := s.rollup(cuts[0], cuts[|cuts| - 1]);
            coarse.Some? && coarse.value.totals == AddedUp(parts)
            && coarse.value.fingerprintChanges == ChangesAddedUp(parts) + Seams(s, cuts)
  {
    var last := |cuts| - 1;
    assert PartIs(s, cuts, parts, last - 1);
    if last > 1 {
      var front := parts[..last - 1];
      forall i | 0 <= i < |front| ensures PartIs(s, cuts[..last], front, i) {
        assert PartIs(s, cuts, parts, i);
      }
      assert MergesAt(s, cuts[0], cuts[last - 1], cuts[last]);
      CoarseIsSumOfFine(s, cuts[..last], front);
    }
  }

  /** Rollup coherence for stored tables: a coarse bucket within the row limit has a rollup exactly
      when all its fine buckets have one; its totals are their sums, and its fingerprint changes
      exceed the sum by at most one per fine bucket with a fingerprint, less one. */
  lemma RollupsCohere(t: Tables, cuts: seq<int>, parts: seq<Rollup>)
    requires InOrder(t) && Ascending(cuts) && Fits(t, cuts[0], cuts[|cuts| - 1]) && |cuts| == |parts| + 1
    requires forall i :: 0 <= i < |parts| ==> PartIs(BucketsOf(t), cuts, parts, i)
    ensures Bucket(t, cuts[0], cuts[|cuts| - 1]).Ok?
    ensures var coarse := Bucket(t, cuts[0], cuts[|cuts| - 1]).value;
            && coarse.totals == AddedUp(parts)
            && ChangesAddedUp(parts) <= coarse.fingerprintChanges
            && coarse.fingerprintChanges <= ChangesAddedUp(parts) + SaturatingSub(Occupied(BucketsOf(t), cuts), 1)
  {
    var s := BucketsOf(t);
    BucketsMerge(t);
    CoarseIsSumOfFine(s, cuts, parts);
    SeamsBounded(s, cuts);
  }

  lemma RollupsExist(t: Tables, cuts: seq<int>, i: nat)
    requires InOrder(t) && Ascending(cuts) && Bucket(t, cuts[0], cuts[|cuts| - 1]).Ok? && i < |cuts| - 1
    ensures Bucket(t, cuts[i], cuts[i + 1]).Ok?
  {
    BucketsMerge(t);
    FineExists(BucketsOf(t), cuts, i);
  }

  // ---------- Coverage ----------

  function AllStatuses(c: ByStatus): nat {
    c.healthy + c.degraded + c.unreachable + c.stale + c.disabled + c.unknown
  }

  lemma {:induction false} EachSlotCountedOnce(slots: map<int, nat>)
    requires forall s :: s in slots ==> slots[s] < STATUSES
    ensures AllStatuses(Statuses(slots)) == |slots|
    decreases |slots|
  {
    if slots != map[] {
      var s := Pick(slots);
      TakeSlot(slots, s);
      EachSlotCountedOnce(slots - {s});
    }
  }

  /** Every covered slot has one status, and a bucket never covers more slots than it has. */
  lemma Coverage(t: Tables, a: int, b: int)
    requires a <= b && Bucket(t, a, b).Ok?
    ensures AllStatuses(Bucket(t, a, b).value.totals.statuses) == Bucket(t, a, b).value.totals.covered
    ensures Bucket(t, a, b).value.totals.covered <= Bucket(t, a, b).value.expectedSlots == b - a
  {
    var slots := Slots(HistoryIn(t, a, b));
    SlotIndexes(HistoryIn(t, a, b));
    EachSlotCountedOnce(slots);
    SlotsInside(t, a, b);
    SubsetSize(slots.Keys, SlotRange(a, b));
  }

  // ---------- Percentiles ----------

  function UpTo(v: nat): nat -> bool { x => x <= v }

  function Below(v: nat): nat -> bool { x => x < v }

  lemma {:induction false} CountInserted(x: nat, s: seq<nat>, p: nat -> bool)
    ensures Count(Insert(x, s, AtMost), p) == Count(s, p) + One(p(x))
  {
    if s == [] || AtMost(x, s[0]) {
      CountConcat([x], s, p);
    } else {
      CountInserted(x, s[1..], p);
      CountConcat([s[0]], Insert(x, s[1..], AtMost), p);
      CountConcat([s[0]], s[1..], p);
      assert s == [s[0]] + s[1..];
    }
  }

  lemma {:induction false} CountSorted(s: seq<nat>, p: nat -> bool)
    ensures Count(Sort(s, AtMost), p) == Count(s, p)
  {
    if s != [] {
      CountSorted(s[1..], p);
      CountInserted(s[0], Sort(s[1..], AtMost), p);
      CountConcat([s[0]], s[1..], p);
      assert s == [s[0]] + s[1..];
    }
  }

  lemma {:induction false} CountBounds(s: seq<nat>, p: nat -> bool, k: nat)
    requires k <= |s|
    ensures (forall i :: 0 <= i < k ==> p(s[i])) ==> Count(s, p) >= k
    ensures (forall i :: k <= i < |s| ==> !p(s[i])) ==> Count(s, p) <= k
  {
    if k < |s| {
      CountBounds(s[..|s| - 1], p, k);
    } else if s != [] {
      CountBounds(s[..|s| - 1], p, k - 1);
    }
  }

  /** At least `percent` in a hundred are at most `v`, and fewer are below it. */
  predicate NearestRank(values: seq<nat>, percent: nat, v: nat) {
    && v in values
    && 100 * Count(values, UpTo(v)) >= percent * |values|
    && 100 * Count(values, Below(v)) < percent * |values|
  }

  lemma {:induction false} CountGrows(s: seq<nat>, p: nat -> bool, q: nat -> bool)
    requires forall x :: p(x) ==> q(x)
    ensures Count(s, p) <= Count(s, q)
  {
    if s != [] { CountGrows(s[..|s| - 1], p, q); }
  }

  /** There is at most one such value. */
  lemma NearestRankUnique(values: seq<nat>, percent: nat, v: nat, w: nat)
    requires NearestRank(values, percent, v) && NearestRank(values, percent, w)
    ensures v == w
  {
    if v < w { CountGrows(values, UpTo(v), Below(w)); }
    if w < v { CountGrows(values, UpTo(w), Below(v)); }
  }

  lemma RankBounds(percent: nat, n: nat)
    requires 0 < percent <= 100 && n > 0
    ensures var rank := (percent * n + 99) / 100; 1 <= rank <= n && 100 * (rank - 1) < percent * n <= 100 * rank
  {
    assert 1 <= percent * n <= 100 * n;
  }

  lemma AtRank(sorted: seq<nat>, rank: nat)
    requires Sorted(sorted, AtMost) && 1 <= rank <= |sorted|
    ensures Count(sorted, UpTo(sorted[rank - 1])) >= rank
    ensures Count(sorted, Below(sorted[rank - 1])) < rank
  {
    var v := sorted[rank - 1];
    CountBounds(sorted, UpTo(v), rank);
    CountBounds(sorted, Below(v), rank - 1);
  }

  lemma ValueAtRank(values: seq<nat>, rank: nat)
    requires 1 <= rank <= |values|
    ensures |Sort(values, AtMost)| == |values|
    ensures var v := Sort(values, AtMost)[rank - 1];
            v in values && Count(values, UpTo(v)) >= rank && Count(values, Below(v)) < rank
  {
    var sorted := Sort(values, AtMost);
    SortCorrect(values, AtMost);
    assert |sorted| == |multiset(sorted)| == |multiset(values)| == |values|;
    var v := sorted[rank - 1];
    assert v in multiset(sorted);
    AtRank(sorted, rank);
    CountSorted(values, UpTo(v));
    CountSorted(values, Below(v));
  }

  /** The reported percentile of unsorted samples is a nearest-rank value of them. */
  lemma PercentileIsNearestRank(values: seq<nat>, percent: nat)
    requires values != [] && 0 < percent <= 100
    ensures Percentile(Sort(values, AtMost), percent).Some?
    ensures NearestRank(values, percent, Percentile(Sort(values, AtMost), percent).value)
  {
    RankBounds(percent, |values|);
    ValueAtRank(values, (percent * |values| + 99) / 100);
  }

  /** A rollup reports the 50th and 95th nearest-rank percentile of its duration samples, and none
      exactly when it has no sample. */
  lemma RollupPercentiles(history: seq<HistoryRow>, observations: seq<Observation>, bucketSeconds: nat)
    requires AllValid(history)
    ensures var r := RollupOf(history, observations, bucketSeconds).value;
            var samples := Durations(observations);
            && |samples| == r.totals.tally.timed
            && (r.p50.None? <==> samples == []) && (r.p95.None? <==> samples == [])
            && (r.p50.Some? ==> NearestRank(samples, 50, r.p50.value))
            && (r.p95.Some? ==> NearestRank(samples, 95, r.p95.value))
  {
    var samples := Durations(observations);
    Lengths(observations);
    if samples != [] {
      PercentileIsNearestRank(samples, 50);
      PercentileIsNearestRank(samples, 95);
    }
  }
}
