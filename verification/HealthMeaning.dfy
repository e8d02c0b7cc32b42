/** What the numbers of a health rollup mean in terms of the rows it is made from. */
module HealthMeaning {
  import opened HealthRollup
  import opened HealthWindows
  import opened Outcomes

  // ---------- Tallies ----------

  /** The rows that satisfy `p`, by position. */
  function Where<T>(rows: seq<T>, p: T -> bool): set<int> {
    set i | 0 <= i < |rows| && p(rows[i])
  }

  lemma {:induction false} CountIsSize<T>(rows: seq<T>, p: T -> bool)
    ensures Count(rows, p) == |Where(rows, p)|
  {
    if rows == [] {
      assert Where(rows, p) == {};
    } else {
      var n := |rows| - 1;
      CountIsSize(rows[..n], p);
      assert Where(rows, p) == Where(rows[..n], p) + if p(rows[n]) then {n} else {};
    }
  }

  /** The tally counts the observations with a result, with a failure, with a duration, the
      fingerprints, and the certificates of each class. */
  lemma TallyMeans(rows: seq<Observation>)
    ensures var t := TallyOf(rows);
            && t.classified == |set i | 0 <= i < |rows| && rows[i].ok != None|
            && t.errors == |set i | 0 <= i < |rows| && rows[i].ok == Some(false)|
            && t.timed == |set i | 0 <= i < |rows| && rows[i].durationMs != None|
            && t.fingerprints == |Prints(rows)|
            && t.certWarnings == |set i | 0 <= i < |rows| && CertWarning(rows[i])|
            && t.certCriticals == |set i | 0 <= i < |rows| && CertCritical(rows[i])|
  {
    CountIsSize(rows, CertWarning);
    CountIsSize(rows, CertCritical);
    CountIsSize(rows, Classified);
    CountIsSize(rows, Errored);
    CountIsSize(rows, Timed);
    CountIsSize(rows, Fingerprinted);
    assert Where(rows, Classified) == set i | 0 <= i < |rows| && rows[i].ok != None;
    assert Where(rows, Errored) == set i | 0 <= i < |rows| && rows[i].ok == Some(false);
    assert Where(rows, Timed) == set i | 0 <= i < |rows| && rows[i].durationMs != None;
    assert Where(rows, Fingerprinted) == Prints(rows);
    assert Where(rows, CertWarning) == set i | 0 <= i < |rows| && CertWarning(rows[i]);
    assert Where(rows, CertCritical) == set i | 0 <= i < |rows| && CertCritical(rows[i]);
  }

  // ---------- Fingerprint changes ----------

  /** The observations that carry a fingerprint. */
  function Prints(rows: seq<Observation>): set<int> {
    set i | 0 <= i < |rows| && rows[i].kind == ConfigFingerprint && |rows[i].aliases| > 0
  }

  /** `i` and `j` carry consecutive fingerprints. */
  predicate Neighbours(rows: seq<Observation>, i: int, j: int) {
    i in Prints(rows) && j in Prints(rows) && i < j && forall k :: i < k < j ==> k !in Prints(rows)
  }

  predicate Disjoint(a: seq<string>, b: seq<string>) { forall x :: x in a ==> x !in b }

  /** The fingerprint at `j` has no alias in common with the one before it. */
  ghost predicate ChangesAt(rows: seq<Observation>, j: int) {
    exists i :: Neighbours(rows, i, j) && Disjoint(rows[i].aliases, rows[j].aliases)
  }

  ghost function ChangePoints(rows: seq<Observation>): set<int> {
    set j | 0 <= j < |rows| && ChangesAt(rows, j)
  }

  /** The last fingerprint collected is that of the last observation with one. */
  lemma {:induction false} LastPrint(rows: seq<Observation>) returns (i: int)
    ensures Fingerprints(rows) == [] ==> Prints(rows) == {}
    ensures Fingerprints(rows) != [] ==>
              && i in Prints(rows) && (forall k :: k in Prints(rows) ==> k <= i)
              && Fingerprints(rows)[|Fingerprints(rows)| - 1] == rows[i].aliases
  {
    i := |rows| - 1;
    if rows != [] && !Fingerprinted(rows[i]) {
      var n := i;
      i := LastPrint(rows[..n]);
      assert Prints(rows) == Prints(rows[..n]);
    }
  }

  lemma NeighboursInPrefix(rows: seq<Observation>, n: nat, i: int, j: int)
    requires n <= |rows| && j < n
    ensures Neighbours(rows[..n], i, j) <==> Neighbours(rows, i, j)
  {
    assert forall k :: k < n ==> (k in Prints(rows[..n]) <==> k in Prints(rows));
  }

  lemma ChangesInPrefix(rows: seq<Observation>, n: nat)
    requires n + 1 == |rows|
    ensures ChangePoints(rows) == ChangePoints(rows[..n]) + if ChangesAt(rows, n) then {n} else {}
  {
    forall j | 0 <= j < n ensures ChangesAt(rows, j) <==> ChangesAt(rows[..n], j) {
      forall i ensures Neighbours(rows[..n], i, j) <==> Neighbours(rows, i, j) { NeighboursInPrefix(rows, n, i, j); }
    }
  }

  /** A new fingerprint counts as a change exactly if the last one collected shares no alias with it. */
  lemma LastChange(rows: seq<Observation>)
    requires rows != []
    ensures var n := |rows| - 1;
            var before := Fingerprints(rows[..n]);
            ChangesAt(rows, n) <==>
            Fingerprinted(rows[n]) && before != [] && Changed(before[|before| - 1], rows[n].aliases)
  {
    var n := |rows| - 1;
    var before := Fingerprints(rows[..n]);
    var i := LastPrint(rows[..n]);
    assert forall k :: k < n ==> (k in Prints(rows[..n]) <==> k in Prints(rows));
    if Fingerprinted(rows[n]) && before != [] {
      assert Neighbours(rows, i, n);
      assert forall k :: Neighbours(rows, k, n) ==> k == i;
    }
  }

  lemma ChangesAppend(prints: seq<seq<string>>, x: seq<string>)
    ensures Changes(prints + [x], Changed)
         == Changes(prints, Changed) + if prints != [] && Changed(prints[|prints| - 1], x) then 1 else 0
  {
    assert (prints + [x])[..|prints|] == prints;
  }

  /** The reported changes are the fingerprints that share no alias with the one before them. */
  lemma {:induction false} ChangesMean(rows: seq<Observation>)
    ensures Changes(Fingerprints(rows), Changed) == |ChangePoints(rows)|
  {
    if rows == [] {
      assert ChangePoints(rows) == {};
    } else {
      var n := |rows| - 1;
      var before := Fingerprints(rows[..n]);
      ChangesMean(rows[..n]);
      ChangesInPrefix(rows, n);
      LastChange(rows);
      ChangesAppend(before, rows[n].aliases);
    }
  }

  // ---------- The whole rollup ----------

  /** The slots of the evaluations. */
  function Covered(history: seq<HistoryRow>): set<int> {
    set i | 0 <= i < |history| :: SlotOf(history[i].computedAt)
  }

  lemma {:induction false} CoveredSlots(history: seq<HistoryRow>)
    requires AllValid(history)
    ensures Slots(history).Keys == Covered(history)
  {
    if history != [] {
      var n := |history| - 1;
      CoveredSlots(history[..n]);
      assert Covered(history) == Covered(history[..n]) + {SlotOf(history[n].computedAt)};
    }
  }

  /** What a rollup says about its rows. */
  lemma RollupMeans(history: seq<HistoryRow>, observations: seq<Observation>, bucketSeconds: nat)
    requires RollupOf(history, observations, bucketSeconds).Ok?
    ensures var r := RollupOf(history, observations, bucketSeconds).value;
            && r.totals.covered == |Covered(history)| && r.expectedSlots == bucketSeconds / 300
            && r.totals.tally.errors == |set i | 0 <= i < |observations| && observations[i].ok == Some(false)|
            && r.fingerprintChanges == |ChangePoints(observations)|
  {
    CoveredSlots(history);
    TallyMeans(observations);
    ChangesMean(observations);
  }

  // ---------- Which rows a bucket is made from ----------

  /** A window has every row of its half-open interval, as often as the table, and no other row. */
  lemma {:induction false} WindowHolds<T>(rows: seq<T>, at: T -> int, lo: int, hi: int, row: T)
    ensures multiset(Window(rows, at, lo, hi))[row] == if lo <= at(row) < hi then multiset(rows)[row] else 0
  {
    if rows != [] {
      var n := |rows| - 1;
      WindowHolds(rows[..n], at, lo, hi, row);
      assert rows == rows[..n] + [rows[n]];
    }
  }

  /** A status that one of the counters is named after. */
  predicate Named(r: HistoryRow) {
    r.status in {"healthy", "degraded", "unreachable", "stale", "disabled", "unknown"}
  }

  predicate AllNamedIn(t: Tables, from: int, to: int) {
    forall i :: 0 <= i < |t.history| && from <= t.history[i].computedAt < to ==> Named(t.history[i])
  }

  lemma NamedInWindow(t: Tables, a: int, b: int)
    ensures AllValid(HistoryIn(t, a, b)) <==> AllNamedIn(t, a * 300 * SECOND, b * 300 * SECOND)
  {
    var rows := HistoryIn(t, a, b);
    forall row ensures row in rows <==> row in t.history && a * SLOT <= row.computedAt < b * SLOT {
      WindowHolds(t.history, ComputedAt, a * SLOT, b * SLOT, row);
      assert row in multiset(rows) <==> row in rows;
      assert row in multiset(t.history) <==> row in t.history;
    }
    if AllValid(rows) {
      forall i | 0 <= i < |t.history| && a * SLOT <= t.history[i].computedAt < b * SLOT ensures Named(t.history[i]) {
        assert t.history[i] in rows;
      }
    } else {
      var k :| 0 <= k < |rows| && StatusIndex(rows[k].status).None?;
      assert rows[k] in t.history && !Named(rows[k]);
    }
  }

  /** A bucket of slots is computed exactly if it has at most a hundred thousand rows of either kind and every
      status in it has a counter. */
  lemma ComputedIff(t: Tables, a: int, b: int)
    requires a <= b
    ensures var r := Bucket(t, a, b);
            var few := |HistoryIn(t, a, b)| <= 100_000 && |ObservationsIn(t, a, b)| <= 100_000;
            var named := AllNamedIn(t, a * 300 * SECOND, b * 300 * SECOND);
            && (r.Ok? <==> few && named)
            && (r == Err(TooManyRows) <==> !few) && (r == Err(InvalidStatus) <==> few && !named)
            && (r.Ok? ==> r.value.expectedSlots == b - a)
  {
    NamedInWindow(t, a, b);
  }
}
