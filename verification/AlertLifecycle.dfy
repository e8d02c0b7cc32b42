/** Alerts: evaluation, silencing and resolution as optimistic transactions. Each one is computed
    from a snapshot and commits only if the rows it read are still the stored ones. */
module AlertLifecycle {
  import opened AlertCandidates
  import opened Outcomes

  const MAX_EVALUATION_RECORDS: nat := 1_000

  datatype AlertState = Open | Silenced | Resolved

  datatype Alert = Alert(
    alertId: string, severity: string, reason: string, state: AlertState, firstSeenAt: int, lastSeenAt: int,
    lastSentAt: Option<int>, resolvedAt: Option<int>, silencedUntil: Option<int>)

  /** The alert table, by dedupe key. */
  type Alerts = map<string, Alert>

  datatype Entry = Entry(key: string, before: Option<Alert>, after: Alert)

  datatype AlertError = InvalidWrite | Conflict | AlertNotFound

  function Get(alerts: Alerts, key: string): Option<Alert> {
    if key in alerts then Some(alerts[key]) else None
  }

  predicate StillSilenced(alert: Alert, now: int) {
    alert.state.Silenced? && alert.silencedUntil.Some? && alert.silencedUntil.value > now
  }

  /** The row a candidate turns into, given what the snapshot held. */
  function CandidateRecord(existing: Option<Alert>, c: Candidate, now: int, freshId: string): Alert {
    match existing
    case None => Alert(freshId, c.severity, c.reason, Open, now, now, None, None, None)
    case Some(was) =>
      var keep := StillSilenced(was, now);
      Alert(was.alertId, c.severity, c.reason, if keep then Silenced else Open, was.firstSeenAt, now,
            was.lastSentAt, if keep then was.resolvedAt else None, was.silencedUntil)
  }

  function EntryFor(snapshot: Alerts, c: Candidate, now: int, freshId: string): Entry {
    Entry(c.key, Get(snapshot, c.key), CandidateRecord(Get(snapshot, c.key), c, now, freshId))
  }

  function Entries(snapshot: Alerts, candidates: seq<Candidate>, now: int, ids: int -> string): (r: seq<Entry>)
    ensures |r| == |candidates|
    ensures forall i :: 0 <= i < |candidates| ==> r[i] == EntryFor(snapshot, candidates[i], now, ids(i))
  {
    seq(|candidates|, i requires 0 <= i < |candidates| => EntryFor(snapshot, candidates[i], now, ids(i)))
  }

  function SilencedAlert(was: Alert, until: int): Alert {
    was.(state := Silenced, resolvedAt := None, silencedUntil := Some(until))
  }

  function ResolvedAlert(was: Alert, now: int): Alert {
    was.(state := Resolved, resolvedAt := Some(now), lastSeenAt := now)
  }

  // ---------- Writes ----------

  predicate KeysAndIdsDistinct(entries: seq<Entry>) {
    forall i, j :: 0 <= i < j < |entries| ==>
                   entries[i].key != entries[j].key && entries[i].after.alertId != entries[j].after.alertId
  }

  predicate ValidEvaluation(entries: seq<Entry>) {
    && 1 <= |entries| <= MAX_EVALUATION_RECORDS
    && (forall i :: 0 <= i < |entries| && entries[i].before.Some? ==>
                    entries[i].before.value.alertId == entries[i].after.alertId)
    && (forall i :: 0 <= i < |entries| ==> !entries[i].after.state.Resolved?)
    && KeysAndIdsDistinct(entries)
  }

  /** No other row holds the primary key. */
  predicate IdFree(alerts: Alerts, key: string, id: string) {
    forall k :: k in alerts && k != key ==> alerts[k].alertId != id
  }

  function Upsert(alerts: Alerts, e: Entry): Result<Alerts, AlertError> {
    if Get(alerts, e.key) != e.before then Err(Conflict)
    else if !IdFree(alerts, e.key, e.after.alertId) then Err(InvalidWrite)
    else Ok(alerts[e.key := e.after])
  }

  function Upserts(alerts: Alerts, entries: seq<Entry>): Result<Alerts, AlertError> {
    if entries == [] then Ok(alerts)
    else
      match Upserts(alerts, entries[..|entries| - 1])
      case Err(e) => Err(e)
      case Ok(done) => Upsert(done, entries[|entries| - 1])
  }

  /** All entries or none. */
  function WriteEvaluation(alerts: Alerts, entries: seq<Entry>): Result<Alerts, AlertError> {
    if ValidEvaluation(entries) then Upserts(alerts, entries) else Err(InvalidWrite)
  }

  lemma {:induction false} UpsertsFailEarly(alerts: Alerts, entries: seq<Entry>, n: nat)
    requires n <= |entries| && Upserts(alerts, entries[..n]).Err?
    ensures Upserts(alerts, entries) == Upserts(alerts, entries[..n])
  {
    if n == |entries| {
      assert entries[..n] == entries;
    } else {
      assert entries[..|entries| - 1][..n] == entries[..n];
      UpsertsFailEarly(alerts, entries[..|entries| - 1], n);
    }
  }

  class AlertStore {
    var alerts: Alerts

    constructor ()
      ensures alerts == map[]
    {
      alerts := map[];
    }

    method WriteAlertEvaluation(entries: seq<Entry>) returns (error: Option<AlertError>)
      modifies this
      ensures match WriteEvaluation(old(alerts), entries) {
                case Ok(after) => alerts == after && error == None
                case Err(e) => alerts == old(alerts) && error == Some(e)
              }
    {
      if !ValidEvaluation(entries) { return Some(InvalidWrite); }
      var tx := alerts;
      for i := 0 to |entries|
        invariant alerts == old(alerts) && Upserts(alerts, entries[..i]) == Ok(tx)
      {
        var entry := entries[i];
        assert entries[..i + 1][..i] == entries[..i];
        if Get(tx, entry.key) != entry.before {
          UpsertsFailEarly(alerts, entries, i + 1);
          return Some(Conflict);
        }
        if !IdFree(tx, entry.key, entry.after.alertId) {
          UpsertsFailEarly(alerts, entries, i + 1);
          return Some(InvalidWrite);
        }
        tx := tx[entry.key := entry.after];
      }
      assert entries[..|entries|] == entries;
      alerts := tx;
      error := None;
    }

    /** `alert.silence` and `alert.resolve`, and the finalisation of a delivery. */
    method WriteTransition(entry: Entry) returns (error: Option<AlertError>)
      modifies this
      ensures match Upsert(old(alerts), entry) {
                case Ok(after) => alerts == after && error == None
                case Err(e) => alerts == old(alerts) && error == Some(e)
              }
    {
      if Get(alerts, entry.key) != entry.before { return Some(Conflict); }
      if !IdFree(alerts, entry.key, entry.after.alertId) { return Some(InvalidWrite); }
      alerts := alerts[entry.key := entry.after];
      error := None;
    }

    method EvaluateAlerts(snapshot: Alerts, candidates: seq<Candidate>, now: int, ids: int -> string)
      returns (error: Option<AlertError>)
      modifies this
      ensures alerts == Commit(old(alerts), Evaluate(snapshot, candidates, now, ids))
      ensures error.Some? <==>
              candidates != [] && WriteEvaluation(old(alerts), Entries(snapshot, candidates, now, ids)).Err?
    {
      var entries: seq<Entry> := [];
      for i := 0 to |candidates|
        invariant alerts == old(alerts)
        invariant entries == Entries(snapshot, candidates, now, ids)[..i]
      {
        entries := entries + [EntryFor(snapshot, candidates[i], now, ids(i))];
      }
      assert entries == Entries(snapshot, candidates, now, ids);
      if entries == [] { return None; }
      error := WriteAlertEvaluation(entries);
    }
  }

  // ---------- Runs ----------

  /** Transactions, each with the snapshot it was computed from. */
  datatype Step =
    | Evaluate(snapshot: Alerts, candidates: seq<Candidate>, now: int, ids: int -> string)
    | Silence(key: string, snapshot: Alerts, until: int)
    | Resolve(key: string, snapshot: Alerts, now: int)
    | Sent(key: string, at: int)

  function Try(alerts: Alerts, r: Result<Alerts, AlertError>): Alerts {
    if r.Ok? then r.value else alerts
  }

  function Commit(alerts: Alerts, step: Step): Alerts {
    match step
    case Evaluate(snapshot, candidates, now, ids) =>
      Try(alerts, WriteEvaluation(alerts, Entries(snapshot, candidates, now, ids)))
    case Silence(key, snapshot, until) =>
      if key !in snapshot then alerts
      else Try(alerts, Upsert(alerts, Entry(key, Some(snapshot[key]), SilencedAlert(snapshot[key], until))))
    case Resolve(key, snapshot, now) =>
      if key !in snapshot then alerts
      else Try(alerts, Upsert(alerts, Entry(key, Some(snapshot[key]), ResolvedAlert(snapshot[key], now))))
    case Sent(key, at) =>
      if key !in alerts then alerts else alerts[key := alerts[key].(lastSentAt := Some(at))]
  }

  function After(alerts: Alerts, run: seq<Step>): Alerts
    decreases |run|
  {
    if run == [] then alerts else Commit(After(alerts, run[..|run| - 1]), run[|run| - 1])
  }

  // ---------- What one transaction does to one key ----------

  lemma {:induction false} UpsertsElsewhere(alerts: Alerts, entries: seq<Entry>, key: string)
    requires Upserts(alerts, entries).Ok? && forall i :: 0 <= i < |entries| ==> entries[i].key != key
    ensures Get(Upserts(alerts, entries).value, key) == Get(alerts, key)
  {
    if entries != [] { UpsertsElsewhere(alerts, entries[..|entries| - 1], key); }
  }

  lemma {:induction false} UpsertsAt(alerts: Alerts, entries: seq<Entry>, i: nat)
    requires Upserts(alerts, entries).Ok? && KeysAndIdsDistinct(entries) && i < |entries|
    ensures entries[i].before == Get(alerts, entries[i].key)
    ensures Get(Upserts(alerts, entries).value, entries[i].key) == Some(entries[i].after)
  {
    var front := entries[..|entries| - 1];
    if i == |front| { UpsertsElsewhere(alerts, front, entries[i].key); } else { UpsertsAt(alerts, front, i); }
  }

  /** An evaluation leaves a key alone or writes the record of a candidate computed from the very
      row that is stored. */
  lemma EvaluateShape(alerts: Alerts, step: Step, key: string) returns (c: Option<(Candidate, string)>)
    requires step.Evaluate?
    ensures c.None? ==> Get(Commit(alerts, step), key) == Get(alerts, key)
    ensures c.Some? ==>
              Get(Commit(alerts, step), key) == Some(CandidateRecord(Get(alerts, key), c.value.0, step.now, c.value.1))
  {
    var entries := Entries(step.snapshot, step.candidates, step.now, step.ids);
    if WriteEvaluation(alerts, entries).Err? {
      c := None;
    } else if i :| 0 <= i < |entries| && entries[i].key == key {
      UpsertsAt(alerts, entries, i);
      c := Some((step.candidates[i], step.ids(i)));
    } else {
      UpsertsElsewhere(alerts, entries, key);
      c := None;
    }
  }

  // ---------- Invariants of every run ----------

  predicate MarkAgrees(a: Alert) {
    a.resolvedAt.Some? <==> a.state.Resolved?
  }

  lemma KeyStep(alerts: Alerts, step: Step, key: string)
    ensures (key in alerts ==> MarkAgrees(alerts[key])) ==>
            (key in Commit(alerts, step) ==> MarkAgrees(Commit(alerts, step)[key]))
    ensures key in alerts ==> key in Commit(alerts, step)
    ensures key in alerts ==> Commit(alerts, step)[key].alertId == alerts[key].alertId
    ensures key in alerts ==> Commit(alerts, step)[key].firstSeenAt == alerts[key].firstSeenAt
  {
    if step.Evaluate? { var c := EvaluateShape(alerts, step, key); }
  }

  /** An alert carries a resolution time exactly while it is resolved. */
  lemma {:induction false} ResolutionMarked(run: seq<Step>, key: string)
    ensures key in After(map[], run) ==> MarkAgrees(After(map[], run)[key])
  {
    if run != [] {
      ResolutionMarked(run[..|run| - 1], key);
      KeyStep(After(map[], run[..|run| - 1]), run[|run| - 1], key);
    }
  }

  /** A dedupe key keeps its alert and its first sighting forever. */
  lemma {:induction false} IdentityKept(alerts: Alerts, run: seq<Step>, key: string)
    requires key in alerts
    ensures key in After(alerts, run)
    ensures After(alerts, run)[key].alertId == alerts[key].alertId
    ensures After(alerts, run)[key].firstSeenAt == alerts[key].firstSeenAt
    decreases |run|
  {
    if run != [] {
      IdentityKept(alerts, run[..|run| - 1], key);
      KeyStep(After(alerts, run[..|run| - 1]), run[|run| - 1], key);
    }
  }

  predicate IdsDistinct(alerts: Alerts) {
    forall k :: k in alerts ==> IdFree(alerts, k, alerts[k].alertId)
  }

  lemma UpsertKeepsIds(alerts: Alerts, e: Entry)
    requires IdsDistinct(alerts) && Upsert(alerts, e).Ok?
    ensures IdsDistinct(Upsert(alerts, e).value)
  {
    var after := alerts[e.key := e.after];
    forall k | k in after ensures IdFree(after, k, after[k].alertId) {
      if k != e.key { assert IdFree(alerts, k, alerts[k].alertId); }
    }
  }

  lemma {:induction false} UpsertsKeepIds(alerts: Alerts, entries: seq<Entry>)
    requires IdsDistinct(alerts) && Upserts(alerts, entries).Ok?
    ensures IdsDistinct(Upserts(alerts, entries).value)
  {
    if entries != [] {
      UpsertsKeepIds(alerts, entries[..|entries| - 1]);
      UpsertKeepsIds(Upserts(alerts, entries[..|entries| - 1]).value, entries[|entries| - 1]);
    }
  }

  lemma IdsStep(alerts: Alerts, step: Step)
    requires IdsDistinct(alerts)
    ensures IdsDistinct(Commit(alerts, step))
  {
    match step
    case Evaluate(snapshot, candidates, now, ids) =>
      var entries := Entries(snapshot, candidates, now, ids);
      if WriteEvaluation(alerts, entries).Ok? { UpsertsKeepIds(alerts, entries); }
    case Silence(key, snapshot, until) =>
      if key in snapshot {
        var e := Entry(key, Some(snapshot[key]), SilencedAlert(snapshot[key], until));
        if Upsert(alerts, e).Ok? { UpsertKeepsIds(alerts, e); }
      }
    case Resolve(key, snapshot, now) =>
      if key in snapshot {
        var e := Entry(key, Some(snapshot[key]), ResolvedAlert(snapshot[key], now));
        if Upsert(alerts, e).Ok? { UpsertKeepsIds(alerts, e); }
      }
    case Sent(key, at) =>
      if key in alerts {
        assert IdFree(alerts, key, alerts[key].alertId);
        UpsertKeepsIds(alerts, Entry(key, Some(alerts[key]), alerts[key].(lastSentAt := Some(at))));
      }
  }

  /** In every run no two dedupe keys share an alert. */
  lemma {:induction false} OneKeyPerAlert(run: seq<Step>)
    ensures IdsDistinct(After(map[], run))
  {
    if run != [] {
      OneKeyPerAlert(run[..|run| - 1]);
      IdsStep(After(map[], run[..|run| - 1]), run[|run| - 1]);
    }
  }

  // ---------- Silences hold ----------

  /** Nobody acts on the key and every evaluation is before `until`. */
  predicate Quiet(step: Step, key: string, until: int) {
    match step
    case Evaluate(_, _, now, _) => now < until
    case Silence(k, _, _) => k != key
    case Resolve(k, _, _) => k != key
    case Sent(_, _) => true
  }

  predicate HeldSilent(alerts: Alerts, key: string, until: int) {
    key in alerts && alerts[key].state.Silenced? && alerts[key].silencedUntil == Some(until)
  }

  lemma SilentStep(alerts: Alerts, step: Step, key: string, until: int)
    requires HeldSilent(alerts, key, until) && Quiet(step, key, until)
    ensures HeldSilent(Commit(alerts, step), key, until)
  {
    if step.Evaluate? { var c := EvaluateShape(alerts, step, key); }
  }

  /** A silence lasts until its time whatever is evaluated meanwhile. */
  lemma {:induction false} SilenceHolds(alerts: Alerts, run: seq<Step>, key: string, until: int)
    requires HeldSilent(alerts, key, until)
    requires forall i :: 0 <= i < |run| ==> Quiet(run[i], key, until)
    ensures HeldSilent(After(alerts, run), key, until)
    decreases |run|
  {
    if run != [] {
      SilenceHolds(alerts, run[..|run| - 1], key, until);
      SilentStep(After(alerts, run[..|run| - 1]), run[|run| - 1], key, until);
    }
  }

  /** An evaluation that commits a candidate for a silenced key reopens it exactly when the
      silence has run out. */
  lemma ReopensWhenDue(alerts: Alerts, step: Step, i: nat, until: int)
    requires step.Evaluate? && i < |step.candidates| && HeldSilent(alerts, step.candidates[i].key, until)
    requires WriteEvaluation(alerts, Entries(step.snapshot, step.candidates, step.now, step.ids)).Ok?
    ensures step.candidates[i].key in Commit(alerts, step)
    ensures Commit(alerts, step)[step.candidates[i].key].state.Open? <==> until <= step.now
  {
    UpsertsAt(alerts, Entries(step.snapshot, step.candidates, step.now, step.ids), i);
  }

  /** A committed candidate shows: its severity and reason, seen now, and nothing forgotten about
      deliveries and silences. */
  lemma EvaluationShowsCandidate(alerts: Alerts, step: Step, i: nat)
    requires step.Evaluate? && i < |step.candidates|
    requires WriteEvaluation(alerts, Entries(step.snapshot, step.candidates, step.now, step.ids)).Ok?
    ensures var c, after := step.candidates[i], Commit(alerts, step);
            && c.key in after && after[c.key].severity == c.severity && after[c.key].reason == c.reason
            && after[c.key].lastSeenAt == step.now && !after[c.key].state.Resolved?
            && (c.key in alerts ==> after[c.key].lastSentAt == alerts[c.key].lastSentAt
                                    && after[c.key].silencedUntil == alerts[c.key].silencedUntil)
            && (c.key !in alerts ==> after[c.key].firstSeenAt == step.now && after[c.key].state.Open?)
  {
    UpsertsAt(alerts, Entries(step.snapshot, step.candidates, step.now, step.ids), i);
  }

  /** An operator's action takes effect exactly if the row they saw is still stored. */
  lemma ActionTakesEffect(alerts: Alerts, step: Step)
    requires IdsDistinct(alerts) && (step.Silence? || step.Resolve?)
    requires step.key in step.snapshot
    ensures var after := Commit(alerts, step);
            if Get(alerts, step.key) == Some(step.snapshot[step.key]) then
              && step.key in after
              && (step.Silence? ==> HeldSilent(after, step.key, step.until))
              && (step.Resolve? ==> after[step.key].state.Resolved? && after[step.key].resolvedAt == Some(step.now))
              && (step.Resolve? ==> after[step.key].lastSeenAt == step.now)
              && (step.Silence? ==> after[step.key].lastSeenAt == alerts[step.key].lastSeenAt)
              && after[step.key].severity == alerts[step.key].severity
              && after[step.key].reason == alerts[step.key].reason
              && after[step.key].lastSentAt == alerts[step.key].lastSentAt
            else after == alerts
  {
    if step.key in alerts { assert IdFree(alerts, step.key, alerts[step.key].alertId); }
  }

  // ---------- What ends a silence ----------

  predicate IsSilenced(alerts: Alerts, key: string) { key in alerts && alerts[key].state.Silenced? }

  /** The step resolves the alert, or evaluates it when its silence has run out. */
  predicate EndsSilence(alerts: Alerts, step: Step, key: string) {
    || (step.Resolve? && step.key == key)
    || (step.Evaluate? && key in alerts && !StillSilenced(alerts[key], step.now))
  }

  /** Whatever the step: a silenced alert stays silenced, perhaps until another time, unless it is
      resolved or evaluated after its silence, and only the evaluation opens it. */
  lemma SilenceStep(alerts: Alerts, step: Step, key: string)
    requires IsSilenced(alerts, key)
    ensures key in Commit(alerts, step)
    ensures !IsSilenced(Commit(alerts, step), key) ==> EndsSilence(alerts, step, key)
    ensures Commit(alerts, step)[key].state.Open? ==> step.Evaluate?
  {
    if step.Evaluate? { var c := EvaluateShape(alerts, step, key); }
  }

  /** In every run, with any number of further silences, a silence that is over was ended by a
      resolution or by an evaluation at or after the end it then had. */
  lemma {:induction false} SilenceEndedBy(alerts: Alerts, run: seq<Step>, key: string) returns (i: nat)
    requires IsSilenced(alerts, key) && !IsSilenced(After(alerts, run), key)
    ensures i < |run| && IsSilenced(After(alerts, run[..i]), key) && EndsSilence(After(alerts, run[..i]), run[i], key)
    decreases |run|
  {
    var init := run[..|run| - 1];
    if IsSilenced(After(alerts, init), key) {
      i := |init|;
      SilenceStep(After(alerts, init), run[i], key);
    } else {
      i := SilenceEndedBy(alerts, init, key);
      assert init[..i] == run[..i];
    }
  }
}
