/** Which alert evaluations commit: those whose snapshot still agrees with the table. */
module AlertCommits {
  import opened AlertCandidates
  import opened AlertLifecycle
  import opened Outcomes

  /** The rows the entries were computed from are the stored ones. */
  predicate UpToDate(alerts: Alerts, entries: seq<Entry>) {
    forall i :: 0 <= i < |entries| ==> Get(alerts, entries[i].key) == entries[i].before
  }

  /** No other row has the alert id of an entry. */
  predicate IdsFree(alerts: Alerts, entries: seq<Entry>) {
    forall i :: 0 <= i < |entries| ==> IdFree(alerts, entries[i].key, entries[i].after.alertId)
  }

  /** An entry keeps the alert id of the row it replaces. */
  predicate IdsKept(entries: seq<Entry>) {
    forall i :: 0 <= i < |entries| && entries[i].before.Some? ==>
                entries[i].before.value.alertId == entries[i].after.alertId
  }

  /** After all but the last of the entries, its key and its id are as free as before them. */
  lemma LastEntry(alerts: Alerts, entries: seq<Entry>)
    requires entries != [] && KeysAndIdsDistinct(entries) && IdsKept(entries)
    requires var front := entries[..|entries| - 1]; Upserts(alerts, front).Ok?
    ensures var done, e := Upserts(alerts, entries[..|entries| - 1]).value, entries[|entries| - 1];
            && Get(done, e.key) == Get(alerts, e.key)
            && (IdFree(done, e.key, e.after.alertId) <==> IdFree(alerts, e.key, e.after.alertId))
  {
    var front, e := entries[..|entries| - 1], entries[|entries| - 1];
    var done := Upserts(alerts, front).value;
    UpsertsElsewhere(alerts, front, e.key);
    var id := e.after.alertId;
    forall k ensures k in done && done[k].alertId == id <==> k in alerts && alerts[k].alertId == id {
      if i :| 0 <= i < |front| && front[i].key == k {
        UpsertsAt(alerts, front, i);
      } else {
        UpsertsElsewhere(alerts, front, k);
      }
    }
  }

  lemma SplitLast(alerts: Alerts, entries: seq<Entry>)
    requires entries != []
    ensures var front, e := entries[..|entries| - 1], entries[|entries| - 1];
            UpToDate(alerts, entries) && IdsFree(alerts, entries) <==>
            && UpToDate(alerts, front) && IdsFree(alerts, front)
            && Get(alerts, e.key) == e.before && IdFree(alerts, e.key, e.after.alertId)
  {
    var n := |entries| - 1;
    assert forall i :: 0 <= i < |entries| ==> entries[i] == if i < n then entries[..n][i] else entries[n];
  }

  lemma {:induction false} UpsertsIff(alerts: Alerts, entries: seq<Entry>)
    requires KeysAndIdsDistinct(entries) && IdsKept(entries)
    ensures Upserts(alerts, entries).Ok? <==> UpToDate(alerts, entries) && IdsFree(alerts, entries)
  {
    if entries != [] {
      var front := entries[..|entries| - 1];
      SplitLast(alerts, entries);
      UpsertsIff(alerts, front);
      if Upserts(alerts, front).Ok? { LastEntry(alerts, entries); }
    }
  }

  /** A write of any entries goes through exactly if there are one to a thousand of them, with different keys
      and ids, keeping the ids of their rows and resolving none, and their rows are the stored ones. */
  lemma WrittenIff(alerts: Alerts, entries: seq<Entry>)
    ensures WriteEvaluation(alerts, entries).Ok? <==>
            && 1 <= |entries| <= 1_000 && KeysAndIdsDistinct(entries) && IdsKept(entries)
            && (forall i :: 0 <= i < |entries| ==> entries[i].after.state in {Open, Silenced})
            && UpToDate(alerts, entries) && IdsFree(alerts, entries)
  {
    if KeysAndIdsDistinct(entries) && IdsKept(entries) { UpsertsIff(alerts, entries); }
  }

  /** A delivery is marked on its alert and changes nothing else. */
  lemma SentIsMarked(alerts: Alerts, key: string, at: int)
    requires key in alerts
    ensures var after := Commit(alerts, Sent(key, at));
            && after.Keys == alerts.Keys && after[key] == alerts[key].(lastSentAt := Some(at))
            && forall k :: k in alerts && k != key ==> after[k] == alerts[k]
  {}

  predicate KeysDistinct(candidates: seq<Candidate>) {
    forall i, j :: 0 <= i < j < |candidates| ==> candidates[i].key != candidates[j].key
  }

  /** The snapshot has the stored rows of the candidates' keys. */
  predicate SeesStored(alerts: Alerts, snapshot: Alerts, candidates: seq<Candidate>) {
    forall i :: 0 <= i < |candidates| ==> Get(alerts, candidates[i].key) == Get(snapshot, candidates[i].key)
  }

  predicate IsNew(alerts: Alerts, candidates: seq<Candidate>, i: int) {
    0 <= i < |candidates| && candidates[i].key !in alerts
  }

  /** The ids for new alerts are unused, and no two of them are the same. */
  ghost predicate FreshIds(alerts: Alerts, candidates: seq<Candidate>, ids: int -> string) {
    && (forall i, k :: IsNew(alerts, candidates, i) && k in alerts ==> alerts[k].alertId != ids(i))
    && (forall i, j :: IsNew(alerts, candidates, i) && IsNew(alerts, candidates, j) && i < j ==> ids(i) != ids(j))
  }

  /** The alert id an entry gets. */
  lemma EntryId(alerts: Alerts, snapshot: Alerts, candidates: seq<Candidate>, now: int, ids: int -> string, i: nat)
    requires SeesStored(alerts, snapshot, candidates) && i < |candidates|
    ensures var e := Entries(snapshot, candidates, now, ids)[i];
            && e.key == candidates[i].key && e.before == Get(alerts, e.key)
            && e.after.alertId == (if e.key in alerts then alerts[e.key].alertId else ids(i))
            && !e.after.state.Resolved?
  {}

  lemma FreshAreDistinct(alerts: Alerts, snapshot: Alerts, candidates: seq<Candidate>, now: int, ids: int -> string)
    requires IdsDistinct(alerts) && SeesStored(alerts, snapshot, candidates)
    requires KeysDistinct(candidates) && FreshIds(alerts, candidates, ids)
    ensures KeysAndIdsDistinct(Entries(snapshot, candidates, now, ids))
    ensures IdsFree(alerts, Entries(snapshot, candidates, now, ids))
  {
    var entries := Entries(snapshot, candidates, now, ids);
    forall i, j | 0 <= i < j < |entries|
      ensures entries[i].key != entries[j].key && entries[i].after.alertId != entries[j].after.alertId
    {
      EntryId(alerts, snapshot, candidates, now, ids, i);
      EntryId(alerts, snapshot, candidates, now, ids, j);
      assert IsNew(alerts, candidates, i) || IdFree(alerts, entries[i].key, entries[i].after.alertId);
      assert IsNew(alerts, candidates, j) || entries[j].key in alerts;
    }
    forall i | 0 <= i < |entries| ensures IdFree(alerts, entries[i].key, entries[i].after.alertId) {
      EntryId(alerts, snapshot, candidates, now, ids, i);
      assert IsNew(alerts, candidates, i) || IdFree(alerts, entries[i].key, alerts[entries[i].key].alertId);
    }
  }

  lemma DistinctAreFresh(alerts: Alerts, snapshot: Alerts, candidates: seq<Candidate>, now: int, ids: int -> string)
    requires SeesStored(alerts, snapshot, candidates)
    requires KeysAndIdsDistinct(Entries(snapshot, candidates, now, ids))
    requires IdsFree(alerts, Entries(snapshot, candidates, now, ids))
    ensures KeysDistinct(candidates) && FreshIds(alerts, candidates, ids)
  {
    var entries := Entries(snapshot, candidates, now, ids);
    forall i, k | IsNew(alerts, candidates, i) && k in alerts ensures alerts[k].alertId != ids(i) {
      EntryId(alerts, snapshot, candidates, now, ids, i);
      assert IdFree(alerts, entries[i].key, entries[i].after.alertId);
    }
    forall i, j | IsNew(alerts, candidates, i) && IsNew(alerts, candidates, j) && i < j ensures ids(i) != ids(j) {
      EntryId(alerts, snapshot, candidates, now, ids, i);
      EntryId(alerts, snapshot, candidates, now, ids, j);
      assert entries[i].after.alertId != entries[j].after.alertId;
    }
    forall i, j | 0 <= i < j < |candidates| ensures candidates[i].key != candidates[j].key {
      assert entries[i].key != entries[j].key;
    }
  }

  /** In every run an evaluation commits exactly if it has one to a thousand candidates with different keys, the
      rows it saw for them are still the stored ones, and the ids for new alerts are fresh. */
  lemma EvaluationCommitsIff(run: seq<Step>, snapshot: Alerts, candidates: seq<Candidate>, now: int, ids: int -> string)
    ensures var alerts := After(map[], run);
            WriteEvaluation(alerts, Entries(snapshot, candidates, now, ids)).Ok? <==>
            && 1 <= |candidates| <= 1_000 && KeysDistinct(candidates)
            && SeesStored(alerts, snapshot, candidates) && FreshIds(alerts, candidates, ids)
  {
    var alerts, entries := After(map[], run), Entries(snapshot, candidates, now, ids);
    OneKeyPerAlert(run);
    if KeysAndIdsDistinct(entries) && IdsKept(entries) { UpsertsIff(alerts, entries); }
    SeenIsUpToDate(alerts, snapshot, candidates, now, ids);
    if SeesStored(alerts, snapshot, candidates) {
      if KeysDistinct(candidates) && FreshIds(alerts, candidates, ids) {
        FreshAreDistinct(alerts, snapshot, candidates, now, ids);
      }
      if KeysAndIdsDistinct(entries) && IdsFree(alerts, entries) {
        DistinctAreFresh(alerts, snapshot, candidates, now, ids);
      }
    }
  }

  lemma SeenIsUpToDate(alerts: Alerts, snapshot: Alerts, candidates: seq<Candidate>, now: int, ids: int -> string)
    ensures var entries := Entries(snapshot, candidates, now, ids);
            && (UpToDate(alerts, entries) <==> SeesStored(alerts, snapshot, candidates))
            && IdsKept(entries) && forall i :: 0 <= i < |entries| ==> !entries[i].after.state.Resolved?
  {
    var entries := Entries(snapshot, candidates, now, ids);
    forall i | 0 <= i < |entries|
      ensures entries[i].key == candidates[i].key && entries[i].before == Get(snapshot, candidates[i].key) {}
  }
}
