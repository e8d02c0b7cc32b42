/** Every run of controlled-write transactions, each with an arbitrarily stale read of the
    state: the audit trail of a change is a legal history and determines all other tables. */
module ChangeTrail {
  import opened ControlledWrites
  import opened Outcomes

  // ---------- One change's rows ----------

  function Trail(audit: seq<AuditRow>, id: string): seq<AuditRow> {
    if audit == [] then []
    else
      var last := audit[|audit| - 1];
      if last.requestId == id then Trail(audit[..|audit| - 1], id) + [last] else Trail(audit[..|audit| - 1], id)
  }

  function DecisionsFor(decisions: seq<Decision>, id: string): seq<Decision> {
    if decisions == [] then []
    else
      var last := decisions[|decisions| - 1];
      if last.requestId == id then DecisionsFor(decisions[..|decisions| - 1], id) + [last]
      else DecisionsFor(decisions[..|decisions| - 1], id)
  }

  function AttemptsFor(attempts: seq<Attempt>, id: string): seq<Attempt> {
    if attempts == [] then []
    else
      var last := attempts[|attempts| - 1];
      if last.requestId == id then AttemptsFor(attempts[..|attempts| - 1], id) + [last]
      else AttemptsFor(attempts[..|attempts| - 1], id)
  }

  /** The decision an audit row records. */
  function Decided(row: AuditRow): seq<Decision> {
    if (row.to.Approved? || row.to.Rejected?) && row.approvalId.Some?
    then [Decision(row.requestId, row.approvalId.value, row.actor, row.to.Approved?)] else []
  }

  function Attempted(row: AuditRow): seq<Attempt> {
    if row.to.DryRunSucceeded? || row.to.DryRunFailed? then [Attempt(row.requestId, row.ok)] else []
  }

  function DecidedIn(rows: seq<AuditRow>): seq<Decision> {
    if rows == [] then [] else DecidedIn(rows[..|rows| - 1]) + Decided(rows[|rows| - 1])
  }

  function AttemptedIn(rows: seq<AuditRow>): seq<Attempt> {
    if rows == [] then [] else AttemptedIn(rows[..|rows| - 1]) + Attempted(rows[|rows| - 1])
  }

  // ---------- Legal histories ----------

  /** Who may move a change from where, and when. */
  predicate Edge(from: State, row: AuditRow, c: Change) {
    match row.to
    case DryRunSucceeded | DryRunFailed =>
      && row.actor == c.actor && (from.Draft? || from.DryRunFailed?)
      && row.ok == row.to.DryRunSucceeded? && row.at < c.expiresAt
    case Approved | Rejected =>
      && row.actor != c.actor && (from.DryRunSucceeded? || from.ApprovalPending?)
      && row.approvalId.Some? && row.ok && row.at < c.expiresAt
    case Cancelled => row.actor == c.actor && Cancellable(from) && row.at < c.expiresAt
    case Expired => row.actor == EXPIRY_ACTOR && !Final(from) && row.at >= c.expiresAt
    case _ => false
  }

  predicate Opens(row: AuditRow, c: Change) {
    row.from.None? && row.to.Draft? && row.actor == c.actor && row.at < c.expiresAt && row.ok
  }

  predicate Follows(rows: seq<AuditRow>, i: int, c: Change)
    requires 1 <= i < |rows|
  {
    rows[i].from == Some(rows[i - 1].to) && Edge(rows[i - 1].to, rows[i], c)
  }

  predicate Legal(rows: seq<AuditRow>, c: Change) {
    && rows != [] && Opens(rows[0], c)
    && (forall i :: 1 <= i < |rows| ==> Follows(rows, i, c))
    && rows[|rows| - 1].to == c.state
  }

  /** The trail of `id` is legal and every other table agrees with it. */
  predicate Good(db: Tables, id: string) {
    var rows := Trail(db.audit, id);
    && (if id in db.changes then Legal(rows, db.changes[id]) else rows == [])
    && DecisionsFor(db.decisions, id) == DecidedIn(rows)
    && AttemptsFor(db.attempts, id) == AttemptedIn(rows)
  }

  // ---------- One transaction ----------

  /** `after` is `db` with one more row and the writes that go with it. */
  predicate Applied(db: Tables, after: Tables, row: AuditRow) {
    var id := row.requestId;
    && after.audit == db.audit + [row]
    && after.decisions == db.decisions + Decided(row)
    && after.attempts == db.attempts + Attempted(row)
    && id in after.changes && after.changes == db.changes[id := after.changes[id]]
    && after.changes[id].state == row.to
    && (if id in db.changes then
          && after.changes[id] == db.changes[id].(state := row.to)
          && row.from == Some(db.changes[id].state) && Edge(db.changes[id].state, row, db.changes[id])
        else Opens(row, after.changes[id]))
  }

  function DryRunTarget(allowed: bool): State { if allowed then DryRunSucceeded else DryRunFailed }

  function DecisionTarget(approve: bool): State { if approve then Approved else Rejected }

  lemma DryRunShape(db: Tables, id: string, actor: string, allowed: bool, now: int, seen: State)
    requires DryRunTx(db, id, actor, allowed, now, seen).Ok?
    ensures Applied(db, DryRunTx(db, id, actor, allowed, now, seen).value,
                    AuditRow(id, now, actor, None, Some(seen), DryRunTarget(allowed), allowed))
  {}

  lemma DecideShape(db: Tables, id: string, a: Approval, approve: bool, now: int, seen: State)
    requires DecideTx(db, id, a, approve, now, seen).Ok?
    ensures Applied(db, DecideTx(db, id, a, approve, now, seen).value,
                    AuditRow(id, now, a.approver, Some(a.approvalId), Some(seen), DecisionTarget(approve), true))
  {}

  /** Whatever state it had read, a transaction changes nothing or makes one legal move. */
  lemma CommitShape(db: Tables, tx: Tx, now: int, seen: State) returns (row: Option<AuditRow>)
    ensures row.None? ==> Commit(db, tx, now, seen) == db
    ensures row.Some? ==> Applied(db, Commit(db, tx, now, seen), row.value)
  {
    if Commit(db, tx, now, seen) == db { return None; }
    match tx
    case Create(input) => row := Some(AuditRow(input.requestId, now, input.actor, None, None, Draft, true));
    case Expire(id) => row := Some(AuditRow(id, now, EXPIRY_ACTOR, None, Some(seen), Expired, true));
    case DryRun(id, actor, allowed) =>
      DryRunShape(db, id, actor, allowed, now, seen);
      row := Some(AuditRow(id, now, actor, None, Some(seen), DryRunTarget(allowed), allowed));
    case Decide(id, a, approve) =>
      DecideShape(db, id, a, approve, now, seen);
      row := Some(AuditRow(id, now, a.approver, Some(a.approvalId), Some(seen), DecisionTarget(approve), true));
    case Cancel(id, actor) => row := Some(AuditRow(id, now, actor, None, Some(seen), Cancelled, true));
  }

  lemma TrailAppend(audit: seq<AuditRow>, row: AuditRow, id: string)
    ensures Trail(audit + [row], id) == if row.requestId == id then Trail(audit, id) + [row] else Trail(audit, id)
  {
    assert (audit + [row])[..|audit|] == audit;
  }

  lemma DecisionsAppend(decisions: seq<Decision>, row: AuditRow, id: string)
    ensures DecisionsFor(decisions + Decided(row), id)
         == if row.requestId == id then DecisionsFor(decisions, id) + Decided(row) else DecisionsFor(decisions, id)
  {
    if Decided(row) == [] {
      assert decisions + Decided(row) == decisions;
    } else {
      assert (decisions + Decided(row))[..|decisions|] == decisions;
    }
  }

  lemma AttemptsAppend(attempts: seq<Attempt>, row: AuditRow, id: string)
    ensures AttemptsFor(attempts + Attempted(row), id)
         == if row.requestId == id then AttemptsFor(attempts, id) + Attempted(row) else AttemptsFor(attempts, id)
  {
    if Attempted(row) == [] {
      assert attempts + Attempted(row) == attempts;
    } else {
      assert (attempts + Attempted(row))[..|attempts|] == attempts;
    }
  }

  lemma LegalAppend(rows: seq<AuditRow>, row: AuditRow, c: Change)
    requires Legal(rows, c) && row.from == Some(c.state) && Edge(c.state, row, c)
    ensures Legal(rows + [row], c.(state := row.to))
  {
    var longer, moved := rows + [row], c.(state := row.to);
    forall i | 1 <= i < |longer| ensures Follows(longer, i, moved) {
      if i < |rows| { assert Follows(rows, i, c); }
    }
  }

  /** The tables the audit determines, after one more row about `id` or another change. */
  lemma TablesAgree(db: Tables, after: Tables, row: AuditRow, id: string)
    requires Good(db, id) && Applied(db, after, row)
    ensures DecisionsFor(after.decisions, id) == DecidedIn(Trail(after.audit, id))
    ensures AttemptsFor(after.attempts, id) == AttemptedIn(Trail(after.audit, id))
  {
    var rows := Trail(db.audit, id);
    TrailAppend(db.audit, row, id);
    DecisionsAppend(db.decisions, row, id);
    AttemptsAppend(db.attempts, row, id);
    assert (rows + [row])[..|rows|] == rows;
  }

  lemma GoodStep(db: Tables, after: Tables, row: AuditRow, id: string)
    requires Good(db, id) && Applied(db, after, row)
    ensures Good(after, id)
  {
    TablesAgree(db, after, row, id);
    TrailAppend(db.audit, row, id);
    if row.requestId == id && id in db.changes { LegalAppend(Trail(db.audit, id), row, db.changes[id]); }
  }

  // ---------- Runs ----------

  datatype Step = Step(tx: Tx, now: int, seen: State)

  function After(db: Tables, run: seq<Step>): Tables
    decreases |run|
  {
    if run == [] then db
    else
      var last := run[|run| - 1];
      Commit(After(db, run[..|run| - 1]), last.tx, last.now, last.seen)
  }

  const EMPTY: Tables := Tables(map[], [], [], [])

  /** In every run the trail of every change is legal and the tables agree with it. */
  lemma {:induction false} AlwaysGood(run: seq<Step>, id: string)
    ensures Good(After(EMPTY, run), id)
  {
    if run != [] {
      var before, last := After(EMPTY, run[..|run| - 1]), run[|run| - 1];
      AlwaysGood(run[..|run| - 1], id);
      var row := CommitShape(before, last.tx, last.now, last.seen);
      if row.Some? { GoodStep(before, After(EMPTY, run), row.value, id); }
    }
  }

  // ---------- Separation of duties ----------

  function Rank(s: State): nat {
    match s
    case Draft | DryRunFailed => 0
    case DryRunSucceeded => 1
    case Approved => 2
    case _ => 3
  }

  /** Histories only move forward. */
  lemma {:induction false} RanksGrow(rows: seq<AuditRow>, c: Change, i: nat, j: nat)
    requires Legal(rows, c) && i <= j < |rows|
    ensures Rank(rows[i].to) <= Rank(rows[j].to)
    decreases j - i
  {
    if i < j {
      RanksGrow(rows, c, i, j - 1);
      assert Follows(rows, j, c);
      if j > 1 { assert Follows(rows, j - 1, c); }
    }
  }

  predicate Decides(row: AuditRow) { row.to.Approved? || row.to.Rejected? }

  /** A decision rests on the requester's successful dry run and is made by somebody else. */
  lemma DecisionFollowsDryRun(rows: seq<AuditRow>, c: Change, j: nat)
    requires Legal(rows, c) && j < |rows| && Decides(rows[j])
    ensures j > 0 && rows[j - 1].to.DryRunSucceeded? && rows[j - 1].ok && rows[j - 1].actor == c.actor
    ensures rows[j].actor != c.actor && rows[j].approvalId.Some?
  {
    assert Follows(rows, j, c);
    if j > 1 { assert Follows(rows, j - 1, c); }
  }

  lemma OneDecision(rows: seq<AuditRow>, c: Change, i: nat, j: nat)
    requires Legal(rows, c) && i < j < |rows| && Decides(rows[i])
    ensures !Decides(rows[j])
  {
    RanksGrow(rows, c, i, j - 1);
    if Decides(rows[j]) { DecisionFollowsDryRun(rows, c, j); }
  }

  lemma {:induction false} DecidedOnce(rows: seq<AuditRow>, j: nat)
    requires j < |rows| && Decides(rows[j]) && rows[j].approvalId.Some?
    requires forall i :: 0 <= i < |rows| && i != j ==> !Decides(rows[i])
    ensures DecidedIn(rows) == Decided(rows[j])
  {
    var front := rows[..|rows| - 1];
    if j == |rows| - 1 {
      DecidedNever(front);
    } else {
      DecidedOnce(front, j);
    }
  }

  lemma {:induction false} DecidedNever(rows: seq<AuditRow>)
    requires forall i :: 0 <= i < |rows| ==> !Decides(rows[i])
    ensures DecidedIn(rows) == []
  {
    if rows != [] { DecidedNever(rows[..|rows| - 1]); }
  }

  /** In every run, a change that was ever decided has exactly one decision row, by a principal
      other than its requester, straight after the requester's own successful dry run. */
  lemma SeparationOfDuties(run: seq<Step>, id: string, j: nat)
    requires id in After(EMPTY, run).changes
    requires j < |Trail(After(EMPTY, run).audit, id)| && Decides(Trail(After(EMPTY, run).audit, id)[j])
    ensures var db := After(EMPTY, run);
            var rows, c := Trail(db.audit, id), db.changes[id];
            && j > 0 && rows[j - 1].to.DryRunSucceeded? && rows[j - 1].ok && rows[j - 1].actor == c.actor
            && rows[j].actor != c.actor
            && DecisionsFor(db.decisions, id) == Decided(rows[j]) && |Decided(rows[j])| == 1
  {
    var db := After(EMPTY, run);
    var rows, c := Trail(db.audit, id), db.changes[id];
    AlwaysGood(run, id);
    DecisionFollowsDryRun(rows, c, j);
    forall i | 0 <= i < |rows| && i != j ensures !Decides(rows[i]) {
      if i < j {
        if Decides(rows[i]) { OneDecision(rows, c, i, j); }
      } else {
        OneDecision(rows, c, j, i);
      }
    }
    DecidedOnce(rows, j);
  }

  // ---------- Endings are final ----------

  predicate Ended(s: State) { s.Rejected? || s.Cancelled? || s.Expired? }

  /** No transaction touches a change that was rejected, cancelled or has expired. */
  lemma EndedStep(db: Tables, tx: Tx, now: int, seen: State, id: string)
    requires id in db.changes && Ended(db.changes[id].state)
    ensures var after := Commit(db, tx, now, seen);
            && id in after.changes && after.changes[id] == db.changes[id]
            && Trail(after.audit, id) == Trail(db.audit, id)
            && DecisionsFor(after.decisions, id) == DecisionsFor(db.decisions, id)
  {
    var row := CommitShape(db, tx, now, seen);
    if row.Some? {
      TrailAppend(db.audit, row.value, id);
      DecisionsAppend(db.decisions, row.value, id);
    }
  }

  lemma {:induction false} EndedForever(db: Tables, run: seq<Step>, id: string)
    requires id in db.changes && Ended(db.changes[id].state)
    ensures id in After(db, run).changes && After(db, run).changes[id] == db.changes[id]
    ensures Trail(After(db, run).audit, id) == Trail(db.audit, id)
    ensures DecisionsFor(After(db, run).decisions, id) == DecisionsFor(db.decisions, id)
    decreases |run|
  {
    if run != [] {
      EndedForever(db, run[..|run| - 1], id);
      var last := run[|run| - 1];
      EndedStep(After(db, run[..|run| - 1]), last.tx, last.now, last.seen, id);
    }
  }

  /** The states a stored change can be in. */
  lemma StoredStates(run: seq<Step>, id: string)
    requires id in After(EMPTY, run).changes
    ensures var s := After(EMPTY, run).changes[id].state;
            s.Draft? || s.DryRunSucceeded? || s.DryRunFailed? || s.Approved? || Ended(s)
  {
    AlwaysGood(run, id);
    LegalState(Trail(After(EMPTY, run).audit, id), After(EMPTY, run).changes[id]);
  }

  lemma LegalState(rows: seq<AuditRow>, c: Change)
    requires Legal(rows, c)
    ensures c.state.Draft? || c.state.DryRunSucceeded? || c.state.DryRunFailed? || c.state.Approved? || Ended(c.state)
  {
    if |rows| > 1 { assert Follows(rows, |rows| - 1, c); }
  }

  // ---------- A nonce authorises one change ----------

  predicate Distinct(db: Tables) {
    forall i, j :: i in db.changes && j in db.changes && i != j ==>
                   db.changes[i].nonce != db.changes[j].nonce && db.changes[i].operationId != db.changes[j].operationId
  }

  lemma DistinctStep(db: Tables, tx: Tx, now: int, seen: State)
    requires Distinct(db)
    ensures Distinct(Commit(db, tx, now, seen))
  {
    if !tx.Create? {
      var row := CommitShape(db, tx, now, seen);
      if row.Some? { KeepsIdentity(db, tx, now, seen); }
    }
  }

  /** Only creation adds a change. */
  lemma KeepsIdentity(db: Tables, tx: Tx, now: int, seen: State)
    requires !tx.Create?
    ensures var after := Commit(db, tx, now, seen);
            && after.changes.Keys == db.changes.Keys
            && forall id :: id in db.changes ==> after.changes[id] == db.changes[id].(state := after.changes[id].state)
  {
    var row := CommitShape(db, tx, now, seen);
  }

  /** In every run no two changes share a nonce or an operation. */
  lemma {:induction false} AlwaysDistinct(run: seq<Step>)
    ensures Distinct(After(EMPTY, run))
  {
    if run != [] {
      AlwaysDistinct(run[..|run| - 1]);
      var last := run[|run| - 1];
      DistinctStep(After(EMPTY, run[..|run| - 1]), last.tx, last.now, last.seen);
    }
  }

  /** What identifies a change never changes, and its trail only grows. */
  lemma {:induction false} IdentityKept(db: Tables, run: seq<Step>, id: string)
    requires id in db.changes
    ensures id in After(db, run).changes
    ensures After(db, run).changes[id] == db.changes[id].(state := After(db, run).changes[id].state)
    ensures db.audit <= After(db, run).audit
    decreases |run|
  {
    if run != [] {
      IdentityKept(db, run[..|run| - 1], id);
      var last := run[|run| - 1];
      var row := CommitShape(After(db, run[..|run| - 1]), last.tx, last.now, last.seen);
    }
  }

  // ---------- Operations are runs ----------

  /** The transactions of an operation of the store. */
  function OperationRun(db: Tables, tx: Tx, now: int): seq<Step>
    requires tx.DryRun? || tx.Decide? || tx.Cancel?
  {
    if tx.Decide? && !ValidApproval(tx.approval, now) then []
    else
      var expire := Step(Expire(tx.id), now, Seen(db, tx.id));
      var (kept, stop) := ExpireTx(db, tx.id, now, Seen(db, tx.id));
      if stop.Some? then [expire] else [expire, Step(tx, now, Seen(kept, tx.id))]
  }

  /** What an operation does to the tables is what its transactions do. */
  lemma OperationIsRun(db: Tables, tx: Tx, now: int)
    requires tx.DryRun? || tx.Decide? || tx.Cancel?
    ensures Operate(db, tx, now).0 == After(db, OperationRun(db, tx, now))
  {
    var run := OperationRun(db, tx, now);
    if run != [] {
      assert After(db, run[..1]) == ExpireTx(db, tx.id, now, Seen(db, tx.id)).0 by { assert run[..1][..0] == []; }
      if |run| == 1 { assert run[..1] == run; }
    }
  }
}
