/** Controlled writes: change requests that a requester dry-runs and a second principal decides.
    Every transaction updates the state with a compare-and-set and appends one audit row.
    Times are seconds. */
module ControlledWrites {
  import opened Outcomes

  const MAX_LIFETIME_SECONDS: int := 30 * 24 * 60 * 60
  const EXPIRY_ACTOR: string := "system:expiry"

  datatype State =
    | Draft | DryRunPending | DryRunSucceeded | DryRunFailed | ApprovalPending | Approved | Rejected
    | Dispatching | Succeeded | Failed | RollbackPending | RolledBack | Cancelled | Expired

  datatype Change = Change(actor: string, operationId: string, nonce: string, expiresAt: int, state: State)

  datatype Decision = Decision(requestId: string, approvalId: string, approver: string, approved: bool)

  datatype Attempt = Attempt(requestId: string, succeeded: bool)

  datatype AuditRow = AuditRow(
    requestId: string, at: int, actor: string, approvalId: Option<string>, from: Option<State>, to: State, ok: bool)

  /** The four tables. */
  datatype Tables = Tables(
    changes: map<string, Change>, decisions: seq<Decision>, attempts: seq<Attempt>, audit: seq<AuditRow>)

  datatype Role = ChangeApprover | SecurityAdmin | OtherRole

  datatype Approval = Approval(approvalId: string, approver: string, role: Role, expiresAt: int)

  /** A signed request. `wellFormed` covers the identifier, nonce, ticket and summary checks,
      `signed` the digest and signature, `disconnect` the one kind that is not supported. */
  datatype Input = Input(
    requestId: string, operationId: string, nonce: string, actor: string, expiresAt: int,
    wellFormed: bool, signed: bool, disconnect: bool)

  datatype WriteError =
    Invalid | NotFound | HasExpired | WrongPrincipal | WrongState | LostUpdate | Duplicate

  /** The transactions. */
  datatype Tx =
    | Create(input: Input)
    | Expire(id: string)
    | DryRun(id: string, actor: string, allowed: bool)
    | Decide(id: string, approval: Approval, approve: bool)
    | Cancel(id: string, actor: string)

  predicate Final(s: State) {
    s.Succeeded? || s.Failed? || s.Rejected? || s.Cancelled? || s.Expired? || s.RolledBack?
  }

  predicate WithinLifetime(now: int, expiresAt: int) {
    now < expiresAt <= now + MAX_LIFETIME_SECONDS
  }

  predicate ValidApproval(a: Approval, now: int) {
    (a.role.ChangeApprover? || a.role.SecurityAdmin?) && WithinLifetime(now, a.expiresAt)
  }

  /** `UPDATE ... WHERE request_id = id AND state = from`, which must hit one row. */
  function Transition(db: Tables, id: string, from: State, to: State): Result<Tables, WriteError> {
    if id in db.changes && db.changes[id].state == from
    then Ok(db.(changes := db.changes[id := db.changes[id].(state := to)]))
    else Err(LostUpdate)
  }

  function Log(db: Tables, row: AuditRow): Tables {
    db.(audit := db.audit + [row])
  }

  predicate Taken(db: Tables, input: Input) {
    input.requestId in db.changes
    || exists id :: id in db.changes &&
                    (db.changes[id].operationId == input.operationId || db.changes[id].nonce == input.nonce)
  }

  function CreateTx(db: Tables, input: Input, now: int): Result<Tables, WriteError> {
    if !input.wellFormed || !WithinLifetime(now, input.expiresAt) || input.disconnect || !input.signed then Err(Invalid)
    else if Taken(db, input) then Err(Duplicate)
    else
      var change := Change(input.actor, input.operationId, input.nonce, input.expiresAt, Draft);
      Ok(Log(db.(changes := db.changes[input.requestId := change]),
             AuditRow(input.requestId, now, input.actor, None, None, Draft, true)))
  }

  /** The tables afterwards, and why the operation must stop. */
  function ExpireTx(db: Tables, id: string, now: int, seen: State): (Tables, Option<WriteError>) {
    if id !in db.changes then (db, Some(NotFound))
    else if db.changes[id].expiresAt > now then (db, None)
    else if Final(seen) then (db, Some(HasExpired))
    else
      match Transition(db, id, seen, Expired)
      case Err(e) => (db, Some(e))
      case Ok(moved) => (Log(moved, AuditRow(id, now, EXPIRY_ACTOR, None, Some(seen), Expired, true)), Some(HasExpired))
  }

  /** The change, if it is still active. */
  function Active(db: Tables, id: string, now: int): Result<Change, WriteError> {
    if id !in db.changes then Err(NotFound)
    else if db.changes[id].expiresAt <= now then Err(HasExpired)
    else Ok(db.changes[id])
  }

  function DryRunTx(db: Tables, id: string, actor: string, allowed: bool, now: int, seen: State):
    Result<Tables, WriteError>
  {
    match Active(db, id, now)
    case Err(e) => Err(e)
    case Ok(current) =>
      if current.actor != actor then Err(WrongPrincipal)
      else if !(seen.Draft? || seen.DryRunFailed?) then Err(WrongState)
      else
        match Transition(db, id, seen, DryRunPending)
        case Err(e) => Err(e)
        case Ok(pending) =>
          var target := if allowed then DryRunSucceeded else DryRunFailed;
          match Transition(pending.(attempts := db.attempts + [Attempt(id, allowed)]), id, DryRunPending, target)
          case Err(e) => Err(e)
          case Ok(moved) => Ok(Log(moved, AuditRow(id, now, actor, None, Some(seen), target, allowed)))
  }

  /** The primary key and the one-decision-per-approver constraint. */
  predicate DecisionTaken(db: Tables, id: string, a: Approval) {
    exists i :: 0 <= i < |db.decisions| &&
                (db.decisions[i].approvalId == a.approvalId
                 || (db.decisions[i].requestId == id && db.decisions[i].approver == a.approver))
  }

  function DecideTx(db: Tables, id: string, a: Approval, approve: bool, now: int, seen: State):
    Result<Tables, WriteError>
  {
    match Active(db, id, now)
    case Err(e) => Err(e)
    case Ok(current) =>
      if current.actor == a.approver then Err(WrongPrincipal)
      else if !(seen.DryRunSucceeded? || seen.ApprovalPending?) then Err(WrongState)
      else if DecisionTaken(db, id, a) then Err(Duplicate)
      else
        var target := if approve then Approved else Rejected;
        var decided := db.(decisions := db.decisions + [Decision(id, a.approvalId, a.approver, approve)]);
        match Transition(decided, id, seen, target)
        case Err(e) => Err(e)
        case Ok(moved) => Ok(Log(moved, AuditRow(id, now, a.approver, Some(a.approvalId), Some(seen), target, true)))
  }

  predicate Cancellable(s: State) {
    s.Draft? || s.DryRunPending? || s.DryRunSucceeded? || s.DryRunFailed? || s.ApprovalPending? || s.Approved?
  }

  function CancelTx(db: Tables, id: string, actor: string, now: int, seen: State): Result<Tables, WriteError> {
    match Active(db, id, now)
    case Err(e) => Err(e)
    case Ok(current) =>
      if current.actor != actor then Err(WrongPrincipal)
      else if !Cancellable(seen) then Err(WrongState)
      else
        match Transition(db, id, seen, Cancelled)
        case Err(e) => Err(e)
        case Ok(moved) => Ok(Log(moved, AuditRow(id, now, actor, None, Some(seen), Cancelled, true)))
  }

  /** One transaction at `now` whose read of the state returned `seen`; an error rolls back. */
  function Commit(db: Tables, tx: Tx, now: int, seen: State): Tables {
    match tx
    case Create(input) => var r := CreateTx(db, input, now); if r.Ok? then r.value else db
    case Expire(id) => ExpireTx(db, id, now, seen).0
    case DryRun(id, actor, allowed) =>
      var r := DryRunTx(db, id, actor, allowed, now, seen); if r.Ok? then r.value else db
    case Decide(id, a, approve) =>
      if !ValidApproval(a, now) then db
      else var r := DecideTx(db, id, a, approve, now, seen); if r.Ok? then r.value else db
    case Cancel(id, actor) => var r := CancelTx(db, id, actor, now, seen); if r.Ok? then r.value else db
  }

  // ---------- Operations ----------

  /** The state a transaction with nothing in between reads. */
  function Seen(db: Tables, id: string): State {
    if id in db.changes then db.changes[id].state else Draft
  }

  function MainTx(db: Tables, tx: Tx, now: int): Result<Tables, WriteError>
    requires tx.DryRun? || tx.Decide? || tx.Cancel?
  {
    match tx
    case DryRun(id, actor, allowed) => DryRunTx(db, id, actor, allowed, now, Seen(db, id))
    case Decide(id, a, approve) => DecideTx(db, id, a, approve, now, Seen(db, id))
    case Cancel(id, actor) => CancelTx(db, id, actor, now, Seen(db, id))
  }

  /** An operation on an existing change: the expiry transaction, then its own. */
  function Operate(db: Tables, tx: Tx, now: int): (Tables, Result<Change, WriteError>)
    requires tx.DryRun? || tx.Decide? || tx.Cancel?
  {
    if tx.Decide? && !ValidApproval(tx.approval, now) then (db, Err(Invalid))
    else
      var (kept, stop) := ExpireTx(db, tx.id, now, Seen(db, tx.id));
      if stop.Some? then (kept, Err(stop.value))
      else
        match MainTx(kept, tx, now)
        case Err(e) => (kept, Err(e))
        case Ok(done) => if tx.id in done.changes then (done, Ok(done.changes[tx.id])) else (kept, Err(NotFound))
  }

  class ChangeStore {
    var changes: map<string, Change>
    var decisions: seq<Decision>
    var attempts: seq<Attempt>
    var audit: seq<AuditRow>

    function Db(): Tables
      reads this
    {
      Tables(changes, decisions, attempts, audit)
    }

    constructor ()
      ensures Db() == Tables(map[], [], [], [])
    {
      changes, decisions, attempts, audit := map[], [], [], [];
    }

    method CreateChangeRequest(input: Input, now: int) returns (r: Result<Change, WriteError>)
      modifies this
      ensures Db() == Commit(old(Db()), Create(input), now, Draft)
      ensures r.Ok? <==> CreateTx(old(Db()), input, now).Ok?
      ensures r.Ok? ==> input.requestId in changes && r.value == changes[input.requestId]
    {
      if !input.wellFormed || !WithinLifetime(now, input.expiresAt) || input.disconnect || !input.signed {
        return Err(Invalid);
      }
      if Taken(Db(), input) { return Err(Duplicate); }
      var change := Change(input.actor, input.operationId, input.nonce, input.expiresAt, Draft);
      changes := changes[input.requestId := change];
      audit := audit + [AuditRow(input.requestId, now, input.actor, None, None, Draft, true)];
      r := Ok(change);
    }

    /** Records that a change has run out; `stop` is the error every caller returns. */
    method PersistExpiryIfNeeded(id: string, now: int) returns (stop: Option<WriteError>)
      modifies this
      ensures (Db(), stop) == ExpireTx(old(Db()), id, now, Seen(old(Db()), id))
    {
      if id !in changes { return Some(NotFound); }
      var current := changes[id];
      if current.expiresAt > now { return None; }
      if Final(current.state) { return Some(HasExpired); }
      changes := changes[id := current.(state := Expired)];
      audit := audit + [AuditRow(id, now, EXPIRY_ACTOR, None, Some(current.state), Expired, true)];
      stop := Some(HasExpired);
    }

    method RecordDryRun(id: string, actor: string, featureEnabled: bool, policyEnabled: bool, now: int)
      returns (r: Result<Change, WriteError>)
      modifies this
      ensures (Db(), r) == Operate(old(Db()), DryRun(id, actor, featureEnabled && policyEnabled), now)
    {
      var stop := PersistExpiryIfNeeded(id, now);
      if stop.Some? { return Err(stop.value); }
      var current := changes[id];
      if current.actor != actor { return Err(WrongPrincipal); }
      if !current.state.Draft? && !current.state.DryRunFailed? { return Err(WrongState); }
      var allowed := featureEnabled && policyEnabled;
      var target := if allowed then DryRunSucceeded else DryRunFailed;
      changes := changes[id := current.(state := DryRunPending)];
      attempts := attempts + [Attempt(id, allowed)];
      changes := changes[id := changes[id].(state := target)];
      audit := audit + [AuditRow(id, now, actor, None, Some(current.state), target, allowed)];
      r := Ok(changes[id]);
    }

    /** `approve_change` and `reject_change`. */
    method DecideChange(id: string, approval: Approval, approve: bool, now: int) returns (r: Result<Change, WriteError>)
      modifies this
      ensures (Db(), r) == Operate(old(Db()), Decide(id, approval, approve), now)
    {
      if !ValidApproval(approval, now) { return Err(Invalid); }
      var stop := PersistExpiryIfNeeded(id, now);
      if stop.Some? { return Err(stop.value); }
      var current := changes[id];
      if current.actor == approval.approver { return Err(WrongPrincipal); }
      if !current.state.DryRunSucceeded? && !current.state.ApprovalPending? { return Err(WrongState); }
      if DecisionTaken(Db(), id, approval) { return Err(Duplicate); }
      var target := if approve then Approved else Rejected;
      decisions := decisions + [Decision(id, approval.approvalId, approval.approver, approve)];
      changes := changes[id := current.(state := target)];
      var row := AuditRow(id, now, approval.approver, Some(approval.approvalId), Some(current.state), target, true);
      audit := audit + [row];
      r := Ok(changes[id]);
    }

    method CancelChange(id: string, actor: string, now: int) returns (r: Result<Change, WriteError>)
      modifies this
      ensures (Db(), r) == Operate(old(Db()), Cancel(id, actor), now)
    {
      var stop := PersistExpiryIfNeeded(id, now);
      if stop.Some? { return Err(stop.value); }
      var current := changes[id];
      if current.actor != actor { return Err(WrongPrincipal); }
      if !Cancellable(current.state) { return Err(WrongState); }
      changes := changes[id := current.(state := Cancelled)];
      audit := audit + [AuditRow(id, now, actor, None, Some(current.state), Cancelled, true)];
      r := Ok(changes[id]);
    }
  }
}
