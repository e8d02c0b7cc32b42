/** Which operations on controlled writes go through and why the others are refused. */
module ChangeOutcomes {
  import opened ChangeTrail
  import opened ControlledWrites
  import opened Outcomes

  const THIRTY_DAYS: int := 2_592_000

  predicate MayDecide(role: Role) { role == ChangeApprover || role == SecurityAdmin }

  predicate LivesAt(expiresAt: int, now: int) { now < expiresAt && expiresAt - now <= THIRTY_DAYS }

  /** No change has one of the three identifiers of the request. */
  ghost predicate Unused(db: Tables, input: Input) {
    forall id :: id in db.changes ==>
      id != input.requestId && db.changes[id].operationId != input.operationId && db.changes[id].nonce != input.nonce
  }

  /** A request becomes a draft exactly if it is well formed, signed and of a supported kind, lives at
      most thirty days, and its id, operation and nonce are unused. */
  lemma CreatedIff(db: Tables, input: Input, now: int)
    ensures var r := CreateTx(db, input, now);
            var valid := input.wellFormed && input.signed && !input.disconnect && LivesAt(input.expiresAt, now);
            && (r.Ok? <==> valid && Unused(db, input))
            && (r == Err(Invalid) <==> !valid)
            && (r == Err(Duplicate) <==> valid && !Unused(db, input))
  {
    if Taken(db, input) && input.requestId in db.changes { assert !Unused(db, input); }
  }

  /** What a created change says. */
  lemma CreatedShape(db: Tables, input: Input, now: int)
    requires CreateTx(db, input, now).Ok?
    ensures var id, after := input.requestId, CreateTx(db, input, now).value;
            && after.changes.Keys == db.changes.Keys + {id}
            && after.changes[id] == Change(input.actor, input.operationId, input.nonce, input.expiresAt, Draft)
  {}

  /** The stored change has run out. */
  predicate RanOut(db: Tables, id: string, now: int) { id in db.changes && db.changes[id].expiresAt <= now }

  predicate IsLive(db: Tables, id: string, now: int) { id in db.changes && db.changes[id].expiresAt > now }

  /** Every operation on an unknown change is refused and changes nothing; on one that has run out it
      is refused and records the expiry of a change that had not ended. */
  lemma NotLiveIsRefused(db: Tables, tx: Tx, now: int)
    requires tx.DryRun? || tx.Decide? || tx.Cancel?
    requires tx.Decide? ==> MayDecide(tx.approval.role) && LivesAt(tx.approval.expiresAt, now)
    ensures var (after, r) := Operate(db, tx, now);
            && (tx.id !in db.changes <==> r == Err(NotFound)) && (RanOut(db, tx.id, now) <==> r == Err(HasExpired))
            && (tx.id !in db.changes ==> after == db)
            && (RanOut(db, tx.id, now) ==>
                  var c := db.changes[tx.id];
                  var ended := c.state in {Succeeded, Failed, Rejected, Cancelled, Expired, RolledBack};
                  after.changes == db.changes[tx.id := if ended then c else c.(state := Expired)])
  {}

  /** A dry run goes through exactly for the requester of a live change that is a draft or whose
      last dry run failed; the policy decides how it ends. */
  lemma DryRunIff(db: Tables, id: string, actor: string, allowed: bool, now: int)
    requires IsLive(db, id, now)
    ensures var (after, r) := Operate(db, DryRun(id, actor, allowed), now);
            var c := db.changes[id];
            var ready := c.state == Draft || c.state == DryRunFailed;
            && (r.Ok? <==> actor == c.actor && ready)
            && (r == Err(WrongPrincipal) <==> actor != c.actor)
            && (r == Err(WrongState) <==> actor == c.actor && !ready)
            && (r.Ok? ==> r.value == c.(state := if allowed then DryRunSucceeded else DryRunFailed))
            && (r.Ok? ==> after.changes == db.changes[id := r.value])
            && (r.Err? ==> after == db)
  {}

  /** No decision has the approval's id, and the approver has not decided on this change. */
  ghost predicate ApprovalUnused(db: Tables, id: string, a: Approval) {
    forall i :: 0 <= i < |db.decisions| ==>
      db.decisions[i].approvalId != a.approvalId
      && (db.decisions[i].requestId == id ==> db.decisions[i].approver != a.approver)
  }

  /** A decision goes through exactly with a live approval by somebody in an approving role, other than
      the requester, on a live change whose dry run succeeded, and with an unused approval. */
  lemma DecisionIff(db: Tables, id: string, a: Approval, approve: bool, now: int)
    requires IsLive(db, id, now)
    ensures var (after, r) := Operate(db, Decide(id, a, approve), now);
            var c := db.changes[id];
            var valid := MayDecide(a.role) && LivesAt(a.expiresAt, now);
            var ready := c.state == DryRunSucceeded || c.state == ApprovalPending;
            && (r.Ok? <==> valid && a.approver != c.actor && ready && ApprovalUnused(db, id, a))
            && (r == Err(Invalid) <==> !valid)
            && (r == Err(WrongPrincipal) <==> valid && a.approver == c.actor)
            && (r == Err(WrongState) <==> valid && a.approver != c.actor && !ready)
            && (r == Err(Duplicate) <==> valid && a.approver != c.actor && ready && !ApprovalUnused(db, id, a))
            && (r.Ok? ==> r.value == c.(state := if approve then Approved else Rejected))
            && (r.Ok? ==> after.changes == db.changes[id := r.value])
            && (r.Err? ==> after == db)
  {}

  /** Whatever state it had read, a decision leaves a trace only with a live approval in an approving role. */
  lemma DecidesOnlyInRole(db: Tables, id: string, a: Approval, approve: bool, now: int, seen: State)
    requires Commit(db, Decide(id, a, approve), now, seen) != db
    ensures MayDecide(a.role) && LivesAt(a.expiresAt, now)
  {}

  /** A change can be cancelled exactly by its requester while it lives and has not been rejected,
      dispatched or ended. */
  lemma CancelIff(db: Tables, id: string, actor: string, now: int)
    requires IsLive(db, id, now)
    ensures var (after, r) := Operate(db, Cancel(id, actor), now);
            var c := db.changes[id];
            var open := c.state in {Draft, DryRunPending, DryRunSucceeded, DryRunFailed, ApprovalPending, Approved};
            && (r.Ok? <==> actor == c.actor && open)
            && (r == Err(WrongPrincipal) <==> actor != c.actor)
            && (r == Err(WrongState) <==> actor == c.actor && !open)
            && (r.Ok? ==> r.value == c.(state := Cancelled) && after.changes == db.changes[id := r.value])
            && (r.Err? ==> after == db)
  {}

  lemma {:induction false} DecidersOf(decisions: seq<Decision>, id: string, i: nat)
    requires i < |decisions| && decisions[i].requestId == id
    ensures decisions[i] in DecisionsFor(decisions, id)
  {
    if i < |decisions| - 1 { DecidersOf(decisions[..|decisions| - 1], id, i); }
  }

  /** In every run a change that waits for its decision has none yet: whoever else approves under a
      new approval id gets through. */
  lemma WaitingIsUndecided(run: seq<Step>, id: string)
    requires id in After(EMPTY, run).changes && After(EMPTY, run).changes[id].state == DryRunSucceeded
    ensures DecisionsFor(After(EMPTY, run).decisions, id) == []
  {
    var db := After(EMPTY, run);
    var rows := Trail(db.audit, id);
    AlwaysGood(run, id);
    forall i | 0 <= i < |rows| ensures !Decides(rows[i]) { RanksGrow(rows, db.changes[id], i, |rows| - 1); }
    DecidedNever(rows);
  }

  /** The approver's way in every run: with a fresh approval id, nothing but role, lifetime and being
      somebody else stands between a successful dry run and its decision. */
  lemma ApproverGetsThrough(run: seq<Step>, id: string, a: Approval, approve: bool, now: int)
    requires IsLive(After(EMPTY, run), id, now) && After(EMPTY, run).changes[id].state == DryRunSucceeded
    requires forall i :: 0 <= i < |After(EMPTY, run).decisions| ==>
               After(EMPTY, run).decisions[i].approvalId != a.approvalId
    ensures Operate(After(EMPTY, run), Decide(id, a, approve), now).1.Ok? <==>
            MayDecide(a.role) && LivesAt(a.expiresAt, now) && a.approver != After(EMPTY, run).changes[id].actor
  {
    var db := After(EMPTY, run);
    WaitingIsUndecided(run, id);
    forall i | 0 <= i < |db.decisions| && db.decisions[i].requestId == id ensures false {
      DecidersOf(db.decisions, id, i);
    }
    DecisionIff(db, id, a, approve, now);
  }
}
