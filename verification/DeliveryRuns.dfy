/** Every interleaving of delivery workers: attempts are numbered without gaps, a lost lease
    never writes again, and finished items stay finished. */
module DeliveryRuns {
  import opened DeliveryQueue
  import opened Outcomes

  /** The queue and every claim ever handed to a worker. */
  datatype World = World(queue: Queue, issued: set<Claim>)

  datatype Step =
    | Enqueue(id: string, alertId: string, hookId: string, key: string, group: string, now: int)
    | ClaimNext(owner: string, now: int, lease: int, lapsed: set<string>, pick: string)
    | Renew(claim: Claim, now: int, lease: int)
    | Finish(outcome: Outcome)
    | Defer(claim: Claim, at: int, next: int)

  function Issue(w: World, q: Queue, r: Result<Claim, QueueError>): World {
    World(q, if r.Ok? then w.issued + {r.value} else w.issued)
  }

  /** Workers act only on claims they were given. */
  function Next(w: World, s: Step): World {
    match s
    case Enqueue(id, alertId, hookId, key, group, now) =>
      var r := EnqueueTx(w.queue, id, alertId, hookId, key, group, now);
      if r.Ok? then w.(queue := r.value) else w
    case ClaimNext(owner, now, lease, lapsed, pick) =>
      var (q, r) := ClaimTx(w.queue, owner, now, lease, lapsed, pick);
      Issue(w, q, r)
    case Renew(c, now, lease) =>
      if c !in w.issued then w
      else
        var r := RenewTx(w.queue, c, now, lease);
        if r.Ok? then World(r.value.0, w.issued + {r.value.1}) else w
    case Finish(o) =>
      if o.claim !in w.issued then w
      else
        var r := OutcomeTx(w.queue, o);
        if r.Ok? then w.(queue := r.value) else w
    case Defer(c, at, next) =>
      if c !in w.issued then w
      else
        var r := DeferTx(w.queue, c, at, next);
        if r.Ok? then w.(queue := r.value) else w
  }

  function After(w: World, run: seq<Step>): World
    decreases |run|
  {
    if run == [] then w else Next(After(w, run[..|run| - 1]), run[|run| - 1])
  }

  const EMPTY: World := World(Queue(map[], []), {})

  // ---------- The invariant of one item ----------

  function RowsFor(rows: seq<AttemptRow>, id: string): seq<AttemptRow> {
    if rows == [] then []
    else
      var last := rows[|rows| - 1];
      if last.queueId == id then RowsFor(rows[..|rows| - 1], id) + [last] else RowsFor(rows[..|rows| - 1], id)
  }

  predicate Ended(s: Status) { s.Succeeded? || s.DeadLetter? }

  /** Row `j` is attempt `j + 1`, under a later fence than the row before; only the last may be a
      success. */
  predicate Numbered(rows: seq<AttemptRow>) {
    && (forall j :: 0 <= j < |rows| ==> rows[j].attemptNo == j + 1)
    && (forall j, k :: 0 <= j < k < |rows| ==> rows[j].fence < rows[k].fence && !rows[j].succeeded)
  }

  predicate ItemAgrees(item: Item, rows: seq<AttemptRow>) {
    && Numbered(rows) && item.attemptCount == |rows|
    && (rows != [] ==> rows[|rows| - 1].fence <= item.fence)
    && (item.status.Claimed? ==> item.fence > 0 && (rows != [] ==> rows[|rows| - 1].fence < item.fence))
    && (if Ended(item.status) then 1 <= |rows| <= MAX_ATTEMPTS else |rows| < MAX_ATTEMPTS)
    && (item.status.Succeeded? <==> rows != [] && rows[|rows| - 1].succeeded)
  }

  /** A claim is no younger than its item; one that carries the current fence of a claimed item
      is the worker that holds it. */
  predicate ClaimAgrees(c: Claim, item: Item) {
    && c.fence <= item.fence
    && (item.status.Claimed? && c.fence == item.fence ==>
          c.owner == item.status.owner && c.attemptCount == item.attemptCount)
  }

  predicate Good(w: World, id: string) {
    && (if id in w.queue.items then ItemAgrees(w.queue.items[id], RowsFor(w.queue.attempts, id))
        else RowsFor(w.queue.attempts, id) == [])
    && (forall c :: c in w.issued && c.queueId == id ==> id in w.queue.items && ClaimAgrees(c, w.queue.items[id]))
  }

  // ---------- Each step keeps it ----------

  lemma RecoverGood(w: World, lapsed: set<string>, now: int, id: string)
    requires Good(w, id)
    ensures Good(w.(queue := w.queue.(items := Recover(w.queue.items, lapsed, now))), id)
  {}

  lemma ClaimGood(w: World, s: Step, id: string)
    requires Good(w, id) && s.ClaimNext?
    ensures Good(Next(w, s), id)
  {
    RecoverGood(w, s.lapsed, s.now, id);
  }

  lemma RowsAppend(rows: seq<AttemptRow>, row: AttemptRow, id: string)
    ensures RowsFor(rows + [row], id) == if row.queueId == id then RowsFor(rows, id) + [row] else RowsFor(rows, id)
  {
    assert (rows + [row])[..|rows|] == rows;
  }

  /** The attempt a holder records is the next one, and no later attempt follows an ending. */
  lemma FinishedAgrees(item: Item, rows: seq<AttemptRow>, o: Outcome, done: Item, row: AttemptRow)
    requires ItemAgrees(item, rows) && item.status.Claimed? && ValidOutcome(o)
    requires item.fence == o.claim.fence && item.attemptCount == o.claim.attemptCount
    requires row.attemptNo == o.claim.attemptCount + 1 && row.succeeded == o.succeeded && row.fence == o.claim.fence
    requires done.attemptCount == row.attemptNo && done.fence == item.fence
    requires done.status == if o.succeeded then Succeeded else if ShouldRetry(o) then Retry else DeadLetter
    ensures ItemAgrees(done, rows + [row])
  {}

  lemma UpdatedGood(w: World, id: string, done: Item, row: AttemptRow, after: World)
    requires Good(w, id) && id in w.queue.items && row.queueId == id
    requires done.fence == w.queue.items[id].fence && !done.status.Claimed?
    requires ItemAgrees(done, RowsFor(w.queue.attempts, id) + [row])
    requires after == w.(queue := Queue(w.queue.items[id := done], w.queue.attempts + [row]))
    ensures Good(after, id)
  {
    RowsAppend(w.queue.attempts, row, id);
    forall c | c in w.issued && c.queueId == id ensures ClaimAgrees(c, done) {
      assert ClaimAgrees(c, w.queue.items[id]);
    }
  }

  lemma FinishedItem(q: Queue, o: Outcome, row: AttemptRow) returns (done: Item)
    requires OutcomeTx(q, o).Ok?
    requires row == AttemptRow(o.claim.queueId, o.claim.attemptCount + 1, o.succeeded, o.claim.fence)
    ensures OutcomeTx(q, o) == Ok(Queue(q.items[o.claim.queueId := done], q.attempts + [row]))
    ensures done.attemptCount == row.attemptNo && done.fence == q.items[o.claim.queueId].fence
    ensures done.status == if o.succeeded then Succeeded else if ShouldRetry(o) then Retry else DeadLetter
    ensures ValidOutcome(o) && Holds(q.items, o.claim, o.completedAt)
  {
    done := OutcomeTx(q, o).value.items[o.claim.queueId];
  }

  /** The holder's outcome: the item it leaves agrees with the rows, one more than before. */
  lemma FinishOwn(w: World, o: Outcome, row: AttemptRow) returns (done: Item)
    requires Good(w, o.claim.queueId) && o.claim in w.issued && OutcomeTx(w.queue, o).Ok?
    requires row == AttemptRow(o.claim.queueId, o.claim.attemptCount + 1, o.succeeded, o.claim.fence)
    ensures OutcomeTx(w.queue, o) == Ok(Queue(w.queue.items[o.claim.queueId := done], w.queue.attempts + [row]))
    ensures done.fence == w.queue.items[o.claim.queueId].fence && !done.status.Claimed?
    ensures ItemAgrees(done, RowsFor(w.queue.attempts, o.claim.queueId) + [row])
  {
    var id := o.claim.queueId;
    done := FinishedItem(w.queue, o, row);
    assert ClaimAgrees(o.claim, w.queue.items[id]);
    FinishedAgrees(w.queue.items[id], RowsFor(w.queue.attempts, id), o, done, row);
  }

  lemma FinishGood(w: World, s: Step, id: string)
    requires Good(w, id) && s.Finish?
    ensures Good(Next(w, s), id)
  {
    var c := s.outcome.claim;
    if c in w.issued && OutcomeTx(w.queue, s.outcome).Ok? {
      var row := AttemptRow(c.queueId, c.attemptCount + 1, s.outcome.succeeded, c.fence);
      if c.queueId == id {
        var done := FinishOwn(w, s.outcome, row);
        UpdatedGood(w, id, done, row, Next(w, s));
      } else {
        RowsAppend(w.queue.attempts, row, id);
      }
    }
  }

  lemma StepGood(w: World, s: Step, id: string)
    requires Good(w, id)
    ensures Good(Next(w, s), id)
  {
    if s.ClaimNext? { ClaimGood(w, s, id); }
    if s.Finish? { FinishGood(w, s, id); }
  }

  /** In every run an item has made `attemptCount` attempts, at most five, recorded as 1, 2, 3, ...
      each under its own fence; it has succeeded exactly if the last one did; and a claim that
      could still write is the current holder's, with the current count. */
  lemma {:induction false} AlwaysGood(run: seq<Step>, id: string)
    ensures Good(After(EMPTY, run), id)
  {
    if run != [] {
      AlwaysGood(run[..|run| - 1], id);
      StepGood(After(EMPTY, run[..|run| - 1]), run[|run| - 1], id);
    }
  }

  // ---------- A lost lease never writes again ----------

  /** Fence `f` of the item has been given up. */
  predicate Spent(w: World, id: string, f: nat) {
    && id in w.queue.items && w.queue.items[id].fence >= f
    && (w.queue.items[id].fence == f ==> !w.queue.items[id].status.Claimed?)
  }

  lemma SpentStep(w: World, s: Step, id: string, f: nat)
    requires Spent(w, id, f)
    ensures Spent(Next(w, s), id, f)
  {}

  /** Once given up, whatever happens, a claim under that fence can neither renew nor finish nor
      defer. */
  lemma {:induction false} SpentForever(w: World, run: seq<Step>, id: string, f: nat)
    requires Spent(w, id, f)
    ensures Spent(After(w, run), id, f)
    ensures forall c: Claim, at, seconds :: c.queueId == id && c.fence == f ==>
              RenewTx(After(w, run).queue, c, at, seconds).Err?
    ensures forall o: Outcome :: o.claim.queueId == id && o.claim.fence == f ==> OutcomeTx(After(w, run).queue, o).Err?
    ensures forall c: Claim, at, next :: c.queueId == id && c.fence == f ==>
              DeferTx(After(w, run).queue, c, at, next).Err?
    decreases |run|
  {
    if run != [] {
      SpentForever(w, run[..|run| - 1], id, f);
      SpentStep(After(w, run[..|run| - 1]), run[|run| - 1], id, f);
    }
  }

  /** The steps that take a claimed item from its holder. */
  predicate TakesFromHolder(w: World, s: Step, id: string)
    requires id in w.queue.items
  {
    match s
    case Finish(o) => o.claim in w.issued && o.claim.queueId == id && OutcomeTx(w.queue, o).Ok?
    case Defer(c, at, next) => c in w.issued && c.queueId == id && DeferTx(w.queue, c, at, next).Ok?
    case ClaimNext(_, now, lease, lapsed, _) => ValidLease(lease) && id in lapsed && Lapsed(w.queue.items[id], now)
    case _ => false
  }

  /** Finishing, deferring and losing the lease to recovery, even with a new claim at once, give
      the fence up. */
  lemma GivenUp(w: World, s: Step, id: string)
    requires id in w.queue.items && TakesFromHolder(w, s, id)
    ensures Spent(Next(w, s), id, w.queue.items[id].fence)
  {}

  /** While a lease runs no other worker is given the item. */
  lemma LeaseExcludes(w: World, s: Step, id: string)
    requires id in w.queue.items && w.queue.items[id].status.Claimed?
    requires s.ClaimNext? && s.now < w.queue.items[id].status.leaseExpiresAt
    ensures Next(w, s).queue.items[id] == w.queue.items[id]
    ensures forall c :: c in Next(w, s).issued && c.queueId == id ==> c in w.issued
  {}

  /** The step leaves the item to its holder: nobody finishes or defers it, and a claim comes
      before the end of the lease then in force. */
  predicate LeavesToHolder(w: World, s: Step, id: string) {
    match s
    case Finish(o) => o.claim.queueId != id
    case Defer(c, _, _) => c.queueId != id
    case ClaimNext(_, now, _, _, _) =>
      id in w.queue.items && w.queue.items[id].status.Claimed? ==> now < w.queue.items[id].status.leaseExpiresAt
    case _ => true
  }

  predicate AllLeaveToHolder(w: World, run: seq<Step>, id: string) {
    run == [] ||
    (AllLeaveToHolder(w, run[..|run| - 1], id) && LeavesToHolder(After(w, run[..|run| - 1]), run[|run| - 1], id))
  }

  /** `owner` holds the item under fence `f`, and since `issued` only renewals of that were handed out. */
  ghost predicate HeldBy(w: World, id: string, owner: string, f: nat, attempts: nat, issued: set<Claim>) {
    && id in w.queue.items && w.queue.items[id].status.Claimed?
    && w.queue.items[id].status.owner == owner && w.queue.items[id].fence == f
    && w.queue.items[id].attemptCount == attempts
    && forall c :: c in w.issued && c.queueId == id && c !in issued ==> c.owner == owner && c.fence == f
  }

  lemma HeldStep(w: World, s: Step, id: string, owner: string, f: nat, attempts: nat, issued: set<Claim>)
    requires HeldBy(w, id, owner, f, attempts, issued) && LeavesToHolder(w, s, id)
    ensures HeldBy(Next(w, s), id, owner, f, attempts, issued)
  {
    if s.ClaimNext? { LeaseExcludes(w, s, id); }
  }

  /** From a claim on, as long as the holder does not give the item up, no run whose claims come
      before the end of the lease hands it to another owner or under another fence. */
  lemma {:induction false} LeaseHolds(w: World, run: seq<Step>, id: string)
    requires id in w.queue.items && w.queue.items[id].status.Claimed? && AllLeaveToHolder(w, run, id)
    ensures var item := w.queue.items[id];
            HeldBy(After(w, run), id, item.status.owner, item.fence, item.attemptCount, w.issued)
    decreases |run|
  {
    if run != [] {
      var item, before := w.queue.items[id], After(w, run[..|run| - 1]);
      LeaseHolds(w, run[..|run| - 1], id);
      HeldStep(before, run[|run| - 1], id, item.status.owner, item.fence, item.attemptCount, w.issued);
    }
  }

  // ---------- Endings are final ----------

  lemma EndedStep(w: World, s: Step, id: string)
    requires id in w.queue.items && Ended(w.queue.items[id].status)
    ensures id in Next(w, s).queue.items && Next(w, s).queue.items[id] == w.queue.items[id]
    ensures RowsFor(Next(w, s).queue.attempts, id) == RowsFor(w.queue.attempts, id)
  {
    if s.Finish? {
      var c := s.outcome.claim;
      RowsAppend(w.queue.attempts, AttemptRow(c.queueId, c.attemptCount + 1, s.outcome.succeeded, c.fence), id);
    }
  }

  /** A delivered or dead item is never touched again. */
  lemma {:induction false} EndedForever(w: World, run: seq<Step>, id: string)
    requires id in w.queue.items && Ended(w.queue.items[id].status)
    ensures id in After(w, run).queue.items && After(w, run).queue.items[id] == w.queue.items[id]
    ensures RowsFor(After(w, run).queue.attempts, id) == RowsFor(w.queue.attempts, id)
    decreases |run|
  {
    if run != [] {
      EndedForever(w, run[..|run| - 1], id);
      EndedStep(After(w, run[..|run| - 1]), run[|run| - 1], id);
    }
  }

  // ---------- Waiting is respected ----------

  predicate Waiting(item: Item) { item.status.Pending? || item.status.Retry? }

  /** A step that does not claim at or after `due`. */
  predicate Earlier(s: Step, due: int) { s.ClaimNext? ==> s.now < due }

  lemma WaitingStep(w: World, s: Step, id: string)
    requires id in w.queue.items && Waiting(w.queue.items[id]) && Earlier(s, w.queue.items[id].nextAttemptAt)
    ensures id in Next(w, s).queue.items && Next(w, s).queue.items[id] == w.queue.items[id]
  {}

  /** An item that waits for its next attempt is left alone until that time. */
  lemma {:induction false} WaitsUntilDue(w: World, run: seq<Step>, id: string)
    requires id in w.queue.items && Waiting(w.queue.items[id])
    requires forall i :: 0 <= i < |run| ==> Earlier(run[i], w.queue.items[id].nextAttemptAt)
    ensures id in After(w, run).queue.items && After(w, run).queue.items[id] == w.queue.items[id]
    decreases |run|
  {
    if run != [] {
      WaitsUntilDue(w, run[..|run| - 1], id);
      WaitingStep(After(w, run[..|run| - 1]), run[|run| - 1], id);
    }
  }
}
