/** The alert delivery queue: workers claim items under a lease with a fence token, and every
    later write of a worker must still hold the lease and match the fence. Times are seconds. */
module DeliveryQueue {
  import opened Outcomes

  const MAX_ATTEMPTS: nat := 5
  const HOUR: int := 3600

  datatype Status =
    | Pending | Claimed(owner: string, claimedAt: int, leaseExpiresAt: int) | Retry | DeadLetter | Succeeded

  datatype Item = Item(
    alertId: string, hookId: string, idempotencyKey: string, group: string, status: Status, attemptCount: nat,
    nextAttemptAt: int, fence: nat)

  /** What a worker holds. */
  datatype Claim = Claim(
    queueId: string, group: string, attemptCount: nat, owner: string, fence: nat, claimedAt: int, leaseExpiresAt: int)

  /** A row of the attempt table, with the item and the fence it was written under. */
  datatype AttemptRow = AttemptRow(queueId: string, attemptNo: nat, succeeded: bool, fence: nat)

  datatype Queue = Queue(items: map<string, Item>, attempts: seq<AttemptRow>)

  datatype Outcome = Outcome(
    claim: Claim, succeeded: bool, retryable: bool, maxAttempts: nat, retryAt: Option<int>,
    attemptedAt: int, completedAt: int)

  datatype QueueError = InvalidInput | LeaseLost | AlreadyBound | NothingDue

  predicate ValidLease(seconds: int) { 30 <= seconds <= 600 }

  predicate ValidClaim(c: Claim) {
    c.fence > 0 && c.attemptCount <= MAX_ATTEMPTS && c.claimedAt < c.leaseExpiresAt
  }

  predicate ShouldRetry(o: Outcome) {
    !o.succeeded && o.retryable && o.claim.attemptCount + 1 < o.maxAttempts
  }

  predicate ValidOutcome(o: Outcome) {
    && ValidClaim(o.claim) && 1 <= o.maxAttempts <= MAX_ATTEMPTS
    && (o.succeeded ==> !o.retryable && o.retryAt.None?)
    && (ShouldRetry(o) <==> o.retryAt.Some?)
    && (o.retryAt.Some? ==> o.completedAt < o.retryAt.value <= o.completedAt + HOUR)
    && o.claim.claimedAt <= o.attemptedAt <= o.completedAt
  }

  /** The `WHERE` clause of every write by a worker. */
  predicate Holds(items: map<string, Item>, c: Claim, at: int) {
    && c.queueId in items && items[c.queueId].status.Claimed?
    && items[c.queueId].status.owner == c.owner && items[c.queueId].fence == c.fence
    && items[c.queueId].status.leaseExpiresAt > at
  }

  predicate SameRequest(item: Item, alertId: string, hookId: string, key: string, group: string) {
    item.alertId == alertId && item.hookId == hookId && item.idempotencyKey == key && item.group == group
  }

  function EnqueueTx(q: Queue, id: string, alertId: string, hookId: string, key: string, group: string, now: int):
    Result<Queue, QueueError>
  {
    if exists k :: k in q.items && (k == id || q.items[k].idempotencyKey == key) then
      if id in q.items && SameRequest(q.items[id], alertId, hookId, key, group) then Ok(q) else Err(AlreadyBound)
    else Ok(q.(items := q.items[id := Item(alertId, hookId, key, group, Pending, 0, now, 0)]))
  }

  predicate Lapsed(item: Item, now: int) {
    item.status.Claimed? && item.status.leaseExpiresAt <= now
  }

  /** A lapsed claim goes back to the queue; the attempt count and the fence stay. */
  function Recovered(item: Item, now: int): Item {
    if Lapsed(item, now) then item.(status := Retry, nextAttemptAt := now) else item
  }

  function Recover(items: map<string, Item>, lapsed: set<string>, now: int): map<string, Item> {
    map id | id in items :: if id in lapsed then Recovered(items[id], now) else items[id]
  }

  lemma RecoverOne(items: map<string, Item>, done: set<string>, id: string, now: int)
    requires id in items
    ensures Recover(items, done + {id}, now) == Recover(items, done, now)[id := Recovered(items[id], now)]
    ensures Recovered(Recover(items, done, now)[id], now) == Recovered(items[id], now)
  {}

  method RecoverLapsed(items: map<string, Item>, lapsed: seq<string>, now: int) returns (recovered: map<string, Item>)
    ensures recovered == Recover(items, (set id | id in lapsed), now)
  {
    recovered := items;
    ghost var done: set<string> := {};
    for i := 0 to |lapsed|
      invariant done == set id | id in lapsed[..i]
      invariant recovered == Recover(items, done, now)
    {
      var id := lapsed[i];
      if id in recovered {
        RecoverOne(items, done, id, now);
        recovered := recovered[id := Recovered(recovered[id], now)];
      }
      done := done + {id};
    }
    assert lapsed[..|lapsed|] == lapsed;
  }

  predicate Due(item: Item, now: int) {
    (item.status.Pending? || item.status.Retry?) && item.nextAttemptAt <= now
  }

  function ClaimOf(id: string, item: Item): Claim
    requires item.status.Claimed?
  {
    var Claimed(owner, claimedAt, leaseExpiresAt) := item.status;
    Claim(id, item.group, item.attemptCount, owner, item.fence, claimedAt, leaseExpiresAt)
  }

  function Taken(item: Item, owner: string, now: int, lease: int): Item {
    item.(status := Claimed(owner, now, now + lease), fence := item.fence + 1)
  }

  /** Recovers `lapsed` and claims `pick`, if it is due. */
  function ClaimTx(q: Queue, owner: string, now: int, lease: int, lapsed: set<string>, pick: string):
    (Queue, Result<Claim, QueueError>)
  {
    if !ValidLease(lease) then (q, Err(InvalidInput))
    else
      var items := Recover(q.items, lapsed, now);
      if pick !in items || !Due(items[pick], now) then (q.(items := items), Err(NothingDue))
      else
        var item := Taken(items[pick], owner, now, lease);
        (q.(items := items[pick := item]), Ok(ClaimOf(pick, item)))
  }

  function RenewTx(q: Queue, c: Claim, now: int, lease: int): Result<(Queue, Claim), QueueError> {
    if !ValidClaim(c) || !ValidLease(lease) then Err(InvalidInput)
    else if !Holds(q.items, c, now) then Err(LeaseLost)
    else
      var item := q.items[c.queueId];
      Ok((q.(items := q.items[c.queueId := item.(status := item.status.(leaseExpiresAt := now + lease))]),
          c.(leaseExpiresAt := now + lease)))
  }

  function OutcomeTx(q: Queue, o: Outcome): Result<Queue, QueueError> {
    if !ValidOutcome(o) then Err(InvalidInput)
    else if !Holds(q.items, o.claim, o.completedAt) then Err(LeaseLost)
    else
      var c := o.claim;
      var status := if o.succeeded then Succeeded else if ShouldRetry(o) then Retry else DeadLetter;
      var next := if o.retryAt.Some? then o.retryAt.value else o.completedAt;
      var item := q.items[c.queueId].(status := status, attemptCount := c.attemptCount + 1, nextAttemptAt := next);
      Ok(Queue(q.items[c.queueId := item],
               q.attempts + [AttemptRow(c.queueId, c.attemptCount + 1, o.succeeded, c.fence)]))
  }

  function DeferTx(q: Queue, c: Claim, at: int, next: int): Result<Queue, QueueError> {
    if !ValidClaim(c) || !(at < next <= at + HOUR) then Err(InvalidInput)
    else if !Holds(q.items, c, at) then Err(LeaseLost)
    else Ok(q.(items := q.items[c.queueId := q.items[c.queueId].(status := Retry, nextAttemptAt := next)]))
  }

  class QueueStore {
    var items: map<string, Item>
    var attempts: seq<AttemptRow>

    function Value(): Queue
      reads this
    {
      Queue(items, attempts)
    }

    constructor ()
      ensures Value() == Queue(map[], [])
    {
      items, attempts := map[], [];
    }

    method Enqueue(id: string, alertId: string, hookId: string, key: string, group: string, now: int)
      returns (error: Option<QueueError>)
      modifies this
      ensures match EnqueueTx(old(Value()), id, alertId, hookId, key, group, now) {
                case Ok(q) => Value() == q && error == None
                case Err(e) => Value() == old(Value()) && error == Some(e)
              }
    {
      if exists k :: k in items && (k == id || items[k].idempotencyKey == key) {
        var same := id in items && SameRequest(items[id], alertId, hookId, key, group);
        return if same then None else Some(AlreadyBound);
      }
      items := items[id := Item(alertId, hookId, key, group, Pending, 0, now, 0)];
      error := None;
    }

    /** `lapsed` are the claims the recovery query returns, `pick` the due item chosen. */
    method ClaimNext(owner: string, now: int, lease: int, lapsed: seq<string>, pick: string)
      returns (r: Result<Claim, QueueError>)
      modifies this
      ensures (Value(), r) == ClaimTx(old(Value()), owner, now, lease, (set id | id in lapsed), pick)
    {
      if !ValidLease(lease) { return Err(InvalidInput); }
      var recovered := RecoverLapsed(items, lapsed, now);
      items := recovered;
      if pick !in items || !Due(items[pick], now) { return Err(NothingDue); }
      items := items[pick := items[pick].(status := Claimed(owner, now, now + lease), fence := items[pick].fence + 1)];
      r := Ok(ClaimOf(pick, items[pick]));
    }

    method Renew(c: Claim, now: int, lease: int) returns (r: Result<Claim, QueueError>)
      modifies this
      ensures match RenewTx(old(Value()), c, now, lease) {
                case Ok(done) => Value() == done.0 && r == Ok(done.1)
                case Err(e) => Value() == old(Value()) && r == Err(e)
              }
    {
      if !ValidClaim(c) || !ValidLease(lease) { return Err(InvalidInput); }
      if !Holds(items, c, now) { return Err(LeaseLost); }
      var item := items[c.queueId];
      items := items[c.queueId := item.(status := item.status.(leaseExpiresAt := now + lease))];
      r := Ok(c.(leaseExpiresAt := now + lease));
    }

    method WriteOutcome(o: Outcome) returns (error: Option<QueueError>)
      modifies this
      ensures match OutcomeTx(old(Value()), o) {
                case Ok(q) => Value() == q && error == None
                case Err(e) => Value() == old(Value()) && error == Some(e)
              }
    {
      if !ValidOutcome(o) { return Some(InvalidInput); }
      if !Holds(items, o.claim, o.completedAt) { return Some(LeaseLost); }
      var c := o.claim;
      var nextAttempt := c.attemptCount + 1;
      var retry := !o.succeeded && o.retryable && nextAttempt < o.maxAttempts;
      var status := if o.succeeded then Succeeded else if retry then Retry else DeadLetter;
      var next := if retry then o.retryAt.value else o.completedAt;
      var item := items[c.queueId].(status := status, attemptCount := nextAttempt, nextAttemptAt := next);
      items := items[c.queueId := item];
      attempts := attempts + [AttemptRow(c.queueId, nextAttempt, o.succeeded, c.fence)];
      error := None;
    }

    method Defer(c: Claim, at: int, next: int) returns (error: Option<QueueError>)
      modifies this
      ensures match DeferTx(old(Value()), c, at, next) {
                case Ok(q) => Value() == q && error == None
                case Err(e) => Value() == old(Value()) && error == Some(e)
              }
    {
      if !ValidClaim(c) || next <= at || next - at > HOUR { return Some(InvalidInput); }
      if !Holds(items, c, at) { return Some(LeaseLost); }
      items := items[c.queueId := items[c.queueId].(status := Retry, nextAttemptAt := next)];
      error := None;
    }
  }
}
