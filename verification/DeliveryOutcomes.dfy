/** Which requests to the delivery queue are granted, what they leave behind, and what that means for
    the runs that follow. */
module DeliveryOutcomes {
  import opened DeliveryQueue
  import opened DeliveryRuns
  import opened Outcomes

  /** A new id and a new idempotency key make a pending item that is due at once; the same request
      again changes nothing; any other reuse is refused. */
  lemma EnqueuedIff(q: Queue, id: string, alertId: string, hookId: string, key: string, group: string, now: int)
    ensures var r := EnqueueTx(q, id, alertId, hookId, key, group, now);
            var unused := id !in q.items && forall k :: k in q.items ==> q.items[k].idempotencyKey != key;
            var repeated := id in q.items && q.items[id].alertId == alertId && q.items[id].hookId == hookId
                            && q.items[id].idempotencyKey == key && q.items[id].group == group;
            if unused then
              && r.Ok? && r.value.attempts == q.attempts && r.value.items.Keys == q.items.Keys + {id}
              && (forall k :: k in q.items ==> r.value.items[k] == q.items[k])
              && r.value.items[id].status == Pending && Due(r.value.items[id], now)
              && SameRequest(r.value.items[id], alertId, hookId, key, group)
              && r.value.items[id].attemptCount == r.value.items[id].fence == 0
            else if repeated then r == Ok(q)
            else r == Err(AlreadyBound)
  {
    if id in q.items { assert exists k :: k in q.items && (k == id || q.items[k].idempotencyKey == key); }
  }

  /** An item that may be handed out: it waits and is due, or its lease has run out and is recovered. */
  predicate Available(q: Queue, id: string, now: int, lapsed: set<string>) {
    && id in q.items
    && match q.items[id].status {
         case Pending | Retry => q.items[id].nextAttemptAt <= now
         case Claimed(_, _, leaseExpiresAt) => leaseExpiresAt <= now && id in lapsed
         case _ => false
       }
  }

  /** A claim is granted exactly for a lease of half a minute to ten minutes on an available item, to
      its owner alone, under the next fence, until the end of the lease. */
  lemma ClaimedIff(q: Queue, owner: string, now: int, lease: int, lapsed: set<string>, pick: string)
    ensures var (after, r) := ClaimTx(q, owner, now, lease, lapsed, pick);
            && (r.Ok? <==> 30 <= lease <= 600 && Available(q, pick, now, lapsed))
            && (r == Err(InvalidInput) <==> !(30 <= lease <= 600))
            && (r.Err? ==> r.error == InvalidInput || r.error == NothingDue)
            && (r.Ok? ==>
                  var item := q.items[pick];
                  && r.value == Claim(pick, item.group, item.attemptCount, owner, item.fence + 1, now, now + lease)
                  && ValidClaim(r.value) == (item.attemptCount <= MAX_ATTEMPTS)
                  && forall at :: Holds(after.items, r.value, at) <==> at < now + lease)
  {}

  /** What else a claim does: it returns exactly the lapsed items it was given to the queue. */
  lemma ClaimRecovers(q: Queue, owner: string, now: int, lease: int, lapsed: set<string>, pick: string, id: string)
    requires 30 <= lease <= 600 && id in q.items
    ensures var (after, r) := ClaimTx(q, owner, now, lease, lapsed, pick);
            var item := q.items[id];
            && id in after.items && after.attempts == q.attempts
            && (!(r.Ok? && id == pick) ==>
                  after.items[id] ==
                    if id in lapsed && item.status.Claimed? && item.status.leaseExpiresAt <= now
                    then item.(status := Retry, nextAttemptAt := now) else item)
  {}

  /** The worker still holds the item of its claim. */
  predicate StillHeld(q: Queue, c: Claim, at: int) {
    && c.queueId in q.items && q.items[c.queueId].fence == c.fence
    && match q.items[c.queueId].status {
         case Claimed(owner, _, leaseExpiresAt) => owner == c.owner && at < leaseExpiresAt
         case _ => false
       }
  }

  predicate WellFormed(c: Claim) { c.fence >= 1 && c.attemptCount <= 5 && c.claimedAt < c.leaseExpiresAt }

  lemma RenewedIff(q: Queue, c: Claim, now: int, lease: int)
    ensures var r := RenewTx(q, c, now, lease);
            var valid := WellFormed(c) && 30 <= lease <= 600;
            && (r.Ok? <==> valid && StillHeld(q, c, now))
            && (r == Err(InvalidInput) <==> !valid)
            && (r == Err(LeaseLost) <==> valid && !StillHeld(q, c, now))
            && (r.Ok? ==>
                  var (after, renewed) := r.value;
                  && renewed == c.(leaseExpiresAt := now + lease)
                  && after.attempts == q.attempts && after.items.Keys == q.items.Keys
                  && forall at :: StillHeld(after, renewed, at) <==> at < now + lease)
  {}

  /** Attempts left after this one, and a failure worth another. */
  predicate TriesAgain(o: Outcome) {
    !o.succeeded && o.retryable && o.claim.attemptCount + 1 < o.maxAttempts
  }

  /** A retry time within the hour exactly for an outcome that is tried again. */
  predicate Consistent(o: Outcome) {
    && 1 <= o.maxAttempts <= 5 && (o.succeeded ==> !o.retryable)
    && o.claim.claimedAt <= o.attemptedAt <= o.completedAt
    && match o.retryAt {
         case None => !TriesAgain(o)
         case Some(at) => TriesAgain(o) && o.completedAt < at && at - o.completedAt <= 3600
       }
  }

  /** An outcome is recorded exactly for the holder of a running lease; a success ends the item, a
      failure sends it back until its retry time or to the dead letters. */
  lemma FinishedIff(q: Queue, o: Outcome)
    ensures var r := OutcomeTx(q, o);
            var valid := WellFormed(o.claim) && Consistent(o);
            && (r.Ok? <==> valid && StillHeld(q, o.claim, o.completedAt))
            && (r == Err(InvalidInput) <==> !valid)
            && (r == Err(LeaseLost) <==> valid && !StillHeld(q, o.claim, o.completedAt))
            && (r.Ok? ==>
                  var item := r.value.items[o.claim.queueId];
                  && |r.value.attempts| == |q.attempts| + 1
                  && item.attemptCount == o.claim.attemptCount + 1
                  && (item.status == Succeeded <==> o.succeeded)
                  && (item.status == Retry <==> TriesAgain(o))
                  && (item.status == DeadLetter <==> !o.succeeded && !TriesAgain(o))
                  && (o.retryAt.Some? ==> item.nextAttemptAt == o.retryAt.value))
  {}

  lemma DeferredIff(q: Queue, c: Claim, at: int, next: int)
    ensures var r := DeferTx(q, c, at, next);
            var valid := WellFormed(c) && at < next && next - at <= 3600;
            && (r.Ok? <==> valid && StillHeld(q, c, at))
            && (r == Err(InvalidInput) <==> !valid)
            && (r == Err(LeaseLost) <==> valid && !StillHeld(q, c, at))
            && (r.Ok? ==>
                  var item := r.value.items[c.queueId];
                  && item == q.items[c.queueId].(status := Retry, nextAttemptAt := next)
                  && r.value.attempts == q.attempts)
  {}

  /** What a step of a run does is the transaction of its request, for a claim that was handed out. */
  lemma StepIsTransaction(w: World, s: Step)
    ensures s.Enqueue? ==>
              var r := EnqueueTx(w.queue, s.id, s.alertId, s.hookId, s.key, s.group, s.now);
              Next(w, s) == World(if r.Ok? then r.value else w.queue, w.issued)
    ensures s.ClaimNext? ==>
              var (q, r) := ClaimTx(w.queue, s.owner, s.now, s.lease, s.lapsed, s.pick);
              Next(w, s) == World(q, w.issued + if r.Ok? then {r.value} else {})
    ensures s.Renew? && s.claim in w.issued && RenewTx(w.queue, s.claim, s.now, s.lease).Ok? ==>
              var (q, renewed) := RenewTx(w.queue, s.claim, s.now, s.lease).value;
              Next(w, s) == World(q, w.issued + {renewed})
    ensures s.Renew? && !(s.claim in w.issued && RenewTx(w.queue, s.claim, s.now, s.lease).Ok?) ==> Next(w, s) == w
    ensures s.Finish? ==>
              var r := OutcomeTx(w.queue, s.outcome);
              Next(w, s) == World(if s.outcome.claim in w.issued && r.Ok? then r.value else w.queue, w.issued)
    ensures s.Defer? ==>
              var r := DeferTx(w.queue, s.claim, s.at, s.next);
              Next(w, s) == World(if s.claim in w.issued && r.Ok? then r.value else w.queue, w.issued)
  {}

  predicate AllEarlier(run: seq<Step>, due: int) { forall i :: 0 <= i < |run| ==> Earlier(run[i], due) }

  predicate LeftAlone(w: World, id: string, run: seq<Step>) {
    id in w.queue.items && id in After(w, run).queue.items && After(w, run).queue.items[id] == w.queue.items[id]
  }

  /** After the run, whoever asks for the item at `now` under a valid lease is given it. */
  ghost predicate HandedOut(w: World, id: string, run: seq<Step>, now: int) {
    forall owner, lease, lapsed: set<string> :: 30 <= lease <= 600 ==>
      ClaimTx(After(w, run).queue, owner, now, lease, lapsed, id).1.Ok?
  }

  /** The item is left alone by every run whose claims come before `due`, and handed out to a claim
      at or after it. */
  ghost predicate SleepsUntil(w: World, id: string, due: int) {
    && (forall run: seq<Step> :: AllEarlier(run, due) ==> LeftAlone(w, id, run))
    && (forall run: seq<Step>, now: int :: AllEarlier(run, due) && due <= now ==> HandedOut(w, id, run, now))
  }

  lemma WaitingSleeps(w: World, id: string)
    requires id in w.queue.items && Waiting(w.queue.items[id])
    ensures SleepsUntil(w, id, w.queue.items[id].nextAttemptAt)
  {
    var due := w.queue.items[id].nextAttemptAt;
    forall run: seq<Step> | AllEarlier(run, due) ensures LeftAlone(w, id, run) { WaitsUntilDue(w, run, id); }
    forall run: seq<Step>, now: int | AllEarlier(run, due) && due <= now ensures HandedOut(w, id, run, now) {
      assert LeftAlone(w, id, run);
    }
  }

  /** After an attempt that is to be tried again the item sleeps until its retry time. */
  lemma RetrySleeps(w: World, o: Outcome)
    requires o.claim in w.issued && OutcomeTx(w.queue, o).Ok? && o.retryAt.Some?
    ensures SleepsUntil(Next(w, Finish(o)), o.claim.queueId, o.retryAt.value)
  {
    WaitingSleeps(Next(w, Finish(o)), o.claim.queueId);
  }

  lemma DeferredSleeps(w: World, c: Claim, at: int, next: int)
    requires c in w.issued && DeferTx(w.queue, c, at, next).Ok?
    ensures SleepsUntil(Next(w, Defer(c, at, next)), c.queueId, next)
  {
    WaitingSleeps(Next(w, Defer(c, at, next)), c.queueId);
  }

  /** A new item is handed out to the first claim for it, at once. */
  lemma EnqueuedIsReady(w: World, id: string, alertId: string, hookId: string, key: string, group: string, now: int)
    requires id !in w.queue.items && EnqueueTx(w.queue, id, alertId, hookId, key, group, now).Ok?
    ensures SleepsUntil(Next(w, Enqueue(id, alertId, hookId, key, group, now)), id, now)
  {
    WaitingSleeps(Next(w, Enqueue(id, alertId, hookId, key, group, now)), id);
  }
}
