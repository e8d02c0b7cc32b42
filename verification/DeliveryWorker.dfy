/** One round of an alert delivery worker: claim due items, defer those of a group that has had
    its share, attempt the others once. */
module DeliveryWorker {
  import opened DeliveryOutcomes
  import opened DeliveryQueue
  import opened DeliveryRuns
  import opened Outcomes

  const LEASE_SECONDS: int := 60
  const GROUP_DEFER_SECONDS: int := 60
  const MAX_PER_GROUP: nat := 3
  const MAX_DELIVERIES: nat := 100
  const MAX_ROUNDS: nat := 200

  /** What the clock, the queue's choice and the receiver bring to one turn of the loop. */
  datatype Turn = Turn(
    claimedAt: int, lapsed: seq<string>, pick: string, deferredAt: int,
    succeeded: bool, retryable: bool, maxAttempts: nat, retryAt: int, attemptedAt: int, completedAt: int)

  datatype Summary = Summary(attempted: nat, succeeded: nat, retried: nat, deadLettered: nat, deferred: nat)

  /** The outcome a worker reports for a claim. */
  function OutcomeOf(c: Claim, t: Turn): Outcome {
    var retry := !t.succeeded && t.retryable && c.attemptCount + 1 < t.maxAttempts;
    Outcome(c, t.succeeded, !t.succeeded && t.retryable, t.maxAttempts, if retry then Some(t.retryAt) else None,
            t.attemptedAt, t.completedAt)
  }

  function Tries(groups: map<string, nat>, group: string): nat {
    if group in groups then groups[group] else 0
  }

  predicate AddsUp(s: Summary) {
    s.attempted == s.succeeded + s.retried + s.deadLettered
  }

  /** The failure is worth another attempt and one is left. */
  predicate Again(c: Claim, t: Turn) {
    !t.succeeded && t.retryable && c.attemptCount + 1 < t.maxAttempts
  }

  /** What a worker reports is taken exactly if it still holds its claim when it is done and its retry
      time, if it needs one, is within the hour; the item is then delivered, sent back or dead. */
  lemma ReportTaken(q: Queue, c: Claim, t: Turn)
    ensures var r := OutcomeTx(q, OutcomeOf(c, t));
            && (r.Ok? <==>
                  && WellFormed(c) && 1 <= t.maxAttempts <= 5 && c.claimedAt <= t.attemptedAt <= t.completedAt
                  && (Again(c, t) ==> t.completedAt < t.retryAt <= t.completedAt + 3600)
                  && StillHeld(q, c, t.completedAt))
            && (r.Ok? ==>
                  var item := r.value.items[c.queueId];
                  && item.status == (if t.succeeded then Succeeded else if Again(c, t) then Retry else DeadLetter)
                  && (Again(c, t) ==> item.nextAttemptAt == t.retryAt))
  {
    FinishedIff(q, OutcomeOf(c, t));
  }

  // ---------- What a run amounts to ----------

  /** A step of a run counts by what became of its item: delivered, sent back or dead. */
  function CountStep(w: World, s: Step, c: Summary): Summary {
    match s
    case Finish(o) =>
      var r := OutcomeTx(w.queue, o);
      if o.claim !in w.issued || r.Err? then c
      else
        var c' := c.(attempted := c.attempted + 1);
        var status := r.value.items[o.claim.queueId].status;
        if status == Succeeded then c'.(succeeded := c.succeeded + 1)
        else if status == Retry then c'.(retried := c.retried + 1)
        else c'.(deadLettered := c.deadLettered + 1)
    case Defer(claim, at, next) =>
      if claim !in w.issued || DeferTx(w.queue, claim, at, next).Err? then c
      else c.(deferred := c.deferred + 1)
    case _ => c
  }

  function Tally(w: World, run: seq<Step>): Summary {
    if run == [] then Summary(0, 0, 0, 0, 0)
    else CountStep(After(w, run[..|run| - 1]), run[|run| - 1], Tally(w, run[..|run| - 1]))
  }

  lemma StepAddsUp(w: World, s: Step, c: Summary)
    ensures AddsUp(c) ==> AddsUp(CountStep(w, s, c))
    ensures |Next(w, s).queue.attempts| - |w.queue.attempts| == CountStep(w, s, c).attempted - c.attempted
  {}

  /** The counts of every run add up, and its attempts are the ones recorded. */
  lemma {:induction false} TallyAddsUp(w: World, run: seq<Step>)
    ensures AddsUp(Tally(w, run))
    ensures |After(w, run).queue.attempts| == |w.queue.attempts| + Tally(w, run).attempted
    decreases |run|
  {
    if run != [] {
      var init := run[..|run| - 1];
      TallyAddsUp(w, init);
      StepAddsUp(After(w, init), run[|run| - 1], Tally(w, init));
    }
  }

  /** How often a run has tried to deliver to a group. */
  function TriedIn(run: seq<Step>, group: string): nat {
    if run == [] then 0
    else
      var last := run[|run| - 1];
      TriedIn(run[..|run| - 1], group) + (if last.Finish? && last.outcome.claim.group == group then 1 else 0)
  }

  /** A group's item is attempted while the group has had less than its share, and then deferred. */
  predicate Shared(run: seq<Step>, k: nat)
    requires k < |run|
  {
    match run[k]
    case Finish(o) => TriedIn(run[..k], o.claim.group) < MAX_PER_GROUP
    case Defer(c, _, _) => TriedIn(run[..k], c.group) >= MAX_PER_GROUP
    case _ => true
  }

  predicate AllShared(run: seq<Step>) { forall k: nat :: k < |run| ==> Shared(run, k) }

  /** `groups` tells how often the run has tried each group. */
  ghost predicate Tracks(groups: map<string, nat>, run: seq<Step>) {
    forall g :: Tries(groups, g) == TriedIn(run, g)
  }

  /** So no group is tried more often than its share allows. */
  lemma {:induction false} WithinShare(run: seq<Step>, group: string)
    requires AllShared(run)
    ensures TriedIn(run, group) <= MAX_PER_GROUP
  {
    if run != [] {
      var init := run[..|run| - 1];
      forall k: nat | k < |init| ensures Shared(init, k) { assert Shared(run, k) && init[..k] == run[..k]; }
      WithinShare(init, group);
      assert Shared(run, |init|);
    }
  }

  lemma Extend(run: seq<Step>, s: Step)
    requires AllShared(run) && Shared(run + [s], |run|)
    ensures AllShared(run + [s])
  {
    forall k: nat | k < |run + [s]| ensures Shared(run + [s], k) {
      if k < |run| { assert Shared(run, k) && (run + [s])[..k] == run[..k]; }
    }
  }

  lemma TriedAppend(run: seq<Step>, s: Step, g: string)
    ensures TriedIn(run + [s], g) == TriedIn(run, g) + if s.Finish? && s.outcome.claim.group == g then 1 else 0
    ensures (run + [s])[..|run|] == run
  {
    assert (run + [s])[..|run|] == run;
  }

  // ---------- The worker ----------

  datatype Verdict = GoOn | Stop | Fail

  function ClaimStep(owner: string, t: Turn): Step {
    ClaimNext(owner, t.claimedAt, LEASE_SECONDS, (set id | id in t.lapsed), t.pick)
  }

  function DeferStep(claim: Claim, t: Turn): Step {
    Defer(claim, t.deferredAt, t.deferredAt + GROUP_DEFER_SECONDS)
  }

  /** What the queue answers to the turn's claim. */
  function Granted(w: World, owner: string, t: Turn): Result<Claim, QueueError> {
    ClaimTx(w.queue, owner, t.claimedAt, LEASE_SECONDS, (set id | id in t.lapsed), t.pick).1
  }

  /** The worker holds what it is given for a minute. */
  lemma HoldsAMinute(w: World, owner: string, t: Turn, at: int)
    requires Granted(w, owner, t).Ok?
    ensures Holds(Next(w, ClaimStep(owner, t)).queue.items, Granted(w, owner, t).value, at) <==> at < t.claimedAt + 60
  {
    ClaimedIff(w.queue, owner, t.claimedAt, 60, (set id | id in t.lapsed), t.pick);
  }

  /** What it defers sleeps for a minute. */
  lemma SleepsAMinute(w: World, c: Claim, t: Turn)
    requires Taken(w, DeferStep(c, t))
    ensures SleepsUntil(Next(w, DeferStep(c, t)), c.queueId, t.deferredAt + 60)
  {
    DeferredSleeps(w, c, t.deferredAt, t.deferredAt + 60);
  }

  /** The queue takes the step of a worker that holds its claim. */
  predicate Taken(w: World, s: Step) {
    match s
    case Finish(o) => o.claim in w.issued && OutcomeTx(w.queue, o).Ok?
    case Defer(c, at, next) => c in w.issued && DeferTx(w.queue, c, at, next).Ok?
    case _ => true
  }

  /** Records one attempt and counts it. */
  method Report(store: QueueStore, claim: Claim, t: Turn, summary: Summary, ghost w: World)
    returns (ok: bool, counted: Summary)
    requires w.queue == store.Value() && claim in w.issued
    modifies store
    ensures store.Value() == Next(w, Finish(OutcomeOf(claim, t))).queue
    ensures ok <==> Taken(w, Finish(OutcomeOf(claim, t)))
    ensures counted == CountStep(w, Finish(OutcomeOf(claim, t)), summary)
  {
    counted := summary;
    var outcome := OutcomeOf(claim, t);
    var error := store.WriteOutcome(outcome);
    ok := error.None?;
    if ok {
      counted := counted.(attempted := counted.attempted + 1);
      if t.succeeded {
        counted := counted.(succeeded := counted.succeeded + 1);
      } else if ShouldRetry(outcome) {
        counted := counted.(retried := counted.retried + 1);
      } else {
        counted := counted.(deadLettered := counted.deadLettered + 1);
      }
    }
  }

  /** Claims a due item. */
  method ClaimOne(store: QueueStore, owner: string, t: Turn, ghost w: World) returns (r: Result<Claim, QueueError>)
    requires w.queue == store.Value()
    modifies store
    ensures store.Value() == Next(w, ClaimStep(owner, t)).queue
    ensures r == Granted(w, owner, t)
    ensures r.Ok? ==> r.value in Next(w, ClaimStep(owner, t)).issued
  {
    r := store.ClaimNext(owner, t.claimedAt, LEASE_SECONDS, t.lapsed, t.pick);
  }

  /** Gives an item back for the group's sake. */
  method DeferOne(store: QueueStore, claim: Claim, t: Turn, summary: Summary, ghost w: World)
    returns (ok: bool, counted: Summary)
    requires w.queue == store.Value() && claim in w.issued
    modifies store
    ensures store.Value() == Next(w, DeferStep(claim, t)).queue
    ensures ok <==> Taken(w, DeferStep(claim, t))
    ensures counted == CountStep(w, DeferStep(claim, t), summary)
  {
    var error := store.Defer(claim, t.deferredAt, t.deferredAt + GROUP_DEFER_SECONDS);
    ok := error.None?;
    counted := if ok then summary.(deferred := summary.deferred + 1) else summary;
  }

  /** What a worker that has made `run` does in a turn: claims, and then, if it is given an item, defers or
      attempts it, whichever is its group's turn. */
  function TurnSteps(w: World, owner: string, t: Turn, groups: map<string, nat>): seq<Step> {
    match Granted(w, owner, t)
    case Err(_) => [ClaimStep(owner, t)]
    case Ok(claim) =>
      [ClaimStep(owner, t),
       if Tries(groups, claim.group) >= MAX_PER_GROUP then DeferStep(claim, t) else Finish(OutcomeOf(claim, t))]
  }

  /** One turn of the loop. */
  method TakeTurn(store: QueueStore, owner: string, t: Turn, summary: Summary, groups: map<string, nat>, ghost w: World)
    returns (verdict: Verdict, counted: Summary, tried: map<string, nat>, ghost last: Option<Step>)
    requires w.queue == store.Value()
    modifies store
    ensures verdict.Stop? <==> Granted(w, owner, t).Err?
    ensures verdict.Stop? ==> last == None && store.Value() == Next(w, ClaimStep(owner, t)).queue
    ensures verdict.Stop? ==> counted == summary && tried == groups
    ensures !verdict.Stop? ==>
              var claimed := Next(w, ClaimStep(owner, t));
              && last == Some(TurnSteps(w, owner, t, groups)[1])
              && store.Value() == Next(claimed, last.value).queue
              && counted == CountStep(claimed, last.value, summary)
              && (verdict.GoOn? <==> Taken(claimed, last.value))
              && tried == if last.value.Finish? then
                            var group := last.value.outcome.claim.group; groups[group := Tries(groups, group) + 1]
                          else groups
  {
    counted, tried, last := summary, groups, None;
    var r := ClaimOne(store, owner, t, w);
    if r.Err? { return Stop, counted, tried, last; }
    var claim := r.value;
    ghost var claimed := Next(w, ClaimStep(owner, t));
    var ok;
    if Tries(groups, claim.group) >= MAX_PER_GROUP {
      last := Some(DeferStep(claim, t));
      ok, counted := DeferOne(store, claim, t, counted, claimed);
    } else {
      last := Some(Finish(OutcomeOf(claim, t)));
      tried := tried[claim.group := Tries(groups, claim.group) + 1];
      ok, counted := Report(store, claim, t, counted, claimed);
    }
    verdict := if ok then GoOn else Fail;
  }

  /** What the loop has established after some turns. */
  ghost predicate Progress(start: World, run: seq<Step>, summary: Summary, groups: map<string, nat>) {
    summary == Tally(start, run) && Tracks(groups, run) && AllShared(run)
  }

  function Claims(run: seq<Step>): nat {
    if run == [] then 0 else Claims(run[..|run| - 1]) + (if run[|run| - 1].ClaimNext? then 1 else 0)
  }

  /** The queue gave the last claim of the run no item. */
  predicate FoundNothing(start: World, run: seq<Step>) {
    && run != [] && run[|run| - 1].ClaimNext?
    && var s := run[|run| - 1];
       ClaimTx(After(start, run[..|run| - 1]).queue, s.owner, s.now, s.lease, s.lapsed, s.pick).1.Err?
  }

  predicate LastRefused(start: World, run: seq<Step>) {
    run != [] && !Taken(After(start, run[..|run| - 1]), run[|run| - 1])
  }

  /** A claim is one step more and counts for nothing else. */
  lemma ClaimProgress(start: World, run: seq<Step>, summary: Summary, groups: map<string, nat>, owner: string, t: Turn)
    requires Progress(start, run, summary, groups)
    ensures var run' := run + [ClaimStep(owner, t)];
            && Progress(start, run', summary, groups)
            && After(start, run') == Next(After(start, run), ClaimStep(owner, t)) && Claims(run') == Claims(run) + 1
            && (Granted(After(start, run), owner, t).Err? ==> FoundNothing(start, run'))
  {
    var s := ClaimStep(owner, t);
    assert (run + [s])[..|run|] == run;
    forall g ensures Tries(groups, g) == TriedIn(run + [s], g) { TriedAppend(run, s, g); }
    Extend(run, s);
  }

  lemma WorkProgress(start: World, run: seq<Step>, summary: Summary, groups: map<string, nat>, s: Step)
    requires Progress(start, run, summary, groups)
    requires s.Finish? || s.Defer?
    requires s.Finish? ==> Tries(groups, s.outcome.claim.group) < MAX_PER_GROUP
    requires s.Defer? ==> Tries(groups, s.claim.group) >= MAX_PER_GROUP
    ensures var tried := if s.Finish? then
                           var group := s.outcome.claim.group; groups[group := Tries(groups, group) + 1]
                         else groups;
            Progress(start, run + [s], CountStep(After(start, run), s, summary), tried)
    ensures After(start, run + [s]) == Next(After(start, run), s) && Claims(run + [s]) == Claims(run)
    ensures !Taken(After(start, run), s) ==> LastRefused(start, run + [s])
  {
    assert (run + [s])[..|run|] == run;
    var tried := if s.Finish? then
                   var group := s.outcome.claim.group; groups[group := Tries(groups, group) + 1]
                 else groups;
    forall g ensures Tries(tried, g) == TriedIn(run + [s], g) { TriedAppend(run, s, g); }
    Extend(run, s);
  }

  lemma ProgressAddsUp(start: World, run: seq<Step>, summary: Summary, groups: map<string, nat>)
    requires Progress(start, run, summary, groups)
    ensures AddsUp(summary) && |After(start, run).queue.attempts| == |start.queue.attempts| + summary.attempted
    ensures forall g :: Tries(groups, g) == TriedIn(run, g) <= MAX_PER_GROUP
  {
    TallyAddsUp(start, run);
    forall g ensures TriedIn(run, g) <= MAX_PER_GROUP { WithinShare(run, g); }
  }

  /** One turn as a part of the run made so far. */
  method TurnOfRun(store: QueueStore, owner: string, t: Turn, summary: Summary, groups: map<string, nat>,
                   ghost start: World, ghost run: seq<Step>)
    returns (verdict: Verdict, counted: Summary, tried: map<string, nat>, ghost run': seq<Step>)
    requires Progress(start, run, summary, groups) && After(start, run).queue == store.Value()
    modifies store
    ensures Progress(start, run', counted, tried) && After(start, run').queue == store.Value()
    ensures Claims(run') == Claims(run) + 1 && counted.attempted <= summary.attempted + 1
    ensures verdict.Stop? ==> FoundNothing(start, run')
    ensures verdict.Fail? ==> LastRefused(start, run')
  {
    ghost var last;
    verdict, counted, tried, last := TakeTurn(store, owner, t, summary, groups, After(start, run));
    ClaimProgress(start, run, summary, groups, owner, t);
    run' := run + [ClaimStep(owner, t)];
    if !verdict.Stop? {
      WorkProgress(start, run', summary, groups, last.value);
      run' := run' + [last.value];
    }
  }

  /** All the worker does is a run of the protocol, and its counters are what the run amounts to. No group gets
      more than its share, and is then deferred. It stops only when it has made its deliveries or
      its rounds, when it is given nothing, or with an error when a write is refused. */
  method RunOnce(store: QueueStore, owner: string, maxDeliveries: nat, turn: nat -> Turn, ghost issued: set<Claim>)
    returns (summary: Summary, failed: bool, groups: map<string, nat>, ghost run: seq<Step>)
    modifies store
    ensures store.Value() == After(World(old(store.Value()), issued), run).queue
    ensures summary == Tally(World(old(store.Value()), issued), run) && summary.attempted <= maxDeliveries
    ensures AddsUp(summary) && |store.attempts| == |old(store.attempts)| + summary.attempted
    ensures AllShared(run) && forall g :: Tries(groups, g) == TriedIn(run, g) <= 3
    ensures !(1 <= maxDeliveries <= 100) ==> failed && run == []
    ensures 1 <= maxDeliveries <= 100 ==>
              var start := World(old(store.Value()), issued);
              && (failed ==> LastRefused(start, run))
              && (!failed ==> summary.attempted == maxDeliveries || FoundNothing(start, run)
                              || Claims(run) == Min(2 * maxDeliveries, 200))
  {
    summary, failed, groups, run := Summary(0, 0, 0, 0, 0), false, map[], [];
    if !(1 <= maxDeliveries <= MAX_DELIVERIES) { return summary, true, groups, run; }
    ghost var start := World(store.Value(), issued);
    for i := 0 to Min(2 * maxDeliveries, MAX_ROUNDS)
      invariant summary.attempted <= maxDeliveries && Claims(run) == i
      invariant Progress(start, run, summary, groups)
      invariant After(start, run).queue == store.Value()
    {
      if summary.attempted >= maxDeliveries { break; }
      var verdict;
      verdict, summary, groups, run := TurnOfRun(store, owner, turn(i), summary, groups, start, run);
      if verdict.Stop? { break; }
      if verdict.Fail? {
        ProgressAddsUp(start, run, summary, groups);
        return summary, true, groups, run;
      }
    }
    ProgressAddsUp(start, run, summary, groups);
  }
}
