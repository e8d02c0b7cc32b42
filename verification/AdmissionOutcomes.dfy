/** What becomes of a task that asks for admission, whatever the other tasks do in between its own
    steps: it is admitted exactly if it finds both permits free, and gives back what it took. */
module AdmissionOutcomes {
  import opened AdmissionLimiter

  function Steps(s: State, limits: Limits, run: seq<Step>): State {
    if run == [] then s else Next(Steps(s, limits, run[..|run| - 1]), limits, run[|run| - 1])
  }

  /** Only other tasks move. */
  predicate Others(run: seq<Step>, task: nat) {
    forall i :: 0 <= i < |run| ==> run[i].task != task
  }

  /** The state after others have moved and then `task` makes one step. */
  function Own(s: State, limits: Limits, others: seq<Step>, task: nat): State {
    Next(Steps(s, limits, others), limits, Advance(task))
  }

  predicate In(s: State, task: nat, phase: Phase) { task in s.tasks && s.tasks[task] == phase }

  lemma {:induction false} StepsConserved(s: State, limits: Limits, run: seq<Step>)
    requires Conserved(s, limits) && limits.global <= U64_MAX
    ensures Conserved(Steps(s, limits, run), limits)
  {
    if run != [] {
      StepsConserved(s, limits, run[..|run| - 1]);
      StepConserved(Steps(s, limits, run[..|run| - 1]), limits, run[|run| - 1]);
    }
  }

  lemma {:induction false} OthersKeepPhase(s: State, limits: Limits, run: seq<Step>, task: nat)
    requires Others(run, task)
    ensures task in Steps(s, limits, run).tasks <==> task in s.tasks
    ensures task in s.tasks ==> In(Steps(s, limits, run), task, s.tasks[task])
  {
    if run != [] { OthersKeepPhase(s, limits, run[..|run| - 1], task); }
  }

  /** A semaphore once made stays. */
  lemma {:induction false} SemaphoreStays(s: State, limits: Limits, run: seq<Step>, peer: string)
    requires peer in s.peerFree
    ensures peer in Steps(s, limits, run).peerFree
  {
    if run != [] { SemaphoreStays(s, limits, run[..|run| - 1], peer); }
  }

  /** A new task gets a global permit exactly if one is free, and the count of refusals otherwise. */
  lemma StartOutcome(s: State, limits: Limits, task: nat, peer: string)
    requires task !in s.tasks
    ensures var s' := Next(s, limits, Start(task, peer));
            if s.globalFree > 0 then In(s', task, HoldsGlobal(peer)) && s'.globalFree == s.globalFree - 1
            else In(s', task, GlobalRefused) && s'.globalFree == 0
  {}

  /** A task with its global permit finds its peer's semaphore, whatever others do. */
  lemma FindsSemaphore(s: State, limits: Limits, others: seq<Step>, task: nat, peer: string)
    requires In(s, task, HoldsGlobal(peer)) && Others(others, task)
    ensures var before, s' := Steps(s, limits, others), Own(s, limits, others, task);
            && In(s', task, FoundSemaphore(peer)) && peer in s'.peerFree
            && s'.peerFree[peer] == (if peer in before.peerFree then before.peerFree[peer] else limits.perPeer)
  {
    OthersKeepPhase(s, limits, others, task);
  }

  /** Having found it, a task takes a permit exactly if one is free when it looks. */
  lemma TakesPeerPermit(s: State, limits: Limits, others: seq<Step>, task: nat, peer: string)
    requires In(s, task, FoundSemaphore(peer)) && peer in s.peerFree && Others(others, task)
    ensures var before, s' := Steps(s, limits, others), Own(s, limits, others, task);
            && peer in before.peerFree
            && In(s', task, if before.peerFree[peer] > 0 then HoldsBoth(peer) else PeerRefused)
            && peer in s'.peerFree
            && s'.peerFree[peer] == (if before.peerFree[peer] > 0 then before.peerFree[peer] - 1 else 0)
  {
    OthersKeepPhase(s, limits, others, task);
    SemaphoreStays(s, limits, others, peer);
  }

  /** A task that cannot go on counts its refusal once and returns its global permit, whatever
      others do; one that got no global permit has none to return. */
  lemma RefusalOutcome(s: State, limits: Limits, a: seq<Step>, b: seq<Step>, task: nat)
    requires task in s.tasks && Others(a, task) && Others(b, task)
    ensures var counts, s' := Steps(s, limits, a), Own(s, limits, a, task);
            var gives, s'' := Steps(s', limits, b), Own(s', limits, b, task);
            && (s.tasks[task].GlobalRefused? ==>
                  task !in s'.tasks && s'.rejected == counts.rejected + 1 && s'.globalFree == counts.globalFree)
            && (s.tasks[task].PeerRefused? ==>
                  s'.rejected == counts.rejected + 1
                  && task !in s''.tasks && s''.globalFree == gives.globalFree + 1)
  {
    OthersKeepPhase(s, limits, a, task);
    OthersKeepPhase(Own(s, limits, a, task), limits, b, task);
  }

  /** The state when a task that started in `s` looks for a permit of its peer, with the steps `a`
      and `b` of others in between. */
  function Looking(s: State, limits: Limits, task: nat, peer: string, a: seq<Step>, b: seq<Step>): State {
    Steps(Own(Next(s, limits, Start(task, peer)), limits, a, task), limits, b)
  }

  /** The state before the last step of its admission, with the steps `c` of others in between. */
  function Entering(s: State, limits: Limits, task: nat, peer: string, a: seq<Step>, b: seq<Step>, c: seq<Step>): State
  {
    Steps(Next(Looking(s, limits, task, peer, a, b), limits, Advance(task)), limits, c)
  }

  /** Whatever others do in between, a task is admitted by its own steps exactly if a global permit
      was free when it started and one of its peer when it looked, and then raises the gauge by one. */
  lemma AdmittedIff(limits: Limits, run: seq<Step>, task: nat, peer: string, a: seq<Step>, b: seq<Step>, c: seq<Step>)
    requires limits.global <= U64_MAX && task !in After(limits, run).tasks
    requires Others(a, task) && Others(b, task) && Others(c, task)
    ensures var start := After(limits, run);
            var looking := Looking(start, limits, task, peer, a, b);
            var entering := Entering(start, limits, task, peer, a, b, c);
            var after := Next(entering, limits, Advance(task));
            && (In(after, task, Admitted(peer)) <==>
                  start.globalFree > 0 && peer in looking.peerFree && looking.peerFree[peer] > 0)
            && (In(after, task, Admitted(peer)) ==> after.gauge == entering.gauge + 1)
  {
    var start := After(limits, run);
    var started := Next(start, limits, Start(task, peer));
    var found := Own(started, limits, a, task);
    StartOutcome(start, limits, task, peer);
    OthersKeepPhase(started, limits, a, task);
    OthersKeepPhase(found, limits, b, task);
    if start.globalFree > 0 {
      FindsSemaphore(started, limits, a, task, peer);
      TakesPeerPermit(found, limits, b, task, peer);
    }
    var taken := Own(found, limits, b, task);
    OthersKeepPhase(taken, limits, c, task);
    EnteringRaises(limits, run, task, peer, a, b, c);
  }

  lemma EnteringRaises(limits: Limits, run: seq<Step>, task: nat, peer: string,
                       a: seq<Step>, b: seq<Step>, c: seq<Step>)
    requires limits.global <= U64_MAX
    ensures var entering := Entering(After(limits, run), limits, task, peer, a, b, c);
            In(entering, task, HoldsBoth(peer)) ==> Next(entering, limits, Advance(task)).gauge == entering.gauge + 1
  {
    var start := After(limits, run);
    AlwaysConserved(limits, run);
    var started := Next(start, limits, Start(task, peer));
    StepConserved(start, limits, Start(task, peer));
    StepsConserved(started, limits, a);
    StepConserved(Steps(started, limits, a), limits, Advance(task));
    var found := Own(started, limits, a, task);
    StepsConserved(found, limits, b);
    StepConserved(Steps(found, limits, b), limits, Advance(task));
    StepsConserved(Own(found, limits, b, task), limits, c);
    HolderRaises(Entering(start, limits, task, peer, a, b, c), limits, task, peer);
  }

  lemma HolderRaises(s: State, limits: Limits, task: nat, peer: string)
    requires Conserved(s, limits) && limits.global <= U64_MAX
    ensures In(s, task, HoldsBoth(peer)) ==> Next(s, limits, Advance(task)).gauge == s.gauge + 1
  {
    if In(s, task, HoldsBoth(peer)) {
      StepConserved(s, limits, Advance(task));
      assert task in Holders(Next(s, limits, Advance(task)).tasks, IsAdmitted);
    }
  }

  /** One own step of a task that is being dropped. */
  lemma DropStep(s: State, limits: Limits, others: seq<Step>, task: nat, peer: string)
    requires task in s.tasks && peer in s.peerFree && Others(others, task)
    ensures var before, s' := Steps(s, limits, others), Own(s, limits, others, task);
            && peer in before.peerFree && peer in s'.peerFree
            && (s.tasks[task] == Admitted(peer) ==> In(s', task, Closing(peer)) && s'.gauge == Lower(before.gauge))
            && (s.tasks[task] == Closing(peer) ==>
                  In(s', task, ClosingPeer(peer)) && s'.globalFree == before.globalFree + 1)
            && (s.tasks[task] == ClosingPeer(peer) ==>
                  task !in s'.tasks && s'.peerFree[peer] == before.peerFree[peer] + 1)
  {
    OthersKeepPhase(s, limits, others, task);
    SemaphoreStays(s, limits, others, peer);
  }

  /** An admitted task that is dropped lowers the gauge, returns the global permit and then its
      peer's, in this order, whatever others do in between. */
  lemma DropOutcome(limits: Limits, run: seq<Step>, task: nat, peer: string, a: seq<Step>, b: seq<Step>, c: seq<Step>)
    requires limits.global <= U64_MAX && In(After(limits, run), task, Admitted(peer))
    requires Others(a, task) && Others(b, task) && Others(c, task)
    ensures var s0 := After(limits, run);
            var s1 := Own(s0, limits, a, task);
            var s2 := Own(s1, limits, b, task);
            var s3 := Own(s2, limits, c, task);
            && s1.gauge == Steps(s0, limits, a).gauge - 1
            && s2.globalFree == Steps(s1, limits, b).globalFree + 1
            && task !in s3.tasks && peer in s3.peerFree && peer in Steps(s2, limits, c).peerFree
            && s3.peerFree[peer] == Steps(s2, limits, c).peerFree[peer] + 1
  {
    var s0 := After(limits, run);
    AlwaysConserved(limits, run);
    DropStep(s0, limits, a, task, peer);
    AdmittedIsGauged(s0, limits, a, task, peer);
    var s1 := Own(s0, limits, a, task);
    DropStep(s1, limits, b, task, peer);
    DropStep(Own(s1, limits, b, task), limits, c, task, peer);
  }

  lemma AdmittedIsGauged(s: State, limits: Limits, others: seq<Step>, task: nat, peer: string)
    requires Conserved(s, limits) && limits.global <= U64_MAX
    requires In(s, task, Admitted(peer)) && Others(others, task)
    ensures Steps(s, limits, others).gauge > 0
  {
    StepsConserved(s, limits, others);
    OthersKeepPhase(s, limits, others, task);
    assert task in Holders(Steps(s, limits, others).tasks, IsAdmitted);
  }

  predicate IsClosing(s: State, task: nat, peer: string) {
    In(s, task, Closing(peer)) || In(s, task, ClosingPeer(peer))
  }

  lemma ClosingStep(s: State, limits: Limits, step: Step, task: nat, peer: string)
    requires IsClosing(Next(s, limits, step), task, peer)
    ensures In(s, task, Admitted(peer)) || IsClosing(s, task, peer)
  {}

  /** A task closes only after it was admitted, with nothing else in between. */
  lemma {:induction false} ClosingWasAdmitted(limits: Limits, run: seq<Step>, task: nat, peer: string) returns (i: nat)
    requires IsClosing(After(limits, run), task, peer)
    ensures i < |run| && In(After(limits, run[..i]), task, Admitted(peer))
    ensures forall j :: i < j <= |run| ==> IsClosing(After(limits, run[..j]), task, peer)
  {
    var init := run[..|run| - 1];
    ClosingStep(After(limits, init), limits, run[|run| - 1], task, peer);
    assert run[..|run|] == run;
    if In(After(limits, init), task, Admitted(peer)) {
      i := |init|;
    } else {
      i := ClosingWasAdmitted(limits, init, task, peer);
      assert forall j :: 0 <= j <= |init| ==> init[..j] == run[..j];
    }
  }
}
