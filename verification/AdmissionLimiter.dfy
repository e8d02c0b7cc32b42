/** Admission of connections (and, by the same code, of streams): a global semaphore, one
    semaphore per peer made on demand, and an active gauge, each touched in a separate step.
    Any number of tasks interleave at every step. */
module AdmissionLimiter {
  import opened Maps
  import opened Outcomes

  const U64_MAX: nat := 0xFFFF_FFFF_FFFF_FFFF

  /** How far one admission, or its release, has come. */
  datatype Phase =
    | GlobalRefused                   // no global permit; refusal not yet counted
    | HoldsGlobal(peer: string)
    | FoundSemaphore(peer: string)    // holds the global permit
    | PeerRefused                     // holds the global permit; refusal not yet counted
    | RefusalCounted                  // still holds the global permit
    | HoldsBoth(peer: string)         // gauge not yet raised
    | Admitted(peer: string)
    | Closing(peer: string)           // gauge lowered, both permits held
    | ClosingPeer(peer: string)       // global permit returned

  datatype Limits = Limits(global: nat, perPeer: nat)

  datatype State = State(
    globalFree: nat,
    peerFree: map<string, nat>,
    gauge: nat,
    rejected: nat,
    tasks: map<nat, Phase>)

  datatype Step = Start(task: nat, peer: string) | Advance(task: nat)

  function Initial(limits: Limits): State {
    State(limits.global, map[], 0, 0, map[])
  }

  // Atomic 64-bit gauge updates, which wrap.
  function Raise(gauge: nat): nat { if gauge == U64_MAX then 0 else gauge + 1 }

  function Lower(gauge: nat): nat { if gauge == 0 then U64_MAX else gauge - 1 }

  function Move(s: State, task: nat, phase: Phase): State {
    s.(tasks := s.tasks[task := phase])
  }

  function Finish(s: State, task: nat): State {
    s.(tasks := s.tasks - {task})
  }

  function Next(s: State, limits: Limits, step: Step): State {
    match step
    case Start(task, peer) =>
      if task in s.tasks then s
      else if s.globalFree > 0 then Move(s, task, HoldsGlobal(peer)).(globalFree := s.globalFree - 1)
      else Move(s, task, GlobalRefused)
    case Advance(task) =>
      if task !in s.tasks then s
      else
        match s.tasks[task]
        case GlobalRefused => Finish(s, task).(rejected := s.rejected + 1)
        case HoldsGlobal(p) =>
          var peerFree := if p in s.peerFree then s.peerFree else s.peerFree[p := limits.perPeer];
          Move(s, task, FoundSemaphore(p)).(peerFree := peerFree)
        case FoundSemaphore(p) =>
          if p in s.peerFree && s.peerFree[p] > 0
          then Move(s, task, HoldsBoth(p)).(peerFree := s.peerFree[p := s.peerFree[p] - 1])
          else Move(s, task, PeerRefused)
        case PeerRefused => Move(s, task, RefusalCounted).(rejected := s.rejected + 1)
        case RefusalCounted => Finish(s, task).(globalFree := s.globalFree + 1)
        case HoldsBoth(p) => Move(s, task, Admitted(p)).(gauge := Raise(s.gauge))
        case Admitted(p) => Move(s, task, Closing(p)).(gauge := Lower(s.gauge))
        case Closing(p) => Move(s, task, ClosingPeer(p)).(globalFree := s.globalFree + 1)
        case ClosingPeer(p) =>
          Finish(s, task).(peerFree := s.peerFree[p := (if p in s.peerFree then s.peerFree[p] else 0) + 1])
  }

  function After(limits: Limits, run: seq<Step>): State {
    if run == [] then Initial(limits)
    else Next(After(limits, run[..|run| - 1]), limits, run[|run| - 1])
  }

  // ---------- Who holds what ----------

  predicate HasGlobal(phase: Phase) {
    !phase.GlobalRefused? && !phase.ClosingPeer?
  }

  predicate HasPeer(phase: Phase) {
    phase.HoldsBoth? || phase.Admitted? || phase.Closing? || phase.ClosingPeer?
  }

  predicate IsAdmitted(phase: Phase) {
    phase.Admitted?
  }

  function OfPeer(peer: string): Phase -> bool {
    (phase: Phase) => HasPeer(phase) && phase.peer == peer
  }

  ghost predicate PeersConserved(s: State, limits: Limits) {
    forall p :: p in s.peerFree ==> s.peerFree[p] + Count(s.tasks, OfPeer(p)) == limits.perPeer
  }

  /** No task holds, or is about to take, a permit of a semaphore that was never made. */
  ghost predicate PeersKnown(s: State) {
    forall t :: t in s.tasks && (HasPeer(s.tasks[t]) || s.tasks[t].FoundSemaphore?) ==> s.tasks[t].peer in s.peerFree
  }

  /** Every permit is either free or held by a task, globally and per peer, and the gauge is
      the number of admitted tasks. */
  ghost predicate Conserved(s: State, limits: Limits) {
    && s.globalFree + Count(s.tasks, HasGlobal) == limits.global
    && PeersConserved(s, limits)
    && PeersKnown(s)
    && s.gauge == Count(s.tasks, IsAdmitted)
  }

  function One(b: bool): int { if b then 1 else 0 }

  predicate At(tasks: map<nat, Phase>, t: nat, has: Phase -> bool) {
    t in tasks && has(tasks[t])
  }

  function Holders(tasks: map<nat, Phase>, has: Phase -> bool): set<nat> {
    set t | t in tasks && has(tasks[t])
  }

  function Count(tasks: map<nat, Phase>, has: Phase -> bool): nat {
    |Holders(tasks, has)|
  }

  /** Changing one task moves a count by at most one. */
  lemma CountChange(tasks: map<nat, Phase>, tasks': map<nat, Phase>, t: nat, has: Phase -> bool)
    requires tasks - {t} == tasks' - {t}
    ensures Count(tasks', has) - One(At(tasks', t, has)) == Count(tasks, has) - One(At(tasks, t, has))
  {
    CountWithout(tasks, t, has);
    CountWithout(tasks', t, has);
  }

  lemma CountWithout(tasks: map<nat, Phase>, t: nat, has: Phase -> bool)
    ensures Count(tasks - {t}, has) == Count(tasks, has) - One(At(tasks, t, has))
  {
    assert Holders(tasks - {t}, has) == Holders(tasks, has) - {t};
  }

  lemma CountAtMost(tasks: map<nat, Phase>, has: Phase -> bool, has': Phase -> bool)
    requires forall phase :: has(phase) ==> has'(phase)
    ensures Count(tasks, has) <= Count(tasks, has')
  {
    SubsetSize(Holders(tasks, has), Holders(tasks, has'));
  }

  lemma OthersUntouched(s: State, limits: Limits, step: Step)
    ensures s.tasks - {step.task} == Next(s, limits, step).tasks - {step.task}
  {
  }

  lemma GlobalConserved(s: State, limits: Limits, step: Step)
    requires s.globalFree + Count(s.tasks, HasGlobal) == limits.global
    ensures Next(s, limits, step).globalFree + Count(Next(s, limits, step).tasks, HasGlobal) == limits.global
  {
    OthersUntouched(s, limits, step);
    CountChange(s.tasks, Next(s, limits, step).tasks, step.task, HasGlobal);
  }

  lemma PeerConserved(s: State, limits: Limits, step: Step, p: string)
    requires p in Next(s, limits, step).peerFree
    requires if p in s.peerFree then s.peerFree[p] + Count(s.tasks, OfPeer(p)) == limits.perPeer
             else Count(s.tasks, OfPeer(p)) == 0
    requires !At(s.tasks, step.task, OfPeer(p)) || p in s.peerFree
    ensures Next(s, limits, step).peerFree[p] + Count(Next(s, limits, step).tasks, OfPeer(p)) == limits.perPeer
  {
    OthersUntouched(s, limits, step);
    CountChange(s.tasks, Next(s, limits, step).tasks, step.task, OfPeer(p));
  }

  lemma GaugeExact(s: State, limits: Limits, step: Step)
    requires s.gauge == Count(s.tasks, IsAdmitted) && limits.global <= U64_MAX
    requires s.globalFree + Count(s.tasks, HasGlobal) == limits.global
    ensures Next(s, limits, step).gauge == Count(Next(s, limits, step).tasks, IsAdmitted)
  {
    var s' := Next(s, limits, step);
    OthersUntouched(s, limits, step);
    CountChange(s.tasks, s'.tasks, step.task, IsAdmitted);
    GlobalConserved(s, limits, step);
    CountAtMost(s'.tasks, IsAdmitted, HasGlobal);
    if At(s.tasks, step.task, IsAdmitted) { assert step.task in Holders(s.tasks, IsAdmitted); }
  }

  lemma StepConserved(s: State, limits: Limits, step: Step)
    requires Conserved(s, limits) && limits.global <= U64_MAX
    ensures Conserved(Next(s, limits, step), limits)
  {
    GlobalConserved(s, limits, step);
    GaugeExact(s, limits, step);
    StepPeersKnown(s, limits, step);
    StepPeersConserved(s, limits, step);
  }

  lemma StepPeersKnown(s: State, limits: Limits, step: Step)
    requires PeersKnown(s)
    ensures PeersKnown(Next(s, limits, step))
  {
  }

  lemma StepPeersConserved(s: State, limits: Limits, step: Step)
    requires PeersKnown(s) && PeersConserved(s, limits)
    ensures PeersConserved(Next(s, limits, step), limits)
  {
    forall p | p in Next(s, limits, step).peerFree
      ensures Next(s, limits, step).peerFree[p] + Count(Next(s, limits, step).tasks, OfPeer(p)) == limits.perPeer
    {
      NoHolders(s, p);
      PeerConserved(s, limits, step, p);
    }
  }

  lemma NoHolders(s: State, p: string)
    requires PeersKnown(s)
    ensures p !in s.peerFree ==> Count(s.tasks, OfPeer(p)) == 0
  {
    if p !in s.peerFree { assert Holders(s.tasks, OfPeer(p)) == {}; }
  }

  /** In every reachable state, under every interleaving, permits are conserved, the gauge
      counts the admitted tasks without wrapping, and neither limit is exceeded. */
  lemma {:induction false} AlwaysConserved(limits: Limits, run: seq<Step>)
    requires limits.global <= U64_MAX
    ensures Conserved(After(limits, run), limits)
    ensures After(limits, run).gauge <= limits.global
    ensures forall p :: Count(After(limits, run).tasks, OfPeer(p)) <= limits.perPeer
  {
    var s := After(limits, run);
    if run == [] {
      assert forall has :: Holders(s.tasks, has) == {};
    } else {
      AlwaysConserved(limits, run[..|run| - 1]);
      StepConserved(After(limits, run[..|run| - 1]), limits, run[|run| - 1]);
    }
    CountAtMost(s.tasks, IsAdmitted, HasGlobal);
    forall p ensures Count(s.tasks, OfPeer(p)) <= limits.perPeer { NoHolders(s, p); }
  }

  /** When every admission has been refused or dropped, every permit is back and the gauge is zero. */
  lemma AllReturned(limits: Limits, run: seq<Step>)
    requires limits.global <= U64_MAX && After(limits, run).tasks == map[]
    ensures var s := After(limits, run);
            && s.globalFree == limits.global && s.gauge == 0
            && forall p :: p in s.peerFree ==> s.peerFree[p] == limits.perPeer
  {
    AlwaysConserved(limits, run);
    var s := After(limits, run);
    assert Holders(s.tasks, HasGlobal) == {} && Holders(s.tasks, IsAdmitted) == {};
    forall p | p in s.peerFree ensures s.peerFree[p] == limits.perPeer { assert Holders(s.tasks, OfPeer(p)) == {}; }
  }

  ghost function InUse(tasks: map<nat, Phase>, peers: set<string>): map<string, nat> {
    map p | p in peers :: Count(tasks, OfPeer(p))
  }

  /** The tasks holding some peer's permit, counted peer by peer. */
  lemma {:induction false} PeerSum(tasks: map<nat, Phase>, peers: set<string>)
    requires forall t :: t in tasks && HasPeer(tasks[t]) ==> tasks[t].peer in peers
    ensures Sum(InUse(tasks, peers)) == Count(tasks, HasPeer)
    decreases |peers|
  {
    if peers == {} {
      assert InUse(tasks, peers) == map[] && Holders(tasks, HasPeer) == {};
    } else {
      var p :| p in peers;
      var others := tasks - Holders(tasks, OfPeer(p));
      SplitHolders(tasks, p);
      PeerSum(others, peers - {p});
      DropPeer(tasks, peers, p);
      SumWithout(InUse(tasks, peers), p);
    }
  }

  lemma SplitHolders(tasks: map<nat, Phase>, p: string)
    ensures Count(tasks, HasPeer) == Count(tasks - Holders(tasks, OfPeer(p)), HasPeer) + Count(tasks, OfPeer(p))
  {
    var others := tasks - Holders(tasks, OfPeer(p));
    assert Holders(tasks, HasPeer) == Holders(others, HasPeer) + Holders(tasks, OfPeer(p));
  }

  lemma OtherPeer(tasks: map<nat, Phase>, p: string, q: string)
    requires p != q
    ensures Count(tasks, OfPeer(q)) == Count(tasks - Holders(tasks, OfPeer(p)), OfPeer(q))
  {
    assert Holders(tasks, OfPeer(q)) == Holders(tasks - Holders(tasks, OfPeer(p)), OfPeer(q));
  }

  lemma DropPeer(tasks: map<nat, Phase>, peers: set<string>, p: string)
    requires p in peers
    ensures InUse(tasks, peers) - {p} == InUse(tasks - Holders(tasks, OfPeer(p)), peers - {p})
  {
    forall q | q in peers && q != p
      ensures Count(tasks, OfPeer(q)) == Count(tasks - Holders(tasks, OfPeer(p)), OfPeer(q))
    {
      OtherPeer(tasks, p, q);
    }
  }

  function Taken(peerFree: map<string, nat>, perPeer: nat): map<string, nat> {
    map p | p in peerFree :: SaturatingSub(perPeer, peerFree[p])
  }

  /** At quiescence, with every task admitted, the gauge, the global permits in use and the sum
      of the per-peer permits in use are one number. */
  lemma QuiescentAgreement(limits: Limits, run: seq<Step>)
    requires limits.global <= U64_MAX
    requires var s := After(limits, run); forall t :: t in s.tasks ==> s.tasks[t].Admitted?
    ensures var s := After(limits, run);
            && s.gauge == limits.global - s.globalFree == Sum(Taken(s.peerFree, limits.perPeer))
  {
    AlwaysConserved(limits, run);
    var s := After(limits, run);
    assert Holders(s.tasks, IsAdmitted) == Holders(s.tasks, HasGlobal) == Holders(s.tasks, HasPeer);
    PeerSum(s.tasks, s.peerFree.Keys);
    assert InUse(s.tasks, s.peerFree.Keys) == Taken(s.peerFree, limits.perPeer);
  }

  // ---------- Refusals ----------

  /** The step finds no permit left. */
  predicate Refuses(s: State, step: Step) {
    match step
    case Start(task, _) => task !in s.tasks && s.globalFree == 0
    case Advance(task) =>
      task in s.tasks && s.tasks[task].FoundSemaphore?
      && !(s.tasks[task].peer in s.peerFree && s.peerFree[s.tasks[task].peer] > 0)
  }

  function Refusals(limits: Limits, run: seq<Step>): nat {
    if run == [] then 0
    else
      var init := run[..|run| - 1];
      Refusals(limits, init) + (if Refuses(After(limits, init), run[|run| - 1]) then 1 else 0)
  }

  predicate Uncounted(phase: Phase) { phase.GlobalRefused? || phase.PeerRefused? }

  /** Under every interleaving each refusal is counted exactly once: the counter is the number of
      refusals less those of tasks that have yet to count theirs. */
  lemma {:induction false} RefusalsCounted(limits: Limits, run: seq<Step>)
    ensures After(limits, run).rejected + Count(After(limits, run).tasks, Uncounted) == Refusals(limits, run)
  {
    if run == [] {
      assert Holders(map[], Uncounted) == {};
    } else {
      var s, step := After(limits, run[..|run| - 1]), run[|run| - 1];
      RefusalsCounted(limits, run[..|run| - 1]);
      OthersUntouched(s, limits, step);
      CountChange(s.tasks, Next(s, limits, step).tasks, step.task, Uncounted);
    }
  }
}
