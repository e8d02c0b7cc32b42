/** Exactly-once, in-order replay of the audit spool, over every run with fresh event ids. */
module AuditReplay {
  import opened AuditDurability
  import opened AuditRuns
  import opened Outcomes

  /** The log together with its history: everything ever spooled, everything a flush ever
      replayed, and how far into the spooled events replay has come. */
  datatype Ledger = Ledger(disk: Disk, spooled: seq<Event>, replayed: seq<Event>, frontier: nat)

  function Open(disk: Disk): Ledger {
    Ledger(disk, disk.spool, [], 0)
  }

  function Base(l: Ledger): int {
    |l.spooled| - |l.disk.spool|
  }

  function FlushLedger(l: Ledger, faults: FlushFaults): Ledger
  {
    var disk := Flush(l.disk, faults).0;
    if faults.read || l.disk.spool == [] then l.(disk := disk)
    else
      var (primary, done) := Replay(l.disk.primary, l.disk.spool, 0, faults);
      Ledger(disk, l.spooled, l.replayed + primary[|l.disk.primary|..], Max(l.frontier, Base(l) + done))
  }

  function WriteLedger(l: Ledger, event: Event, spoolMax: nat, faults: WriteFaults): Ledger
  {
    var flushed := FlushLedger(l, faults.flush);
    if !faults.primary then flushed.(disk := flushed.disk.(primary := flushed.disk.primary + [event]))
    else
      var (disk, ok) := Enqueue(flushed.disk, event, spoolMax, faults);
      if ok then flushed.(disk := disk, spooled := flushed.spooled + [event]) else flushed.(disk := disk)
  }

  function ExecLedger(l: Ledger, op: Op, spoolMax: nat): Ledger
  {
    match op
    case WriteOp(event, faults) => WriteLedger(l, event, spoolMax, faults)
    case FlushOp(faults) => FlushLedger(l, faults)
  }

  // ---------- Invariants ----------

  /** The spool is the tail of what was spooled, and replay has passed everything taken off it. */
  ghost predicate TailOfSpooled(l: Ledger) {
    && 0 <= Base(l) <= l.frontier <= |l.spooled|
    && l.disk.spool == l.spooled[Base(l)..]
  }

  /** After the initial primary `p0`, the spooled events in the primary are exactly the ones
      replayed, in spool order: those before the frontier that `p0` did not hold already. */
  ghost predicate Ordered(p0: seq<Event>, primary: seq<Event>, spooled: seq<Event>, replayed: seq<Event>,
                          frontier: nat)
  {
    && frontier <= |spooled|
    && p0 <= primary
    && replayed == Missing(spooled[..frontier], Ids(p0))
    && Only(primary[|p0|..], Ids(spooled)) == replayed
  }

  ghost predicate InOrder(l: Ledger, p0: seq<Event>) {
    Ordered(p0, l.disk.primary, l.spooled, l.replayed, l.frontier)
  }

  ghost predicate Unique(l: Ledger) {
    DistinctIds(l.spooled) && DistinctIds(l.disk.primary)
  }

  ghost predicate Inv(l: Ledger, p0: seq<Event>) {
    TailOfSpooled(l) && InOrder(l, p0) && Unique(l)
  }

  lemma IdsOfMember(events: seq<Event>, i: nat)
    requires i < |events|
    ensures events[i].id in Ids(events)
  {
  }

  /** A spooled event is in the primary iff replay has passed it or `p0` held it. */
  lemma SpooledInPrimary(l: Ledger, p0: seq<Event>, j: nat)
    requires InOrder(l, p0) && Unique(l) && j < |l.spooled|
    ensures l.spooled[j].id in Ids(l.disk.primary) <==> j < l.frontier || l.spooled[j].id in Ids(p0)
  {
    var e, rest := l.spooled[j], l.disk.primary[|p0|..];
    assert l.disk.primary == p0 + rest;
    if j < l.frontier && e.id !in Ids(p0) {
      assert l.spooled[..l.frontier][j] == e;
      MissingMembers(l.spooled[..l.frontier], Ids(p0), e);
      OnlyMembers(rest, Ids(l.spooled), e);
    } else if e.id in Ids(p0) {
      var x :| x in p0 && x.id == e.id;
      assert x in l.disk.primary;
    } else if e.id in Ids(l.disk.primary) {
      var x :| x in l.disk.primary && x.id == e.id;
      IdsOfMember(l.spooled, j);
      OnlyMembers(rest, Ids(l.spooled), x);
      MissingMembers(l.spooled[..l.frontier], Ids(p0), x);
    }
  }

  lemma MissingHead(x: Event, rest: seq<Event>, ids: set<string>)
    ensures Missing([x] + rest, ids) == (if x.id in ids then [] else [x]) + Missing(rest, ids)
  {
    MissingConcat([x], rest, ids);
    assert [x][..0] == [];
  }

  lemma MissingAppend(primary: seq<Event>, x: Event, rest: seq<Event>)
    requires forall e :: e in rest ==> e.id != x.id
    ensures Missing(rest, Ids(primary + [x])) == Missing(rest, Ids(primary))
  {
    AppendIds(primary, x);
    MissingAgree(rest, Ids(primary), Ids(primary + [x]));
  }

  lemma HeldStep(primary: seq<Event>, records: seq<Event>, from: nat, done: nat)
    requires from < done <= |records| && records[from].id in Ids(primary)
    ensures Missing(records[from..done], Ids(primary)) == Missing(records[from + 1..done], Ids(primary))
  {
    assert records[from..done] == [records[from]] + records[from + 1..done];
    MissingHead(records[from], records[from + 1..done], Ids(primary));
  }

  lemma NewStep(primary: seq<Event>, records: seq<Event>, from: nat, done: nat)
    requires from < done <= |records| && DistinctIds(records) && records[from].id !in Ids(primary)
    ensures primary + Missing(records[from..done], Ids(primary))
         == (primary + [records[from]]) + Missing(records[from + 1..done], Ids(primary + [records[from]]))
  {
    var x, rest := records[from], records[from + 1..done];
    assert records[from..done] == [x] + rest;
    MissingHead(x, rest, Ids(primary));
    MissingAppend(primary, x, rest);
    assert primary + ([x] + Missing(rest, Ids(primary))) == (primary + [x]) + Missing(rest, Ids(primary));
  }

  /** Replay appends exactly the handled records that the primary lacked, in order. */
  lemma {:induction false} ReplayForm(primary: seq<Event>, records: seq<Event>, from: nat, faults: FlushFaults)
    requires from <= |records| && DistinctIds(records)
    ensures var (primary', done) := Replay(primary, records, from, faults);
            primary' == primary + Missing(records[from..done], Ids(primary))
    decreases |records| - from
  {
    var (primary', done) := Replay(primary, records, from, faults);
    if done == from {
      assert records[from..done] == [];
    } else if records[from].id in Ids(primary) {
      ReplayForm(primary, records, from + 1, faults);
      HeldStep(primary, records, from, done);
    } else {
      ReplayForm(primary + [records[from]], records, from + 1, faults);
      NewStep(primary, records, from, done);
    }
  }

  lemma AppendIds(events: seq<Event>, x: Event)
    ensures Ids(events + [x]) == Ids(events) + {x.id}
  {
    assert forall e :: e in events + [x] <==> e in events || e == x;
  }

  lemma {:induction false} MissingDistinct(events: seq<Event>, ids: set<string>)
    requires DistinctIds(events)
    ensures DistinctIds(Missing(events, ids))
  {
    if events != [] {
      var init, last := events[..|events| - 1], events[|events| - 1];
      MissingDistinct(init, ids);
      var kept := Missing(init, ids);
      forall i | 0 <= i < |kept| ensures kept[i].id != last.id { MissingMembers(init, ids, kept[i]); }
    }
  }

  lemma PassedIsHeld(l: Ledger, p0: seq<Event>, lo: nat, hi: nat)
    requires InOrder(l, p0) && Unique(l) && lo <= hi <= l.frontier
    ensures Missing(l.spooled[lo..hi], Ids(l.disk.primary)) == []
  {
    forall e | e in l.spooled[lo..hi] ensures e.id in Ids(l.disk.primary) {
      var j :| lo <= j < hi && l.spooled[j] == e;
      SpooledInPrimary(l, p0, j);
    }
    MissingNone(l.spooled[lo..hi], Ids(l.disk.primary));
  }

  lemma AheadIsAsInitially(l: Ledger, p0: seq<Event>, hi: nat)
    requires InOrder(l, p0) && Unique(l) && l.frontier <= hi <= |l.spooled|
    ensures Missing(l.spooled[l.frontier..hi], Ids(l.disk.primary)) == Missing(l.spooled[l.frontier..hi], Ids(p0))
  {
    forall e | e in l.spooled[l.frontier..hi] ensures e.id in Ids(l.disk.primary) <==> e.id in Ids(p0) {
      var j :| l.frontier <= j < hi && l.spooled[j] == e;
      SpooledInPrimary(l, p0, j);
    }
    MissingAgree(l.spooled[l.frontier..hi], Ids(l.disk.primary), Ids(p0));
  }

  /** What one flush replays: the spooled events from the frontier on that `p0` lacks. */
  lemma ReplayedTail(l: Ledger, p0: seq<Event>, done: nat)
    requires Inv(l, p0) && done <= |l.disk.spool|
    ensures var reach := Max(l.frontier, Base(l) + done);
            Missing(l.disk.spool[..done], Ids(l.disk.primary)) == Missing(l.spooled[l.frontier..reach], Ids(p0))
  {
    var base, front := Base(l), l.frontier;
    SpoolPart(l, done);
    if base + done <= front {
      PassedIsHeld(l, p0, base, base + done);
      EmptySlice(l.spooled, front, Ids(p0));
    } else {
      ReplayedAhead(l, p0, base, base + done);
    }
  }

  lemma SpoolPart(l: Ledger, done: nat)
    requires TailOfSpooled(l) && done <= |l.disk.spool|
    ensures l.disk.spool[..done] == l.spooled[Base(l)..Base(l) + done]
  {}

  lemma EmptySlice(events: seq<Event>, n: nat, ids: set<string>)
    requires n <= |events|
    ensures Missing(events[n..n], ids) == []
  {
    assert events[n..n] == [];
  }

  lemma ReplayedAhead(l: Ledger, p0: seq<Event>, lo: nat, hi: nat)
    requires InOrder(l, p0) && Unique(l) && lo <= l.frontier <= hi <= |l.spooled|
    ensures Missing(l.spooled[lo..hi], Ids(l.disk.primary)) == Missing(l.spooled[l.frontier..hi], Ids(p0))
  {
    var ids, passed, ahead := Ids(l.disk.primary), l.spooled[lo..l.frontier], l.spooled[l.frontier..hi];
    assert l.spooled[lo..hi] == passed + ahead;
    MissingConcat(passed, ahead, ids);
    PassedIsHeld(l, p0, lo, l.frontier);
    AheadIsAsInitially(l, p0, hi);
  }

  /** Replay moves the frontier on: the events it passes that `p0` lacked are appended. */
  lemma ExtendOrdered(p0: seq<Event>, primary: seq<Event>, spooled: seq<Event>, replayed: seq<Event>, frontier: nat,
                      reach: nat, more: seq<Event>)
    requires Ordered(p0, primary, spooled, replayed, frontier) && frontier <= reach <= |spooled|
    requires more == Missing(spooled[frontier..reach], Ids(p0))
    ensures Ordered(p0, primary + more, spooled, replayed + more, reach)
  {
    var tail := spooled[frontier..reach];
    assert replayed + more == Missing(spooled[..reach], Ids(p0)) by {
      assert spooled[..reach] == spooled[..frontier] + tail;
      MissingConcat(spooled[..frontier], tail, Ids(p0));
    }
    OnlyExtend(primary, |p0|, tail, more, Ids(p0), Ids(spooled));
  }

  lemma OnlyExtend(primary: seq<Event>, from: nat, tail: seq<Event>, more: seq<Event>, held: set<string>,
                   ids: set<string>)
    requires from <= |primary| && more == Missing(tail, held) && Ids(tail) <= ids
    ensures Only((primary + more)[from..], ids) == Only(primary[from..], ids) + more
  {
    assert (primary + more)[from..] == primary[from..] + more;
    OnlyConcat(primary[from..], more, ids);
    forall e | e in more ensures e.id in ids { MissingMembers(tail, held, e); }
    FilterAll(more, ids);
  }

  lemma ExtendDistinct(primary: seq<Event>, records: seq<Event>)
    requires DistinctIds(primary) && DistinctIds(records)
    ensures DistinctIds(primary + Missing(records, Ids(primary)))
  {
    var more := Missing(records, Ids(primary));
    MissingDistinct(records, Ids(primary));
    forall i, j | 0 <= i < |primary| && 0 <= j < |more| ensures primary[i].id != more[j].id {
      MissingMembers(records, Ids(primary), more[j]);
      IdsOfMember(primary, i);
    }
  }

  lemma FlushFrame(l: Ledger, faults: FlushFaults)
    requires TailOfSpooled(l) && DistinctIds(l.spooled)
    ensures var l' := FlushLedger(l, faults);
            && TailOfSpooled(l') && l'.spooled == l.spooled
            && l'.disk == Flush(l.disk, faults).0
            && l'.disk.metrics.replayed - |l'.replayed| == l.disk.metrics.replayed - |l.replayed|
            && l'.disk.metrics.queued == l.disk.metrics.queued
            && l.disk.primary <= l'.disk.primary
            && Ids(l'.disk.primary) <= Ids(l.disk.primary) + Ids(l.spooled)
  {
    if !faults.read && l.disk.spool != [] {
      var (primary, done) := Replay(l.disk.primary, l.disk.spool, 0, faults);
      ReplayForm(l.disk.primary, l.disk.spool, 0, faults);
      assert l.disk.spool[done..] == l.spooled[Base(l) + done..];
      forall e | e in primary ensures e.id in Ids(l.disk.primary) + Ids(l.spooled) {
        MissingMembers(l.disk.spool[0..done], Ids(l.disk.primary), e);
      }
    }
  }

  /** What a flush that reads the spool appends and how far it comes. */
  lemma ReplayedBy(l: Ledger, p0: seq<Event>, faults: FlushFaults)
    requires Inv(l, p0)
    ensures var (primary, done) := Replay(l.disk.primary, l.disk.spool, 0, faults);
            primary == l.disk.primary + Missing(l.spooled[l.frontier..Max(l.frontier, Base(l) + done)], Ids(p0))
  {
    var (primary, done) := Replay(l.disk.primary, l.disk.spool, 0, faults);
    ReplayForm(l.disk.primary, l.disk.spool, 0, faults);
    assert l.disk.spool[0..done] == l.disk.spool[..done];
    ReplayedTail(l, p0, done);
  }

  lemma FlushedFields(l: Ledger, faults: FlushFaults, more: seq<Event>)
    requires !faults.read && l.disk.spool != []
    requires Replay(l.disk.primary, l.disk.spool, 0, faults).0 == l.disk.primary + more
    ensures var l' := FlushLedger(l, faults);
            && l'.disk.primary == l.disk.primary + more && l'.spooled == l.spooled
            && l'.replayed == l.replayed + more
            && l'.frontier == Max(l.frontier, Base(l) + Replay(l.disk.primary, l.disk.spool, 0, faults).1)
  {
    assert (l.disk.primary + more)[|l.disk.primary|..] == more;
  }

  lemma FlushInOrder(l: Ledger, p0: seq<Event>, faults: FlushFaults)
    requires Inv(l, p0)
    ensures InOrder(FlushLedger(l, faults), p0)
  {
    if !faults.read && l.disk.spool != [] {
      var reach := Max(l.frontier, Base(l) + Replay(l.disk.primary, l.disk.spool, 0, faults).1);
      var more := Missing(l.spooled[l.frontier..reach], Ids(p0));
      ReplayedBy(l, p0, faults);
      FlushedFields(l, faults, more);
      ExtendOrdered(p0, l.disk.primary, l.spooled, l.replayed, l.frontier, reach, more);
    }
  }

  lemma FlushUnique(l: Ledger, faults: FlushFaults)
    requires TailOfSpooled(l) && Unique(l)
    ensures Unique(FlushLedger(l, faults))
  {
    if !faults.read && l.disk.spool != [] {
      ReplayForm(l.disk.primary, l.disk.spool, 0, faults);
      ExtendDistinct(l.disk.primary, l.disk.spool[0..Replay(l.disk.primary, l.disk.spool, 0, faults).1]);
    }
  }

  lemma FlushInv(l: Ledger, p0: seq<Event>, faults: FlushFaults)
    requires Inv(l, p0)
    ensures Inv(FlushLedger(l, faults), p0)
  {
    FlushFrame(l, faults);
    FlushInOrder(l, p0, faults);
    FlushUnique(l, faults);
  }

  ghost predicate FreshTo(l: Ledger, id: string) {
    id !in Ids(l.disk.primary) && id !in Ids(l.spooled)
  }

  lemma AppendPrimaryInv(l: Ledger, p0: seq<Event>, event: Event)
    requires Inv(l, p0) && FreshTo(l, event.id)
    ensures Inv(l.(disk := l.disk.(primary := l.disk.primary + [event])), p0)
  {
    OnlyAppend(l.disk.primary, |p0|, event, Ids(l.spooled));
    DistinctAppend(l.disk.primary, event);
  }

  lemma OnlyAppend(primary: seq<Event>, from: nat, event: Event, ids: set<string>)
    requires from <= |primary| && event.id !in ids
    ensures Only((primary + [event])[from..], ids) == Only(primary[from..], ids)
  {
    assert (primary + [event])[from..] == primary[from..] + [event];
    OnlyConcat(primary[from..], [event], ids);
    assert Only([event], ids) == [];
  }

  lemma DistinctAppend(events: seq<Event>, event: Event)
    requires DistinctIds(events) && event.id !in Ids(events)
    ensures DistinctIds(events + [event])
  {
    forall i | 0 <= i < |events| ensures events[i].id != event.id { IdsOfMember(events, i); }
  }

  lemma AppendSpoolInv(l: Ledger, p0: seq<Event>, event: Event)
    requires Inv(l, p0) && FreshTo(l, event.id)
    ensures Inv(l.(disk := l.disk.(spool := l.disk.spool + [event]), spooled := l.spooled + [event]), p0)
  {
    var rest, spooled' := l.disk.primary[|p0|..], l.spooled + [event];
    AppendIds(l.spooled, event);
    forall e | e in rest ensures e.id != event.id { assert e in l.disk.primary; }
    OnlyAgree(rest, Ids(l.spooled), Ids(spooled'));
    assert spooled'[..l.frontier] == l.spooled[..l.frontier];
    assert spooled'[Base(l)..] == l.spooled[Base(l)..] + [event];
    forall i | 0 <= i < |l.spooled| ensures l.spooled[i].id != event.id { IdsOfMember(l.spooled, i); }
  }

  /** Metrics move with the history. */
  ghost predicate Counted(l: Ledger, disk0: Disk) {
    && disk0.spool <= l.spooled
    && l.disk.metrics.queued - disk0.metrics.queued == |l.spooled| - |disk0.spool|
    && l.disk.metrics.replayed - disk0.metrics.replayed == |l.replayed|
  }

  lemma InvIgnoresMetrics(l: Ledger, p0: seq<Event>, metrics: Metrics)
    requires Inv(l, p0)
    ensures Inv(l.(disk := l.disk.(metrics := metrics)), p0)
  {
  }

  lemma EnqueueInv(l: Ledger, disk0: Disk, event: Event, spoolMax: nat, faults: WriteFaults)
    requires Inv(l, disk0.primary) && Counted(l, disk0) && FreshTo(l, event.id)
    ensures var (disk, ok) := Enqueue(l.disk, event, spoolMax, faults);
            var l' := if ok then l.(disk := disk, spooled := l.spooled + [event]) else l.(disk := disk);
            Inv(l', disk0.primary) && Counted(l', disk0)
  {
    var (disk, ok) := Enqueue(l.disk, event, spoolMax, faults);
    if ok {
      AppendSpoolInv(l, disk0.primary, event);
      InvIgnoresMetrics(l.(disk := l.disk.(spool := l.disk.spool + [event]), spooled := l.spooled + [event]),
                        disk0.primary, disk.metrics);
    } else {
      InvIgnoresMetrics(l, disk0.primary, disk.metrics);
    }
  }

  lemma WriteInv(l: Ledger, disk0: Disk, event: Event, spoolMax: nat, faults: WriteFaults)
    requires Inv(l, disk0.primary) && Counted(l, disk0) && FreshTo(l, event.id)
    ensures Inv(WriteLedger(l, event, spoolMax, faults), disk0.primary)
    ensures Counted(WriteLedger(l, event, spoolMax, faults), disk0)
  {
    FlushFrame(l, faults.flush);
    FlushInv(l, disk0.primary, faults.flush);
    var flushed := FlushLedger(l, faults.flush);
    if !faults.primary {
      AppendPrimaryInv(flushed, disk0.primary, event);
    } else {
      EnqueueInv(flushed, disk0, event, spoolMax, faults);
    }
  }

  lemma ExecInv(l: Ledger, disk0: Disk, op: Op, spoolMax: nat)
    requires Inv(l, disk0.primary) && Counted(l, disk0)
    requires op.WriteOp? ==> FreshTo(l, op.event.id)
    ensures Inv(ExecLedger(l, op, spoolMax), disk0.primary) && Counted(ExecLedger(l, op, spoolMax), disk0)
  {
    match op
    case WriteOp(event, faults) => WriteInv(l, disk0, event, spoolMax, faults);
    case FlushOp(faults) =>
      FlushFrame(l, faults);
      FlushInv(l, disk0.primary, faults);
  }

  /** Everything a step writes was known before it, or is the event being written. */
  lemma ExecLedgerFrame(l: Ledger, op: Op, spoolMax: nat)
    requires TailOfSpooled(l) && DistinctIds(l.spooled)
    ensures var l' := ExecLedger(l, op, spoolMax);
            && l'.disk == Exec(l.disk, op, spoolMax).0
            && l.spooled <= l'.spooled && l.disk.primary <= l'.disk.primary
            && Known(l') <= Known(l) + (if op.WriteOp? then {op.event.id} else {})
  {
    FlushFrame(l, if op.WriteOp? then op.writeFaults.flush else op.flushFaults);
    if op.WriteOp? {
      var flushed := FlushLedger(l, op.writeFaults.flush);
      AppendIds(flushed.disk.primary, op.event);
      AppendIds(flushed.spooled, op.event);
    }
  }

  function Known(l: Ledger): set<string> {
    Ids(l.disk.primary) + Ids(l.spooled)
  }

  // ---------- Runs ----------

  function Written(run: seq<Op>): set<string> {
    if run == [] then {}
    else
      var last := run[|run| - 1];
      Written(run[..|run| - 1]) + (if last.WriteOp? then {last.event.id} else {})
  }

  /** Every write carries an id that neither the files nor an earlier write has used. */
  predicate FreshRun(run: seq<Op>, used: set<string>) {
    run == [] ||
    var init, last := run[..|run| - 1], run[|run| - 1];
    FreshRun(init, used) && (last.WriteOp? ==> last.event.id !in used + Written(init))
  }

  /** The files a run may start from: no id twice in the primary, none twice in the spool. */
  ghost predicate Clean(disk: Disk) {
    DistinctIds(disk.primary) && DistinctIds(disk.spool)
  }

  lemma OpenInv(disk: Disk)
    requires Clean(disk)
    ensures Inv(Open(disk), disk.primary) && Counted(Open(disk), disk)
  {
    var l := Open(disk);
    assert l.spooled[..0] == [] && l.disk.primary[|disk.primary|..] == [];
  }

  function LedgerAfter(disk: Disk, run: seq<Op>, spoolMax: nat): Ledger {
    if run == [] then Open(disk)
    else ExecLedger(LedgerAfter(disk, run[..|run| - 1], spoolMax), run[|run| - 1], spoolMax)
  }

  /** Along every run with fresh ids the ledger keeps its invariants. */
  lemma {:induction false} LedgerInv(disk: Disk, run: seq<Op>, spoolMax: nat)
    requires Clean(disk) && FreshRun(run, Held(disk))
    ensures Inv(LedgerAfter(disk, run, spoolMax), disk.primary) && Counted(LedgerAfter(disk, run, spoolMax), disk)
    ensures Known(LedgerAfter(disk, run, spoolMax)) <= Held(disk) + Written(run)
  {
    if run == [] {
      OpenInv(disk);
    } else {
      var init, op := run[..|run| - 1], run[|run| - 1];
      LedgerInv(disk, init, spoolMax);
      var l := LedgerAfter(disk, init, spoolMax);
      ExecLedgerFrame(l, op, spoolMax);
      ExecInv(l, disk, op, spoolMax);
    }
  }

  lemma ExecLedgerDisk(l: Ledger, op: Op, spoolMax: nat)
    ensures ExecLedger(l, op, spoolMax).disk == Exec(l.disk, op, spoolMax).0
  {}

  /** The ledger describes the files of the run. */
  lemma {:induction false} LedgerIsLog(disk: Disk, run: seq<Op>, spoolMax: nat)
    ensures LedgerAfter(disk, run, spoolMax).disk == After(disk, run, spoolMax)
  {
    if run != [] {
      LedgerIsLog(disk, run[..|run| - 1], spoolMax);
      ExecLedgerDisk(LedgerAfter(disk, run[..|run| - 1], spoolMax), run[|run| - 1], spoolMax);
    }
  }

  /** No event is written to the primary twice, even when a spool rewrite fails after a replay. */
  lemma ExactlyOnce(disk: Disk, run: seq<Op>, spoolMax: nat)
    requires Clean(disk) && FreshRun(run, Held(disk))
    ensures DistinctIds(After(disk, run, spoolMax).primary)
  {
    LedgerIsLog(disk, run, spoolMax);
    LedgerInv(disk, run, spoolMax);
  }

  /** The spooled events that reached the primary did so in the order they were spooled. */
  lemma ReplayedInSpoolOrder(disk: Disk, run: seq<Op>, spoolMax: nat)
    requires Clean(disk) && FreshRun(run, Held(disk))
    ensures var l, p := LedgerAfter(disk, run, spoolMax), After(disk, run, spoolMax).primary;
            && disk.primary <= p && l.frontier <= |l.spooled|
            && Only(p[|disk.primary|..], Ids(l.spooled)) == Missing(l.spooled[..l.frontier], Ids(disk.primary))
  {
    LedgerIsLog(disk, run, spoolMax);
    LedgerInv(disk, run, spoolMax);
  }

  /** Spool entries not yet in the primary. */
  function Unreplayed(disk: Disk): nat {
    |Missing(disk.spool, Ids(disk.primary))|
  }

  /** Nothing appears or vanishes: what waited at the start and what was queued since has
      been replayed or is still waiting. */
  lemma Conservation(disk: Disk, run: seq<Op>, spoolMax: nat)
    requires Clean(disk) && FreshRun(run, Held(disk))
    ensures var after := After(disk, run, spoolMax);
            Unreplayed(disk) + (after.metrics.queued - disk.metrics.queued)
            == (after.metrics.replayed - disk.metrics.replayed) + Unreplayed(after)
  {
    var l := LedgerAfter(disk, run, spoolMax);
    LedgerIsLog(disk, run, spoolMax);
    LedgerInv(disk, run, spoolMax);
    WaitingIsAhead(l, disk.primary);
    QueuedIsNew(disk, run, spoolMax);
    Balance(l, disk);
  }

  /** From the `n`-th on, no event has an id in `used`. */
  ghost predicate NewFrom(events: seq<Event>, n: nat, used: set<string>) {
    forall j :: n <= j < |events| ==> events[j].id !in used
  }

  lemma Balance(l: Ledger, disk: Disk)
    requires InOrder(l, disk.primary) && disk.spool <= l.spooled && NewFrom(l.spooled, |disk.spool|, Ids(disk.primary))
    ensures Unreplayed(disk) + (|l.spooled| - |disk.spool|)
            == |l.replayed| + |Missing(l.spooled[l.frontier..], Ids(disk.primary))|
  {
    var p0, queued := Ids(disk.primary), l.spooled[|disk.spool|..];
    assert Missing(l.spooled, p0) == l.replayed + Missing(l.spooled[l.frontier..], p0) by {
      assert l.spooled == l.spooled[..l.frontier] + l.spooled[l.frontier..];
      MissingConcat(l.spooled[..l.frontier], l.spooled[l.frontier..], p0);
    }
    assert Missing(l.spooled, p0) == Missing(disk.spool, p0) + queued by {
      assert l.spooled == disk.spool + queued;
      MissingConcat(disk.spool, queued, p0);
      FilterAll(queued, p0);
    }
  }

  lemma WaitingIsAhead(l: Ledger, p0: seq<Event>)
    requires Inv(l, p0)
    ensures Missing(l.disk.spool, Ids(l.disk.primary)) == Missing(l.spooled[l.frontier..], Ids(p0))
  {
    var base, front, n := Base(l), l.frontier, |l.spooled|;
    assert l.disk.spool == l.spooled[base..front] + l.spooled[front..n];
    MissingConcat(l.spooled[base..front], l.spooled[front..n], Ids(l.disk.primary));
    PassedIsHeld(l, p0, base, front);
    AheadIsAsInitially(l, p0, n);
    assert l.spooled[front..n] == l.spooled[front..];
  }

  /** What is queued during a run was not in the primary at its start. */
  lemma {:induction false} QueuedIsNew(disk: Disk, run: seq<Op>, spoolMax: nat)
    requires FreshRun(run, Held(disk))
    ensures NewFrom(LedgerAfter(disk, run, spoolMax).spooled, |disk.spool|, Held(disk))
  {
    if run != [] {
      QueuedIsNew(disk, run[..|run| - 1], spoolMax);
      SpooledGrowth(LedgerAfter(disk, run[..|run| - 1], spoolMax), run[|run| - 1], spoolMax);
    }
  }

  lemma SpooledGrowth(l: Ledger, op: Op, spoolMax: nat)
    ensures ExecLedger(l, op, spoolMax).spooled == l.spooled
            || (op.WriteOp? && ExecLedger(l, op, spoolMax).spooled == l.spooled + [op.event])
  {
  }

  lemma SpooledIsKept(l: Ledger, p0: seq<Event>, e: Event)
    requires TailOfSpooled(l) && InOrder(l, p0) && e in l.spooled && e.id !in Ids(p0)
    ensures e in l.disk.primary || e in l.disk.spool
  {
    var j :| 0 <= j < |l.spooled| && l.spooled[j] == e;
    if j < Base(l) {
      assert l.spooled[..l.frontier][j] == e;
      MissingMembers(l.spooled[..l.frontier], Ids(p0), e);
      OnlyMembers(l.disk.primary[|p0|..], Ids(l.spooled), e);
    } else {
      assert l.disk.spool[j - Base(l)] == e;
    }
  }

  lemma {:induction false} FreshWrite(run: seq<Op>, used: set<string>, i: nat)
    requires FreshRun(run, used) && i < |run| && run[i].WriteOp?
    ensures run[i].event.id !in used
  {
    if i < |run| - 1 { FreshWrite(run[..|run| - 1], used, i); }
  }

  predicate Recorded(l: Ledger, e: Event) { e in l.disk.primary || e in l.spooled }

  lemma {:induction false} AcknowledgedIsRecorded(disk: Disk, run: seq<Op>, spoolMax: nat, i: nat)
    requires i < |run| && run[i].WriteOp? && Exec(After(disk, run[..i], spoolMax), run[i], spoolMax).1
    ensures Recorded(LedgerAfter(disk, run, spoolMax), run[i].event)
  {
    var init := run[..|run| - 1];
    var l := LedgerAfter(disk, init, spoolMax);
    if i < |init| {
      assert run[..i] == init[..i];
      AcknowledgedIsRecorded(disk, init, spoolMax, i);
      RecordedStays(l, run[|run| - 1], spoolMax, run[i].event);
    } else {
      assert run[..i] == init;
      LedgerIsLog(disk, init, spoolMax);
      AcknowledgedNow(l, run[i], spoolMax);
    }
  }

  lemma AcknowledgedNow(l: Ledger, op: Op, spoolMax: nat)
    requires op.WriteOp? && Exec(l.disk, op, spoolMax).1
    ensures Recorded(ExecLedger(l, op, spoolMax), op.event)
  {}

  lemma RecordedStays(l: Ledger, op: Op, spoolMax: nat, e: Event)
    requires Recorded(l, e)
    ensures Recorded(ExecLedger(l, op, spoolMax), e)
  {}

  /** No acknowledged event is lost: after every continuation the event itself, unchanged, is
      in the primary or in the spool. */
  lemma AcknowledgedEventIsKept(disk: Disk, run: seq<Op>, spoolMax: nat, i: nat)
    requires Clean(disk) && FreshRun(run, Held(disk)) && i < |run| && run[i].WriteOp?
    requires Exec(After(disk, run[..i], spoolMax), run[i], spoolMax).1
    ensures var after := After(disk, run, spoolMax); run[i].event in after.primary || run[i].event in after.spool
  {
    AcknowledgedIsRecorded(disk, run, spoolMax, i);
    FreshWrite(run, Held(disk), i);
    LedgerIsLog(disk, run, spoolMax);
    LedgerInv(disk, run, spoolMax);
    var l := LedgerAfter(disk, run, spoolMax);
    if run[i].event in l.spooled { SpooledIsKept(l, disk.primary, run[i].event); }
  }
}
