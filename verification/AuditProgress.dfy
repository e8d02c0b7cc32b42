/** How far a flush gets and which writes are acknowledged: replay stops only at a record that
    cannot be looked up or written, so a flush without such a record empties the spool. */
module AuditProgress {
  import opened AuditDurability
  import opened AuditRuns

  /** Record `k` cannot be dealt with: its lookup fails, or neither the primary nor an earlier
      record has its id and its write fails. */
  predicate Blocked(primary: seq<Event>, records: seq<Event>, faults: FlushFaults, k: nat)
    requires k < |records|
  {
    faults.lookup(k) || (records[k].id !in Ids(primary) + Ids(records[..k]) && faults.write(k))
  }

  lemma IdsAppend(events: seq<Event>, e: Event)
    ensures Ids(events + [e]) == Ids(events) + {e.id}
  {
    assert forall x :: x in events + [e] <==> x in events || x == e;
  }

  /** No record from `from` to `done` is blocked. */
  ghost predicate Clear(start: seq<Event>, records: seq<Event>, faults: FlushFaults, from: nat, done: nat)
    requires done <= |records|
  {
    forall k :: from <= k < done ==> !Blocked(start, records, faults, k)
  }

  /** Dealing with one more record puts its id into the primary. */
  lemma OneMore(start: seq<Event>, primary: seq<Event>, records: seq<Event>, from: nat)
    requires from < |records| && Ids(primary) == Ids(start) + Ids(records[..from])
    ensures var e := records[from];
            Ids(if e.id in Ids(primary) then primary else primary + [e]) == Ids(start) + Ids(records[..from + 1])
  {
    var e := records[from];
    IdsAppend(records[..from], e);
    IdsAppend(primary, e);
    assert records[..from + 1] == records[..from] + [e];
  }

  /** From any record on, with the earlier ones dealt with, replay stops at the first blocked record. */
  lemma {:induction false} ReplayStops(start: seq<Event>, primary: seq<Event>, records: seq<Event>, from: nat,
                                       faults: FlushFaults)
    requires from <= |records| && Ids(primary) == Ids(start) + Ids(records[..from])
    ensures var (primary', done) := Replay(primary, records, from, faults);
            && Clear(start, records, faults, from, done)
            && (done < |records| ==> Blocked(start, records, faults, done))
            && Ids(primary') == Ids(start) + Ids(records[..done])
    decreases |records| - from
  {
    if from < |records| && !Blocked(start, records, faults, from) {
      var e := records[from];
      OneMore(start, primary, records, from);
      ReplayStops(start, if e.id in Ids(primary) then primary else primary + [e], records, from + 1, faults);
    }
  }

  /** A flush deals with the records up to the first blocked one, keeps the rest unless the spool
      cannot be rewritten, and counts a failure exactly if it could but records are left. */
  lemma FlushStopsAt(disk: Disk, faults: FlushFaults) returns (done: nat)
    requires !faults.read
    ensures done <= |disk.spool| && (done < |disk.spool| ==> Blocked(disk.primary, disk.spool, faults, done))
    ensures Clear(disk.primary, disk.spool, faults, 0, done)
    ensures var (after, ok) := Flush(disk, faults);
            var left := done < |disk.spool|;
            && Ids(after.primary) == Ids(disk.primary) + Ids(disk.spool[..done])
            && after.spool == (if faults.rewrite then disk.spool else disk.spool[done..])
            && after.metrics.flushFailures == disk.metrics.flushFailures + (if left && !faults.rewrite then 1 else 0)
  {
    done := Replay(disk.primary, disk.spool, 0, faults).1;
    assert Ids(disk.spool[..0]) == {};
    ReplayStops(disk.primary, disk.primary, disk.spool, 0, faults);
  }

  /** A flush succeeds exactly if the spool can be read and is empty, or no record is blocked and
      it can be rewritten. */
  lemma FlushSucceedsIff(disk: Disk, faults: FlushFaults)
    ensures Flush(disk, faults).1 <==>
            !faults.read &&
            (disk.spool == [] ||
             (!faults.rewrite && Clear(disk.primary, disk.spool, faults, 0, |disk.spool|)))
  {
    if !faults.read { var done := FlushStopsAt(disk, faults); }
  }

  /** A flush that succeeds leaves an empty spool and every spooled id in the primary. */
  lemma FlushEmptiesSpool(disk: Disk, faults: FlushFaults)
    requires Flush(disk, faults).1
    ensures Flush(disk, faults).0.spool == []
    ensures Ids(Flush(disk, faults).0.primary) == Ids(disk.primary) + Ids(disk.spool)
  {
    var done := FlushStopsAt(disk, faults);
    FlushSucceedsIff(disk, faults);
    assert disk.spool[..|disk.spool|] == disk.spool;
  }

  /** Nothing fails: the flush succeeds. */
  lemma FaultlessFlush(disk: Disk, faults: FlushFaults)
    requires !faults.read && !faults.rewrite
    requires forall k :: 0 <= k < |disk.spool| ==> !faults.lookup(k) && !faults.write(k)
    ensures Flush(disk, faults).1 && Flush(disk, faults).0.spool == []
    ensures Ids(disk.spool) <= Ids(Flush(disk, faults).0.primary)
  {
    FlushSucceedsIff(disk, faults);
    FlushEmptiesSpool(disk, faults);
  }

  /** An event is acknowledged exactly if the primary takes it, or the spool can be counted, has room
      after the flush and can be appended to; it is dropped exactly if the spool has no room. */
  lemma WriteAcknowledgedIff(disk: Disk, event: Event, spoolMax: nat, faults: WriteFaults)
    ensures var flushed, (after, ok) := Flush(disk, faults.flush).0, Write(disk, event, spoolMax, faults);
            var room := |flushed.spool| < spoolMax;
            && (ok <==> !faults.primary || (!faults.count && room && !faults.append))
            && after.primary == flushed.primary + (if faults.primary then [] else [event])
            && after.spool == flushed.spool + (if ok && faults.primary then [event] else [])
            && after.metrics.queued == flushed.metrics.queued + (if ok && faults.primary then 1 else 0)
            && after.metrics.dropped
               == flushed.metrics.dropped + (if faults.primary && !faults.count && !room then 1 else 0)
  {}

  /** Whatever failed before, the first flush that succeeds brings every acknowledged event into the
      primary. */
  lemma AcknowledgedReachesPrimary(disk: Disk, run: seq<Op>, spoolMax: nat, i: nat, faults: FlushFaults)
    requires i < |run| && run[i].WriteOp?
    requires Exec(After(disk, run[..i], spoolMax), run[i], spoolMax).1
    requires Flush(After(disk, run, spoolMax), faults).1
    ensures run[i].event.id in Ids(Flush(After(disk, run, spoolMax), faults).0.primary)
  {
    AcknowledgedIsKept(disk, run, spoolMax, i);
    FlushEmptiesSpool(After(disk, run, spoolMax), faults);
  }
}
