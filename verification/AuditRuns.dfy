/** What holds of the audit log over every run of writes and flushes, whatever fails. */
module AuditRuns {
  import opened AuditDurability
  import opened Outcomes

  datatype Op = WriteOp(event: Event, writeFaults: WriteFaults) | FlushOp(flushFaults: FlushFaults)

  function Exec(disk: Disk, op: Op, spoolMax: nat): (Disk, bool) {
    match op
    case WriteOp(event, faults) => Write(disk, event, spoolMax, faults)
    case FlushOp(faults) => Flush(disk, faults)
  }

  function After(disk: Disk, run: seq<Op>, spoolMax: nat): Disk {
    if run == [] then disk
    else Exec(After(disk, run[..|run| - 1], spoolMax), run[|run| - 1], spoolMax).0
  }

  // ---------- Filtering by id ----------

  lemma {:induction false} MissingConcat(a: seq<Event>, b: seq<Event>, ids: set<string>)
    ensures Missing(a + b, ids) == Missing(a, ids) + Missing(b, ids)
  {
    if b == [] {
      assert a + b == a;
    } else {
      var init := b[..|b| - 1];
      MissingConcat(a, init, ids);
      assert (a + b)[..|a + b| - 1] == a + init;
    }
  }

  lemma {:induction false} OnlyConcat(a: seq<Event>, b: seq<Event>, ids: set<string>)
    ensures Only(a + b, ids) == Only(a, ids) + Only(b, ids)
  {
    if b == [] {
      assert a + b == a;
    } else {
      var init := b[..|b| - 1];
      OnlyConcat(a, init, ids);
      assert (a + b)[..|a + b| - 1] == a + init;
    }
  }

  lemma {:induction false} MissingMembers(events: seq<Event>, ids: set<string>, e: Event)
    ensures e in Missing(events, ids) <==> e in events && e.id !in ids
  {
    if events != [] {
      MissingMembers(events[..|events| - 1], ids, e);
      assert events == events[..|events| - 1] + [events[|events| - 1]];
    }
  }

  lemma {:induction false} OnlyMembers(events: seq<Event>, ids: set<string>, e: Event)
    ensures e in Only(events, ids) <==> e in events && e.id in ids
  {
    if events != [] {
      OnlyMembers(events[..|events| - 1], ids, e);
      assert events == events[..|events| - 1] + [events[|events| - 1]];
    }
  }

  lemma {:induction false} MissingAgree(events: seq<Event>, ids: set<string>, ids': set<string>)
    requires forall e :: e in events ==> (e.id in ids <==> e.id in ids')
    ensures Missing(events, ids) == Missing(events, ids')
  {
    if events != [] {
      MissingAgree(events[..|events| - 1], ids, ids');
      assert events[|events| - 1] in events;
    }
  }

  lemma {:induction false} OnlyAgree(events: seq<Event>, ids: set<string>, ids': set<string>)
    requires forall e :: e in events ==> (e.id in ids <==> e.id in ids')
    ensures Only(events, ids) == Only(events, ids')
  {
    if events != [] {
      OnlyAgree(events[..|events| - 1], ids, ids');
      assert events[|events| - 1] in events;
    }
  }

  lemma {:induction false} MissingNone(events: seq<Event>, ids: set<string>)
    requires forall e :: e in events ==> e.id in ids
    ensures Missing(events, ids) == []
  {
    if events != [] {
      MissingNone(events[..|events| - 1], ids);
      assert events[|events| - 1] in events;
    }
  }

  lemma {:induction false} FilterAll(events: seq<Event>, ids: set<string>)
    ensures (forall e :: e in events ==> e.id in ids) ==> Only(events, ids) == events
    ensures (forall e :: e in events ==> e.id !in ids) ==> Missing(events, ids) == events && Only(events, ids) == []
  {
    if events != [] {
      FilterAll(events[..|events| - 1], ids);
      assert events[|events| - 1] in events;
      assert events == events[..|events| - 1] + [events[|events| - 1]];
    }
  }

  // ---------- No id is lost ----------

  function Held(disk: Disk): set<string> {
    Ids(disk.primary) + Ids(disk.spool)
  }

  /** The records dealt with are in the primary. */
  lemma {:induction false} ReplayedIsHeld(primary: seq<Event>, records: seq<Event>, from: nat, faults: FlushFaults,
                                          i: nat)
    requires from <= |records|
    requires from <= i < Replay(primary, records, from, faults).1
    ensures records[i].id in Ids(Replay(primary, records, from, faults).0)
    decreases |records| - from
  {
    var next := if records[from].id in Ids(primary) then primary else primary + [records[from]];
    if i == from {
      assert records[i].id in Ids(next);
      var e :| e in next && e.id == records[i].id;
      assert e in Replay(next, records, from + 1, faults).0;
    } else {
      ReplayedIsHeld(next, records, from + 1, faults, i);
    }
  }

  lemma FlushHolds(disk: Disk, faults: FlushFaults)
    ensures Held(disk) <= Held(Flush(disk, faults).0)
  {
    var after := Flush(disk, faults).0;
    forall id | id in Held(disk) ensures id in Held(after) {
      if id in Ids(disk.primary) {
        var e :| e in disk.primary && e.id == id;
        assert e in after.primary;
      } else {
        var i :| 0 <= i < |disk.spool| && disk.spool[i].id == id;
        if !faults.read && i < Replay(disk.primary, disk.spool, 0, faults).1 {
          ReplayedIsHeld(disk.primary, disk.spool, 0, faults, i);
        } else if after.spool != disk.spool {
          assert after.spool[i - Replay(disk.primary, disk.spool, 0, faults).1] == disk.spool[i];
        }
      }
    }
  }

  lemma ExecHolds(disk: Disk, op: Op, spoolMax: nat)
    ensures Held(disk) <= Held(Exec(disk, op, spoolMax).0)
    ensures op.WriteOp? && Exec(disk, op, spoolMax).1 ==> op.event.id in Held(Exec(disk, op, spoolMax).0)
  {
    if op.WriteOp? {
      FlushHolds(disk, op.writeFaults.flush);
      var flushed, after := Flush(disk, op.writeFaults.flush).0, Exec(disk, op, spoolMax).0;
      assert forall e :: e in flushed.primary ==> e in after.primary;
      assert forall e :: e in flushed.spool ==> e in after.spool;
    } else {
      FlushHolds(disk, op.flushFaults);
    }
  }

  /** No acknowledged write is ever forgotten: from its acknowledgement on, after every
      continuation, its id is in the primary or in the spool, whatever fails. */
  lemma {:induction false} AcknowledgedIsKept(disk: Disk, run: seq<Op>, spoolMax: nat, i: nat)
    requires i < |run| && run[i].WriteOp?
    requires Exec(After(disk, run[..i], spoolMax), run[i], spoolMax).1
    ensures run[i].event.id in Held(After(disk, run, spoolMax))
  {
    var init, last := run[..|run| - 1], run[|run| - 1];
    ExecHolds(After(disk, init, spoolMax), last, spoolMax);
    if i < |init| {
      assert init[..i] == run[..i];
      AcknowledgedIsKept(disk, init, spoolMax, i);
    }
  }
}
