/** The agent's audit log: a primary file, a spool for events the primary refused, and a
    flush that replays the spool. Every file operation may fail; appends and replacements
    are atomic. A process that dies inside a flush leaves what a flush leaves whose lookup
    failed at that record and whose spool rewrite failed. */
module AuditDurability {
  import opened Outcomes

  datatype Event = Event(id: string, ok: Option<bool>, responseBytes: Option<nat>)

  datatype Metrics = Metrics(queued: nat, dropped: nat, replayed: nat, flushFailures: nat)

  /** Which operations of one flush fail; lookups and writes are numbered by spool record. */
  datatype FlushFaults = FlushFaults(read: bool, lookup: nat -> bool, write: nat -> bool, rewrite: bool)

  datatype WriteFaults = WriteFaults(flush: FlushFaults, primary: bool, count: bool, append: bool)

  function Ids(events: seq<Event>): set<string> {
    set e | e in events :: e.id
  }

  ghost predicate DistinctIds(events: seq<Event>) {
    forall i, j :: 0 <= i < j < |events| ==> events[i].id != events[j].id
  }

  /** The events whose id is not in `ids`, in order. */
  function Missing(events: seq<Event>, ids: set<string>): seq<Event> {
    if events == [] then []
    else
      var last := events[|events| - 1];
      Missing(events[..|events| - 1], ids) + (if last.id in ids then [] else [last])
  }

  /** The events whose id is in `ids`, in order. */
  function Only(events: seq<Event>, ids: set<string>): seq<Event> {
    if events == [] then []
    else
      var last := events[|events| - 1];
      Only(events[..|events| - 1], ids) + (if last.id in ids then [last] else [])
  }

  // ---------- The operations ----------

  method ContainsEventId(primary: seq<Event>, id: string) returns (found: bool)
    ensures found <==> id in Ids(primary)
  {
    for i := 0 to |primary|
      invariant forall j :: 0 <= j < i ==> primary[j].id != id
    {
      if primary[i].id == id { return true; }
    }
    return false;
  }

  /** Replays the records from the first to the one that cannot be looked up or written:
      the new primary and the number of records dealt with. */
  function Replay(primary: seq<Event>, records: seq<Event>, from: nat, faults: FlushFaults): (r: (seq<Event>, nat))
    requires from <= |records|
    ensures from <= r.1 <= |records| && primary <= r.0
    decreases |records| - from
  {
    if from == |records| || faults.lookup(from) then (primary, from)
    else if records[from].id in Ids(primary) then Replay(primary, records, from + 1, faults)
    else if faults.write(from) then (primary, from)
    else Replay(primary + [records[from]], records, from + 1, faults)
  }

  datatype Disk = Disk(primary: seq<Event>, spool: seq<Event>, metrics: Metrics)

  function Flush(disk: Disk, faults: FlushFaults): (Disk, bool) {
    if faults.read then (disk, false)
    else if disk.spool == [] then (disk, true)
    else
      var (primary, done) := Replay(disk.primary, disk.spool, 0, faults);
      var metrics := disk.metrics.(replayed := disk.metrics.replayed + |primary| - |disk.primary|);
      if faults.rewrite then (disk.(primary := primary, metrics := metrics), false)
      else if done < |disk.spool| then
        (Disk(primary, disk.spool[done..], metrics.(flushFailures := metrics.flushFailures + 1)), false)
      else (Disk(primary, [], metrics), true)
  }

  function Enqueue(disk: Disk, event: Event, spoolMax: nat, faults: WriteFaults): (Disk, bool) {
    if faults.count then (disk, false)
    else if |disk.spool| >= spoolMax then
      (disk.(metrics := disk.metrics.(dropped := disk.metrics.dropped + 1)), false)
    else if faults.append then (disk, false)
    else
      (disk.(spool := disk.spool + [event], metrics := disk.metrics.(queued := disk.metrics.queued + 1)), true)
  }

  function Write(disk: Disk, event: Event, spoolMax: nat, faults: WriteFaults): (Disk, bool) {
    var flushed := Flush(disk, faults.flush).0;
    if !faults.primary then (flushed.(primary := flushed.primary + [event]), true)
    else Enqueue(flushed, event, spoolMax, faults)
  }

  /** The replay loop. */
  method ReplayRecords(primary: seq<Event>, records: seq<Event>, faults: FlushFaults)
    returns (primary': seq<Event>, done: nat)
    ensures (primary', done) == Replay(primary, records, 0, faults)
  {
    primary', done := primary, 0;
    while done < |records|
      invariant done <= |records|
      invariant Replay(primary, records, 0, faults) == Replay(primary', records, done, faults)
    {
      if faults.lookup(done) { return; }
      var found := ContainsEventId(primary', records[done].id);
      if !found {
        if faults.write(done) { return; }
        primary' := primary' + [records[done]];
      }
      done := done + 1;
    }
  }

  class Durability {
    var primary: seq<Event>
    var spool: seq<Event>
    var metrics: Metrics
    const spoolMax: nat

    function Contents(): Disk
      reads this
    {
      Disk(primary, spool, metrics)
    }

    constructor (primary: seq<Event>, spool: seq<Event>, spoolMax: nat)
      requires spoolMax > 0
      ensures Contents() == Disk(primary, spool, Metrics(0, 0, 0, 0)) && this.spoolMax == spoolMax
    {
      this.primary, this.spool, this.metrics, this.spoolMax := primary, spool, Metrics(0, 0, 0, 0), spoolMax;
    }

    method FlushSpool(faults: FlushFaults) returns (ok: bool)
      modifies this
      ensures (Contents(), ok) == Flush(old(Contents()), faults)
    {
      if faults.read { return false; }
      if spool == [] { return true; }
      var replayed, done := ReplayRecords(primary, spool, faults);
      metrics := metrics.(replayed := metrics.replayed + |replayed| - |primary|);
      primary := replayed;
      if faults.rewrite { return false; }
      ok := done == |spool|;
      spool := spool[done..];
      assert ok ==> spool == [];
      if !ok { metrics := metrics.(flushFailures := metrics.flushFailures + 1); }
    }

    method WriteEvent(event: Event, faults: WriteFaults) returns (ok: bool)
      modifies this
      ensures (Contents(), ok) == Write(old(Contents()), event, spoolMax, faults)
    {
      var _ := FlushSpool(faults.flush);
      if !faults.primary {
        primary := primary + [event];
        return true;
      }
      if faults.count { return false; }
      if |spool| >= spoolMax {
        metrics := metrics.(dropped := metrics.dropped + 1);
        return false;
      }
      if faults.append { return false; }
      spool := spool + [event];
      metrics := metrics.(queued := metrics.queued + 1);
      return true;
    }
  }
}
