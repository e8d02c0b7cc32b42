/** `audit_then_write_response`: the response goes on the wire only after its audit event is
    durable, and what the wire carries is what the event says. */
module AuditedResponses {
  import opened AuditDurability
  import opened AuditRuns
  import opened AuditReplay
  import opened Outcomes

  datatype Response = Response(requestId: Option<string>, ok: bool, body: string, errorCode: Option<string>)

  datatype SerializeError = InvalidResponse | ResponseTooLarge

  /** What can go wrong between the request task and the audit writer thread. */
  datatype Queue = Delivered | Full | Stopped | AckLost(processed: bool)

  datatype Faults = Faults(queue: Queue, write: WriteFaults)

  /** The JSON encoder and the size limit; encoding may fail. */
  datatype Codec = Codec(encode: Response -> Option<string>, maxBytes: nat)

  datatype Frame = Frame(payload: string, response: Response)

  const TOO_LARGE: string := "RESPONSE_TOO_LARGE"
  const WRITE_FAILED: string := "AUDIT_WRITE_FAILED"

  function ErrorResponse(requestId: Option<string>, code: string): Response {
    Response(requestId, false, code, Some(code))
  }

  function Serialize(codec: Codec, response: Response): Result<string, SerializeError> {
    match codec.encode(response)
    case None => Err(InvalidResponse)
    case Some(payload) => if |payload| > codec.maxBytes then Err(ResponseTooLarge) else Ok(payload)
  }

  /** The frame that would be sent: the response, or its too-large replacement. */
  function Prepare(codec: Codec, response: Response): Result<Frame, SerializeError> {
    match Serialize(codec, response)
    case Ok(payload) => Ok(Frame(payload, response))
    case Err(InvalidResponse) => Err(InvalidResponse)
    case Err(ResponseTooLarge) =>
      var replacement := ErrorResponse(response.requestId, TOO_LARGE);
      match Serialize(codec, replacement)
      case Ok(payload) => Ok(Frame(payload, replacement))
      case Err(e) => Err(e)
  }

  function SyncEvent(event: Event, frame: Frame): Event {
    event.(ok := Some(frame.response.ok), responseBytes := Some(|frame.payload|))
  }

  function AuditFailureFrame(codec: Codec, response: Response): Option<Frame> {
    var failure := ErrorResponse(response.requestId, WRITE_FAILED);
    match Serialize(codec, failure)
    case Ok(payload) => Some(Frame(payload, failure))
    case Err(_) => None
  }

  /** The audit write of one response, if the queue let it through. */
  function AuditOp(event: Event, frame: Frame, faults: Faults): Option<Op> {
    if faults.queue == Delivered || faults.queue == AckLost(true)
    then Some(WriteOp(SyncEvent(event, frame), faults.write)) else None
  }

  function AuditDisk(disk: Disk, op: Option<Op>, spoolMax: nat): Disk {
    match op
    case None => disk
    case Some(op) => Exec(disk, op, spoolMax).0
  }

  /** Whether the request task sees its event acknowledged. */
  function Audited(disk: Disk, event: Event, frame: Frame, faults: Faults, spoolMax: nat): bool {
    faults.queue == Delivered && Exec(disk, WriteOp(SyncEvent(event, frame), faults.write), spoolMax).1
  }

  /** The log after one response and the frame put on the wire, if any. */
  function Serve(disk: Disk, response: Response, event: Event, codec: Codec, faults: Faults, spoolMax: nat)
    : (Disk, Option<Frame>)
  {
    match Prepare(codec, response)
    case Err(_) => (disk, None)
    case Ok(frame) =>
      var disk' := AuditDisk(disk, AuditOp(event, frame, faults), spoolMax);
      if Audited(disk, event, frame, faults, spoolMax) then (disk', Some(frame))
      else (disk', AuditFailureFrame(codec, frame.response))
  }

  // ---------- What goes on the wire ----------

  predicate Fits(codec: Codec, response: Response) {
    codec.encode(response).Some? && |codec.encode(response).value| <= codec.maxBytes
  }

  predicate TooLarge(codec: Codec, response: Response) {
    codec.encode(response).Some? && |codec.encode(response).value| > codec.maxBytes
  }

  /** The response that is audited: the one given, or if that is too large its replacement. */
  function Audible(codec: Codec, response: Response): Response {
    if TooLarge(codec, response) then Response(response.requestId, false, TOO_LARGE, Some(TOO_LARGE)) else response
  }

  /** The event of a response: its outcome and its length in bytes. */
  function EventFor(event: Event, codec: Codec, response: Response): Event
    requires codec.encode(response).Some?
  {
    Event(event.id, Some(response.ok), Some(|codec.encode(response).value|))
  }

  /** The request task hears that the event of `response` was written. */
  predicate Acknowledged(disk: Disk, event: Event, codec: Codec, response: Response, faults: Faults, spoolMax: nat)
    requires codec.encode(response).Some?
  {
    faults.queue.Delivered? && Write(disk, EventFor(event, codec, response), spoolMax, faults.write).1
  }

  /** A frame carries the encoding of its response and respects the limit. */
  lemma FrameIsEncoding(disk: Disk, response: Response, event: Event, codec: Codec, faults: Faults, spoolMax: nat)
    ensures var frame := Serve(disk, response, event, codec, faults, spoolMax).1;
            frame.Some? ==> codec.encode(frame.value.response) == Some(frame.value.payload)
                            && |frame.value.payload| <= codec.maxBytes
  {}

  /** Which response a frame carries: the one given if it fits, the too-large error if it does not, in
      both cases once its event is acknowledged, and the audit error for the same request otherwise. */
  lemma WhatIsSent(disk: Disk, response: Response, event: Event, codec: Codec, faults: Faults, spoolMax: nat)
    ensures var (after, frame) := Serve(disk, response, event, codec, faults, spoolMax);
            var audited := Audible(codec, response);
            var failure := Response(response.requestId, false, WRITE_FAILED, Some(WRITE_FAILED));
            if !Fits(codec, audited) then frame == None && after == disk
            else if Acknowledged(disk, event, codec, audited, faults, spoolMax) then
              frame.Some? && frame.value.response == audited
            else if Fits(codec, failure) then frame.Some? && frame.value.response == failure
            else frame == None
  {}

  /** What is audited: the event of that response, unless the queue loses it. */
  lemma WhatIsAudited(disk: Disk, response: Response, event: Event, codec: Codec, faults: Faults, spoolMax: nat)
    ensures var after := Serve(disk, response, event, codec, faults, spoolMax).0;
            var audited := Audible(codec, response);
            if Fits(codec, audited) && (faults.queue.Delivered? || faults.queue == AckLost(true))
            then after == Write(disk, EventFor(event, codec, audited), spoolMax, faults.write).0
            else after == disk
  {}

  class Connection {
    var wire: seq<Frame>

    method Send(frame: Frame)
      modifies this
      ensures wire == old(wire) + [frame]
    {
      wire := wire + [frame];
    }
  }

  method AuditThenWriteResponse(audit: Durability, conn: Connection, response: Response, event: Event,
                                codec: Codec, faults: Faults)
    modifies audit, conn
    ensures var (disk, frame) := Serve(old(audit.Contents()), response, event, codec, faults, audit.spoolMax);
            && audit.Contents() == disk
            && conn.wire == old(conn.wire) + (if frame.Some? then [frame.value] else [])
  {
    var prepared := Prepare(codec, response);
    if prepared.Err? { return; }
    var frame := prepared.value;
    var ok := false;
    if faults.queue == Delivered || faults.queue == AckLost(true) {
      ok := audit.WriteEvent(SyncEvent(event, frame), faults.write);
    }
    if ok && faults.queue == Delivered {
      conn.Send(frame);
    } else {
      var failure := AuditFailureFrame(codec, frame.response);
      if failure.Some? { conn.Send(failure.value); }
    }
  }

  // ---------- Runs of the agent ----------

  datatype Step =
    | Respond(response: Response, event: Event, codec: Codec, faults: Faults)
    | Tick(flush: FlushFaults)

  /** A sent frame, with the position of the audit write that let it out (if one did). */
  datatype Sent = Sent(frame: Frame, audit: Option<nat>)

  /** The agent's past: the operations its audit log has seen and the frames it has sent. */
  datatype Past = Past(ops: seq<Op>, sent: seq<Sent>)

  function Advance(start: Disk, spoolMax: nat, past: Past, step: Step): Past {
    match step
    case Tick(faults) => past.(ops := past.ops + [FlushOp(faults)])
    case Respond(response, event, codec, faults) =>
      match Prepare(codec, response)
      case Err(_) => past
      case Ok(frame) =>
        var op := AuditOp(event, frame, faults);
        var ops := past.ops + (if op.Some? then [op.value] else []);
        if Audited(After(start, past.ops, spoolMax), event, frame, faults, spoolMax)
        then Past(ops, past.sent + [Sent(frame, Some(|past.ops|))])
        else
          var failure := AuditFailureFrame(codec, frame.response);
          Past(ops, past.sent + (if failure.Some? then [Sent(failure.value, None)] else []))
  }

  function PastOf(start: Disk, spoolMax: nat, steps: seq<Step>): Past {
    if steps == [] then Past([], [])
    else Advance(start, spoolMax, PastOf(start, spoolMax, steps[..|steps| - 1]), steps[|steps| - 1])
  }

  /** A tick flushes the spool and sends nothing. */
  lemma AdvanceTicks(start: Disk, spoolMax: nat, past: Past, step: Step)
    requires step.Tick?
    ensures var past' := Advance(start, spoolMax, past, step);
            && After(start, past'.ops, spoolMax) == Flush(After(start, past.ops, spoolMax), step.flush).0
            && past'.sent == past.sent
  {
    assert (past.ops + [FlushOp(step.flush)])[..|past.ops|] == past.ops;
  }

  /** Each step of the past does to the log and the wire what `Serve` does. */
  lemma AdvanceServes(start: Disk, spoolMax: nat, past: Past, step: Step)
    requires step.Respond?
    ensures var before, past' := After(start, past.ops, spoolMax), Advance(start, spoolMax, past, step);
            var (disk, frame) := Serve(before, step.response, step.event, step.codec, step.faults, spoolMax);
            && After(start, past'.ops, spoolMax) == disk
            && |past'.sent| == |past.sent| + (if frame.Some? then 1 else 0)
            && (frame.Some? ==> past'.sent[|past.sent|].frame == frame.value)
  {
    if Prepare(step.codec, step.response).Ok? {
      var op := AuditOp(step.event, Prepare(step.codec, step.response).value, step.faults);
      assert past.ops + [] == past.ops;
      if op.Some? { assert (past.ops + [op.value])[..|past.ops|] == past.ops; }
    }
  }

  /** The audit write behind a frame was acknowledged and describes it; frames without one
      carry only the audit failure. */
  ghost predicate Backed(start: Disk, spoolMax: nat, ops: seq<Op>, s: Sent) {
    match s.audit
    case None => !s.frame.response.ok && s.frame.response.errorCode == Some(WRITE_FAILED)
    case Some(i) =>
      && i < |ops| && ops[i].WriteOp?
      && ops[i].event.ok == Some(s.frame.response.ok)
      && ops[i].event.responseBytes == Some(|s.frame.payload|)
      && Exec(After(start, ops[..i], spoolMax), ops[i], spoolMax).1
  }

  lemma BackedStays(start: Disk, spoolMax: nat, ops: seq<Op>, more: seq<Op>, s: Sent)
    requires Backed(start, spoolMax, ops, s)
    ensures Backed(start, spoolMax, ops + more, s)
  {
    if s.audit.Some? { assert (ops + more)[..s.audit.value] == ops[..s.audit.value]; }
  }

  ghost predicate WireBacked(start: Disk, spoolMax: nat, past: Past) {
    forall k :: 0 <= k < |past.sent| ==> Backed(start, spoolMax, past.ops, past.sent[k])
  }

  lemma AdvanceBacked(start: Disk, spoolMax: nat, past: Past, step: Step)
    requires WireBacked(start, spoolMax, past)
    ensures WireBacked(start, spoolMax, Advance(start, spoolMax, past, step))
  {
    var past' := Advance(start, spoolMax, past, step);
    var more := past'.ops[|past.ops|..];
    assert past'.ops == past.ops + more && past'.ops[..|past.ops|] == past.ops;
    forall k | 0 <= k < |past'.sent| ensures Backed(start, spoolMax, past'.ops, past'.sent[k]) {
      if k < |past.sent| {
        assert past'.sent[k] == past.sent[k];
        BackedStays(start, spoolMax, past.ops, more, past.sent[k]);
      }
    }
  }

  /** In every run, a frame was sent because its own audit write was acknowledged, or it is
      the audit failure that stands in for a result that could not be audited. */
  lemma {:induction false} EveryFrameBacked(start: Disk, spoolMax: nat, steps: seq<Step>)
    ensures WireBacked(start, spoolMax, PastOf(start, spoolMax, steps))
  {
    if steps != [] {
      EveryFrameBacked(start, spoolMax, steps[..|steps| - 1]);
      AdvanceBacked(start, spoolMax, PastOf(start, spoolMax, steps[..|steps| - 1]), steps[|steps| - 1]);
    }
  }

  // ---------- Every success has an event of its own ----------

  /** The audit writes behind the frames come in the order of the frames, one for each. */
  ghost predicate OwnAudits(past: Past) {
    && (forall k :: 0 <= k < |past.sent| && past.sent[k].audit.Some? ==> past.sent[k].audit.value < |past.ops|)
    && (forall j, k :: 0 <= j < k < |past.sent| && past.sent[j].audit.Some? && past.sent[k].audit.Some? ==>
                       past.sent[j].audit.value < past.sent[k].audit.value)
  }

  /** A step adds at most one operation and one frame; an audited frame comes with its operation. */
  ghost predicate Grown(past: Past, past': Past) {
    && |past.ops| <= |past'.ops| && |past.sent| <= |past'.sent| <= |past.sent| + 1
    && past'.sent[..|past.sent|] == past.sent
    && (|past'.sent| > |past.sent| && past'.sent[|past.sent|].audit.Some? ==>
          past'.sent[|past.sent|].audit.value == |past.ops| < |past'.ops|)
  }

  lemma AdvanceGrows(start: Disk, spoolMax: nat, past: Past, step: Step)
    ensures Grown(past, Advance(start, spoolMax, past, step))
  {}

  lemma GrownKeepsOwn(past: Past, past': Past)
    requires OwnAudits(past) && Grown(past, past')
    ensures OwnAudits(past')
  {
    forall k | 0 <= k < |past.sent| ensures past'.sent[k] == past.sent[k] {
      assert past'.sent[..|past.sent|][k] == past.sent[k];
    }
  }

  lemma {:induction false} AlwaysOwnAudits(start: Disk, spoolMax: nat, steps: seq<Step>)
    ensures OwnAudits(PastOf(start, spoolMax, steps))
  {
    if steps != [] {
      var past, step := PastOf(start, spoolMax, steps[..|steps| - 1]), steps[|steps| - 1];
      AlwaysOwnAudits(start, spoolMax, steps[..|steps| - 1]);
      AdvanceGrows(start, spoolMax, past, step);
      GrownKeepsOwn(past, Advance(start, spoolMax, past, step));
    }
  }

  lemma {:induction false} WrittenInPrefix(run: seq<Op>, i: nat)
    requires i < |run| && run[i].WriteOp?
    ensures run[i].event.id in Written(run)
  {
    if i < |run| - 1 { WrittenInPrefix(run[..|run| - 1], i); }
  }

  lemma {:induction false} FreshIdsDiffer(run: seq<Op>, used: set<string>, i: nat, j: nat)
    requires FreshRun(run, used) && i < j < |run| && run[i].WriteOp? && run[j].WriteOp?
    ensures run[i].event.id != run[j].event.id
  {
    if j == |run| - 1 {
      WrittenInPrefix(run[..j], i);
    } else {
      FreshIdsDiffer(run[..|run| - 1], used, i, j);
    }
  }

  /** The event behind a sent frame. */
  function EventOf(past: Past, k: nat): Option<Event> {
    if k < |past.sent| && past.sent[k].audit.Some? && past.sent[k].audit.value < |past.ops|
       && past.ops[past.sent[k].audit.value].WriteOp?
    then Some(past.ops[past.sent[k].audit.value].event) else None
  }

  /** No success leaves the agent unaudited: in every run, whatever fails and whatever is
      flushed later, each success frame ever sent has its own event in the primary or the spool,
      marked ok and with the frame's own length. */
  lemma NoUnauditedSuccess(start: Disk, spoolMax: nat, steps: seq<Step>, k: nat)
    requires Clean(start)
    requires var past := PastOf(start, spoolMax, steps);
             FreshRun(past.ops, Held(start)) && k < |past.sent| && past.sent[k].frame.response.ok
    ensures var past := PastOf(start, spoolMax, steps);
            var log, event := After(start, past.ops, spoolMax), EventOf(past, k);
            && event.Some? && (event.value in log.primary || event.value in log.spool)
            && event.value.ok == Some(true) && event.value.responseBytes == Some(|past.sent[k].frame.payload|)
  {
    var past := PastOf(start, spoolMax, steps);
    EveryFrameBacked(start, spoolMax, steps);
    assert Backed(start, spoolMax, past.ops, past.sent[k]);
    AcknowledgedEventIsKept(start, past.ops, spoolMax, past.sent[k].audit.value);
  }

  /** Different audited frames have different events. */
  lemma OneEventPerFrame(start: Disk, spoolMax: nat, steps: seq<Step>, j: nat, k: nat)
    requires var past := PastOf(start, spoolMax, steps);
             FreshRun(past.ops, Held(start)) && j < k && EventOf(past, j).Some? && EventOf(past, k).Some?
    ensures var past := PastOf(start, spoolMax, steps); EventOf(past, j).value.id != EventOf(past, k).value.id
  {
    var past := PastOf(start, spoolMax, steps);
    AlwaysOwnAudits(start, spoolMax, steps);
    FreshIdsDiffer(past.ops, Held(start), past.sent[j].audit.value, past.sent[k].audit.value);
  }
}
