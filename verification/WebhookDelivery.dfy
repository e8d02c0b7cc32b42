/** Webhook delivery with bounded retries against an arbitrary receiver. */
module WebhookDelivery {
  import opened Outcomes

  datatype WebhookError =
    | Timeout | RequestFailed | ResponseReadFailed | ResponseTooLarge | Http5xx
    | Http4xx | RedirectForbidden | StatusInvalid | OtherError

  datatype Reply = Completed(status: nat) | Failed(error: WebhookError)

  /** What the receiver answers to attempt `k` for alert `i`, and how large that request is. */
  datatype Wire = Wire(send: (int, int) -> Reply, size: (int, int) -> nat)

  datatype RowStatus = Succeeded | AttemptFailed | DryRun

  /** A row of the delivery attempt table. */
  datatype Row = Row(alert: nat, attemptNo: nat, status: RowStatus, error: Option<WebhookError>, bytes: nat)

  datatype Hook = Hook(enabled: bool, maxAttempts: nat)

  datatype DeliveryError = Disabled | BadSecret | BadEndpoint | Undelivered(error: WebhookError)

  datatype Summary = Summary(records: nat, bytes: nat)

  function ErrorForStatus(status: nat): Option<WebhookError> {
    if 200 <= status <= 299 then None
    else if 300 <= status <= 399 then Some(RedirectForbidden)
    else if 400 <= status <= 499 then Some(Http4xx)
    else if 500 <= status <= 599 then Some(Http5xx)
    else Some(StatusInvalid)
  }

  predicate Retryable(e: WebhookError) {
    e.Timeout? || e.RequestFailed? || e.ResponseReadFailed? || e.ResponseTooLarge? || e.Http5xx?
  }

  function ErrorOf(w: Wire, i: nat, k: nat): Option<WebhookError> {
    match w.send(i, k)
    case Completed(status) => ErrorForStatus(status)
    case Failed(e) => Some(e)
  }

  function RowFor(w: Wire, i: nat, k: nat): Row {
    Row(i, k, if ErrorOf(w, i, k).None? then Succeeded else AttemptFailed, ErrorOf(w, i, k), w.size(i, k))
  }

  /** Rows of one alert from attempt `k` on. */
  function Tries(w: Wire, i: nat, k: nat, max: nat): seq<Row>
    decreases max - k
  {
    if k > max then []
    else
      var e := ErrorOf(w, i, k);
      if e.None? || !Retryable(e.value) || k == max then [RowFor(w, i, k)]
      else [RowFor(w, i, k)] + Tries(w, i, k + 1, max)
  }

  function FinalError(rows: seq<Row>): Option<WebhookError> {
    if rows == [] then None else rows[|rows| - 1].error
  }

  function SentBytes(rows: seq<Row>): nat {
    if rows == [] then 0
    else SentBytes(rows[..|rows| - 1]) + (if rows[|rows| - 1].status.AttemptFailed? then 0 else rows[|rows| - 1].bytes)
  }

  // ---------- The shape of the attempts ----------

  predicate RetriedFailure(w: Wire, i: nat, k: nat) {
    ErrorOf(w, i, k).Some? && Retryable(ErrorOf(w, i, k).value)
  }

  /** Attempts are numbered from `k` without gaps up to `max`, each row tells what the receiver
      answered, and only a retryable failure is followed by another attempt. */
  lemma {:induction false} TriesShape(w: Wire, i: nat, k: nat, max: nat)
    ensures k <= max ==> 0 < |Tries(w, i, k, max)| <= max - k + 1
    ensures forall j: nat :: j < |Tries(w, i, k, max)| ==> Tries(w, i, k, max)[j] == RowFor(w, i, k + j)
    ensures forall a: nat :: k <= a < k + |Tries(w, i, k, max)| - 1 ==> RetriedFailure(w, i, a)
    ensures k <= max ==> var last := k + |Tries(w, i, k, max)| - 1; last == max || !RetriedFailure(w, i, last)
    decreases max - k
  {
    if k < max && RetriedFailure(w, i, k) {
      TriesShape(w, i, k + 1, max);
      var rest := Tries(w, i, k + 1, max);
      forall j: nat | j < |rest| + 1 ensures Tries(w, i, k, max)[j] == RowFor(w, i, k + j) {
        if j > 0 { assert rest[j - 1] == RowFor(w, i, k + 1 + (j - 1)); }
      }
    }
  }

  // ---------- The loops ----------

  lemma SentAppend(rows: seq<Row>, row: Row)
    ensures SentBytes(rows + [row]) == SentBytes(rows) + if row.status.AttemptFailed? then 0 else row.bytes
  {
    assert (rows + [row])[..|rows|] == rows;
  }

  lemma {:induction false} SentConcat(x: seq<Row>, y: seq<Row>)
    ensures SentBytes(x + y) == SentBytes(x) + SentBytes(y)
  {
    if y == [] {
      assert x + y == x;
    } else {
      SentConcat(x, y[..|y| - 1]);
      assert x + y == (x + y[..|y| - 1]) + [y[|y| - 1]];
      SentAppend(x + y[..|y| - 1], y[|y| - 1]);
      SentAppend(y[..|y| - 1], y[|y| - 1]);
    }
  }

  /** Rows up to an attempt that is not retried are all the rows there are. */
  lemma TriesAre(w: Wire, i: nat, max: nat, rows: seq<Row>)
    requires 1 <= |rows| <= max && forall j: nat :: j < |rows| ==> rows[j] == RowFor(w, i, 1 + j)
    requires forall a: nat :: 1 <= a < |rows| ==> RetriedFailure(w, i, a)
    requires |rows| == max || !RetriedFailure(w, i, |rows|)
    ensures rows == Tries(w, i, 1, max)
  {
    TriesShape(w, i, 1, max);
  }

  /** One request: the row it leaves and whether its failure is worth another. */
  method Attempt(w: Wire, i: nat, k: nat) returns (row: Row, retry: bool)
    ensures row == RowFor(w, i, k) && (retry <==> RetriedFailure(w, i, k))
  {
    var size := w.size(i, k);
    match w.send(i, k) {
      case Completed(status) =>
        var error := ErrorForStatus(status);
        row := Row(i, k, if error.None? then Succeeded else AttemptFailed, error, size);
        retry := error.Some? && Retryable(error.value);
      case Failed(e) =>
        row := Row(i, k, AttemptFailed, Some(e), size);
        retry := Retryable(e);
    }
  }

  /** The attempts for one alert. */
  method DeliverOne(w: Wire, i: nat, max: nat) returns (rows: seq<Row>, finalError: Option<WebhookError>, bytes: nat)
    ensures rows == Tries(w, i, 1, max) && finalError == FinalError(rows) && bytes == SentBytes(rows)
  {
    rows, finalError, bytes := [], None, 0;
    var attemptNo := 1;
    while attemptNo <= max
      invariant 1 <= attemptNo && |rows| == attemptNo - 1 && (attemptNo == 1 || attemptNo <= max)
      invariant forall j: nat :: j < |rows| ==> rows[j] == RowFor(w, i, 1 + j)
      invariant forall a: nat :: 1 <= a < attemptNo ==> RetriedFailure(w, i, a)
      invariant finalError == FinalError(rows) && bytes == SentBytes(rows)
    {
      var row, retry := Attempt(w, i, attemptNo);
      SentAppend(rows, row);
      rows := rows + [row];
      finalError := row.error;
      if row.status.Succeeded? { bytes := bytes + row.bytes; }
      if !retry || attemptNo == max {
        TriesAre(w, i, max, rows);
        return;
      }
      attemptNo := attemptNo + 1;
    }
  }

  /** The rows of the first `n` alerts. */
  function AllTries(w: Wire, n: nat, max: nat): seq<Row> {
    if n == 0 then [] else AllTries(w, n - 1, max) + Tries(w, n - 1, 1, max)
  }

  function DryRows(w: Wire, n: nat): seq<Row> {
    if n == 0 then [] else DryRows(w, n - 1) + [Row(n - 1, 1, DryRun, None, w.size(n - 1, 1))]
  }

  /** A dry run leaves one row an alert, in order, with the size of its first request and no error. */
  lemma {:induction false} DryRowsAre(w: Wire, n: nat)
    ensures DryRows(w, n) == seq(n, (i: nat) => Row(i, 1, DryRun, None, w.size(i, 1)))
  {
    if n > 0 { DryRowsAre(w, n - 1); }
  }

  /** Whether the first `n` alerts all go through. */
  predicate AllThrough(w: Wire, n: nat, max: nat) {
    forall i: nat :: i < n ==> FinalError(Tries(w, i, 1, max)).None?
  }

  method DeliverWebhookAlerts(w: Wire, n: nat, hook: Hook, dryRun: bool, secretMatches: bool, endpointAllowed: bool)
    returns (rows: seq<Row>, r: Result<Summary, DeliveryError>)
    ensures !hook.enabled ==> rows == [] && r == Err(Disabled)
    ensures hook.enabled && !dryRun && !secretMatches ==> rows == [] && r == Err(BadSecret)
    ensures hook.enabled && (dryRun || secretMatches) && !endpointAllowed ==> rows == [] && r == Err(BadEndpoint)
    ensures r.Ok? ==> r.value == Summary(n, SentBytes(rows))
    ensures hook.enabled && endpointAllowed && dryRun ==> rows == DryRows(w, n) && r.Ok?
    ensures hook.enabled && endpointAllowed && !dryRun && secretMatches ==>
              && (r.Ok? <==> AllThrough(w, n, hook.maxAttempts))
              && (r.Ok? ==> rows == AllTries(w, n, hook.maxAttempts))
              && (r.Err? ==> exists f: nat :: f < n && FailsFirst(w, f, hook.maxAttempts, rows, r.error))
  {
    rows := [];
    if !hook.enabled { return rows, Err(Disabled); }
    if !dryRun && !secretMatches { return rows, Err(BadSecret); }
    if !endpointAllowed { return rows, Err(BadEndpoint); }
    var bytes := 0;
    for i := 0 to n
      invariant bytes == SentBytes(rows)
      invariant dryRun ==> rows == DryRows(w, i)
      invariant !dryRun ==> rows == AllTries(w, i, hook.maxAttempts) && AllThrough(w, i, hook.maxAttempts)
    {
      if dryRun {
        SentAppend(rows, Row(i, 1, DryRun, None, w.size(i, 1)));
        rows := rows + [Row(i, 1, DryRun, None, w.size(i, 1))];
        bytes := bytes + w.size(i, 1);
        continue;
      }
      var tries, finalError, sent := DeliverOne(w, i, hook.maxAttempts);
      SentConcat(rows, tries);
      rows := rows + tries;
      bytes := bytes + sent;
      if finalError.Some? {
        assert FailsFirst(w, i, hook.maxAttempts, rows, Undelivered(finalError.value));
        return rows, Err(Undelivered(finalError.value));
      }
    }
    r := Ok(Summary(n, bytes));
  }

  /** Alert `f` is the first that does not go through; nothing after it was tried. */
  predicate FailsFirst(w: Wire, f: nat, max: nat, rows: seq<Row>, error: DeliveryError) {
    && AllThrough(w, f, max)
    && rows == AllTries(w, f + 1, max)
    && FinalError(Tries(w, f, 1, max)).Some?
    && error == Undelivered(FinalError(Tries(w, f, 1, max)).value)
  }

  // ---------- What the rows say ----------

  /** The receiver takes the alert: a status of the 200 class. */
  predicate Accepts(reply: Reply) { reply.Completed? && reply.status / 100 == 2 }

  /** A failure worth another attempt: the request or its answer got lost, or a status of the 500 class. */
  predicate Transient(reply: Reply) {
    match reply
    case Completed(status) => status / 100 == 5
    case Failed(e) => e in {Timeout, RequestFailed, ResponseReadFailed, ResponseTooLarge, Http5xx}
  }

  lemma ReplyClasses(w: Wire, i: nat, k: nat)
    ensures ErrorOf(w, i, k).None? <==> Accepts(w.send(i, k))
    ensures RetriedFailure(w, i, k) <==> Transient(w.send(i, k))
  {}

  /** The error recorded for a status is that of its class; beyond the classes it is invalid. */
  lemma StatusNames(status: nat)
    ensures var e := ErrorForStatus(status);
            && (e == None <==> status / 100 == 2) && (e == Some(RedirectForbidden) <==> status / 100 == 3)
            && (e == Some(Http4xx) <==> status / 100 == 4) && (e == Some(Http5xx) <==> status / 100 == 5)
            && (e == Some(StatusInvalid) <==> status / 100 < 2 || status / 100 > 5)
  {}

  /** The receiver accepts alert `i` at attempt `k`, having failed in a way worth retrying before. */
  predicate AcceptedAt(w: Wire, i: nat, max: nat, k: nat) {
    1 <= k <= max && Accepts(w.send(i, k)) && forall j: nat :: 1 <= j < k ==> Transient(w.send(i, j))
  }

  /** An alert goes through exactly when the receiver accepts it within the attempts allowed. */
  lemma ThroughIffAccepted(w: Wire, i: nat, max: nat)
    requires max > 0
    ensures FinalError(Tries(w, i, 1, max)).None? <==> exists k: nat :: AcceptedAt(w, i, max, k)
  {
    var rows := Tries(w, i, 1, max);
    TriesShape(w, i, 1, max);
    var last: nat := |rows|;
    assert rows[last - 1] == RowFor(w, i, 1 + (last - 1));
    ReplyClasses(w, i, last);
    forall j: nat | 1 <= j < last ensures Transient(w.send(i, j)) { ReplyClasses(w, i, j); }
    if rows[last - 1].error.None? {
      assert AcceptedAt(w, i, max, last);
    } else {
      forall k: nat ensures !AcceptedAt(w, i, max, k) {
        if k > last { assert last == max || !Transient(w.send(i, last)); }
      }
    }
  }

  /** An alert that does not go through ends with the error of its last attempt: the first that is not
      worth another, or the one that uses up the attempts. */
  lemma FailsAtLast(w: Wire, i: nat, max: nat) returns (k: nat)
    requires max > 0
    ensures 1 <= k <= max && |Tries(w, i, 1, max)| == k && FinalError(Tries(w, i, 1, max)) == ErrorOf(w, i, k)
    ensures (forall j: nat :: 1 <= j < k ==> Transient(w.send(i, j))) && (k == max || !Transient(w.send(i, k)))
  {
    k := |Tries(w, i, 1, max)|;
    TriesShape(w, i, 1, max);
    assert Tries(w, i, 1, max)[k - 1] == RowFor(w, i, 1 + (k - 1));
    ReplyClasses(w, i, k);
    forall j: nat | 1 <= j < k ensures Transient(w.send(i, j)) { ReplyClasses(w, i, j); }
  }

  /** Without attempts every alert counts as sent and nothing is. */
  lemma NoAttemptsNoRows(w: Wire, n: nat)
    ensures AllThrough(w, n, 0) && AllTries(w, n, 0) == []
  {
    if n > 0 { NoAttemptsNoRows(w, n - 1); }
  }

  function Successes(rows: seq<Row>, i: nat): nat {
    if rows == [] then 0
    else Successes(rows[..|rows| - 1], i)
         + (if rows[|rows| - 1].alert == i && rows[|rows| - 1].status.Succeeded? then 1 else 0)
  }

  lemma {:induction false} SuccessesConcat(x: seq<Row>, y: seq<Row>, i: nat)
    ensures Successes(x + y, i) == Successes(x, i) + Successes(y, i)
  {
    if y == [] {
      assert x + y == x;
    } else {
      SuccessesConcat(x, y[..|y| - 1], i);
      assert (x + y)[..|x + y| - 1] == x + y[..|y| - 1];
    }
  }

  lemma {:induction false} NoSuccess(rows: seq<Row>, i: nat)
    requires forall j :: 0 <= j < |rows| ==> rows[j].alert != i || !rows[j].status.Succeeded?
    ensures Successes(rows, i) == 0
  {
    if rows != [] { NoSuccess(rows[..|rows| - 1], i); }
  }

  lemma SuccessesOfTries(w: Wire, i: nat, max: nat, a: nat)
    ensures Successes(Tries(w, i, 1, max), a)
         == if a == i && max > 0 && FinalError(Tries(w, i, 1, max)).None? then 1 else 0
  {
    var rows := Tries(w, i, 1, max);
    TriesShape(w, i, 1, max);
    if rows != [] {
      var front := rows[..|rows| - 1];
      forall j: nat | j < |front| ensures front[j].alert != a || !front[j].status.Succeeded? {
        assert rows[j] == RowFor(w, i, 1 + j) && RetriedFailure(w, i, 1 + j);
      }
      NoSuccess(front, a);
      assert rows[|rows| - 1] == RowFor(w, i, 1 + (|rows| - 1));
    }
  }

  /** Of the first `n` alerts, each that goes through is recorded as sent once, the others never. */
  lemma {:induction false} SentOnce(w: Wire, n: nat, max: nat, a: nat)
    requires max > 0
    ensures Successes(AllTries(w, n, max), a) == if a < n && FinalError(Tries(w, a, 1, max)).None? then 1 else 0
  {
    if n > 0 {
      SentOnce(w, n - 1, max, a);
      SuccessesConcat(AllTries(w, n - 1, max), Tries(w, n - 1, 1, max), a);
      SuccessesOfTries(w, n - 1, max, a);
    }
  }
}
