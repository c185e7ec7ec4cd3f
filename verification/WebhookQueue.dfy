// The durable webhook queue, the dedup markers, one processing attempt, and the worker's drain.
module WebhookQueue {
  import opened Wrappers

  type RowId = nat
  type EventId = nat // a (gateway, event id) pair
  type TxnId = nat

  datatype QueueStatus = Pending | InProcess | Completed | Failed | Dlq

  datatype QueueRow = QueueRow(event: EventId, txn: Option<TxnId>, status: QueueStatus, retryCount: nat, nextRetryAt: int)

  type Rows = map<RowId, QueueRow>

  const MAX_RETRIES: nat := 3

  function Pow2(n: nat): nat {
    if n == 0 then 1 else 2 * Pow2(n - 1)
  }

  function BackoffMs(retryCount: nat): nat {
    Pow2(retryCount) * 1000
  }

  // The waits the service makes: two seconds after the first failure, four after the second.
  lemma BackoffInMs(n: nat)
    ensures BackoffMs(0) == 1_000 && BackoffMs(1) == 2_000 && BackoffMs(2) == 4_000
    ensures BackoffMs(n + 1) == 2 * BackoffMs(n)
  {
  }

  predicate IsDue(row: QueueRow, now: int) {
    row.status in {Pending, Failed} && row.nextRetryAt <= now
  }

  // ---------------------------------------------------------------- row updates

  function Enqueued(event: EventId, txn: Option<TxnId>, now: int): QueueRow {
    QueueRow(event, txn, Pending, 0, now)
  }

  function Rescheduled(row: QueueRow, retryCount: nat, now: int): QueueRow {
    if retryCount >= MAX_RETRIES then row.(status := Dlq, retryCount := retryCount)
    else row.(status := Failed, retryCount := retryCount, nextRetryAt := now + BackoffMs(retryCount))
  }

  function Requeued(row: QueueRow, now: int): QueueRow {
    row.(status := Pending, retryCount := 0, nextRetryAt := now)
  }

  class WebhookQueueRepository {
    var rows: Rows

    constructor ()
      ensures rows == map[]
    {
      rows := map[];
    }

    method Enqueue(id: RowId, event: EventId, txn: Option<TxnId>, now: int)
      requires id !in rows
      modifies this
      ensures rows == old(rows)[id := Enqueued(event, txn, now)]
      ensures rows[id] == QueueRow(event, txn, Pending, 0, now)
      ensures forall later :: IsDue(rows[id], later) <==> later >= now
    {
      rows := rows[id := QueueRow(event, txn, Pending, 0, now)];
    }

    method MarkProcessing(id: RowId)
      modifies this
      ensures rows == if id in old(rows) then old(rows)[id := old(rows)[id].(status := InProcess)] else old(rows)
      ensures id in old(rows) ==> forall later :: !IsDue(rows[id], later)
    {
      if id in rows {
        rows := rows[id := rows[id].(status := InProcess)];
      }
    }

    method MarkCompleted(id: RowId)
      modifies this
      ensures rows == if id in old(rows) then old(rows)[id := old(rows)[id].(status := Completed)] else old(rows)
      ensures id in old(rows) ==> forall later :: !IsDue(rows[id], later)
    {
      if id in rows {
        rows := rows[id := rows[id].(status := Completed)];
      }
    }

    method MarkFailedWithRetry(id: RowId, retryCount: nat, now: int)
      modifies this
      ensures rows == if id in old(rows) then old(rows)[id := Rescheduled(old(rows)[id], retryCount, now)] else old(rows)
      ensures id in old(rows) && retryCount < 3 ==>
                forall later :: IsDue(rows[id], later) <==> later >= now + BackoffMs(retryCount)
      ensures id in old(rows) && retryCount >= 3 ==> forall later :: !IsDue(rows[id], later)
      ensures id in old(rows) && retryCount in {1, 2} ==>
                rows[id] == QueueRow(old(rows)[id].event, old(rows)[id].txn, Failed, retryCount, now + if retryCount == 1 then 2_000 else 4_000)
      ensures id in old(rows) && retryCount >= 3 ==>
                rows[id] == QueueRow(old(rows)[id].event, old(rows)[id].txn, Dlq, retryCount, old(rows)[id].nextRetryAt)
    {
      BackoffInMs(0);
      var maxRetries := 3;
      if id !in rows {
        return;
      }
      if retryCount >= maxRetries {
        rows := rows[id := rows[id].(status := Dlq, retryCount := retryCount)];
        return;
      }
      var nextRetryAt := now + Pow2(retryCount) * 1000;
      rows := rows[id := rows[id].(status := Failed, retryCount := retryCount, nextRetryAt := nextRetryAt)];
    }

    // Does not look at the status it replaces.
    method RequeueFromDLQ(id: RowId, now: int)
      modifies this
      ensures rows == if id in old(rows) then old(rows)[id := Requeued(old(rows)[id], now)] else old(rows)
      ensures id in old(rows) ==> rows[id] == QueueRow(old(rows)[id].event, old(rows)[id].txn, Pending, 0, now)
      ensures id in old(rows) ==> rows[id].retryCount == 0 && forall later :: IsDue(rows[id], later) <==> later >= now
    {
      if id in rows {
        rows := rows[id := rows[id].(status := Pending, retryCount := 0, nextRetryAt := now)];
      }
    }
  }

  class ProcessedWebhookEventRepository {
    var markers: set<EventId>

    constructor ()
      ensures markers == {}
    {
      markers := {};
    }

    // INSERT ... ON CONFLICT DO NOTHING, in one transaction.
    method InsertIfNotExists(event: EventId) returns (isNew: bool)
      modifies this
      ensures isNew <==> event !in old(markers)
      ensures markers == old(markers) + {event}
    {
      isNew := event !in markers;
      markers := markers + {event};
    }

    method Remove(event: EventId)
      modifies this
      ensures markers == old(markers) - {event}
    {
      markers := markers - {event};
    }
  }

  // ---------------------------------------------------------------- one attempt

  // Where, if anywhere, the work of an attempt throws.
  datatype Work = Succeeds | ThrowsBeforeClaim | ThrowsAfterClaim

  datatype Pipeline = Pipeline(rows: Rows, markers: set<EventId>)

  predicate Resolvable(txn: Option<TxnId>, transactions: set<TxnId>) {
    txn.None? || txn.value in transactions
  }

  // What one uninterrupted attempt on row `id` leaves behind.
  function Processed(p: Pipeline, id: RowId, transactions: set<TxnId>, work: Work, now: int): Pipeline
    requires id in p.rows
  {
    var row := p.rows[id];
    var completed := p.rows[id := row.(status := Completed)];
    var retried := p.rows[id := Rescheduled(row.(status := InProcess), row.retryCount + 1, now)];
    if work == ThrowsBeforeClaim then Pipeline(retried, p.markers)
    else if !Resolvable(row.txn, transactions) then Pipeline(if work == Succeeds then completed else retried, p.markers)
    else if row.event in p.markers then Pipeline(if work == Succeeds then completed else retried, p.markers)
    else if work == Succeeds then Pipeline(completed, p.markers + {row.event})
    else Pipeline(retried, p.markers)
  }

  // Where an attempt leaves its own row: completed if nothing threw, else failed once more and due
  // again in two or four seconds, or at the third failure in the DLQ.
  ghost predicate RowAfterAttempt(was: QueueRow, row: QueueRow, work: Work, now: int) {
    && row.event == was.event && row.txn == was.txn
    && (work == Succeeds ==> row.status == Completed && row.retryCount == was.retryCount && row.nextRetryAt == was.nextRetryAt)
    && (work != Succeeds ==> row.retryCount == was.retryCount + 1)
    && (work != Succeeds && was.retryCount == 0 ==> row.status == Failed && row.nextRetryAt == now + 2_000)
    && (work != Succeeds && was.retryCount == 1 ==> row.status == Failed && row.nextRetryAt == now + 4_000)
    && (work != Succeeds && was.retryCount >= 2 ==> row.status == Dlq && row.nextRetryAt == was.nextRetryAt)
  }

  // An attempt never disturbs another row or another event's marker and never removes a marker
  // that was there before it; it leaves one of its own exactly if it completes the row without
  // having found its transaction missing.
  lemma AttemptIsContained(p: Pipeline, id: RowId, transactions: set<TxnId>, work: Work, now: int)
    requires id in p.rows
    ensures var p' := Processed(p, id, transactions, work, now);
            var row := p.rows[id];
            && p'.rows.Keys == p.rows.Keys
            && (forall other :: other in p.rows && other != id ==> p'.rows[other] == p.rows[other])
            && RowAfterAttempt(row, p'.rows[id], work, now)
            && p'.markers == p.markers + (if work == Succeeds && (row.txn.None? || row.txn.value in transactions) then {row.event} else {})
  {
    BackoffInMs(0);
  }

  class WebhookProcessor {
    const queue: WebhookQueueRepository
    const processedEvents: ProcessedWebhookEventRepository

    constructor (queue: WebhookQueueRepository, processedEvents: ProcessedWebhookEventRepository)
      ensures this.queue == queue && this.processedEvents == processedEvents
    {
      this.queue := queue;
      this.processedEvents := processedEvents;
    }

    ghost function Contents(): Pipeline
      reads this, queue, processedEvents
    {
      Pipeline(queue.rows, processedEvents.markers)
    }

    // processOne(); `transactions` are the ids stored when the attempt looks its own up.
    method ProcessOne(queueId: RowId, transactions: set<TxnId>, work: Work, now: int)
      requires queueId in queue.rows
      modifies queue, processedEvents
      ensures Contents() == Processed(old(Contents()), queueId, transactions, work, now)
      ensures queue.rows.Keys == old(queue.rows).Keys
      ensures forall other :: other in queue.rows && other != queueId ==> queue.rows[other] == old(queue.rows)[other]
      ensures RowAfterAttempt(old(queue.rows)[queueId], queue.rows[queueId], work, now)
      ensures var row := old(queue.rows)[queueId];
              processedEvents.markers
              == old(processedEvents.markers) + (if work == Succeeds && (row.txn.None? || row.txn.value in transactions) then {row.event} else {})
    {
      AttemptIsContained(Contents(), queueId, transactions, work, now);
      var entry := queue.rows[queueId];
      queue.MarkProcessing(queueId);
      var claimedDedupMarker := false;
      var threw := work == ThrowsBeforeClaim;
      if !threw {
        if entry.txn.Some? && entry.txn.value !in transactions {
          if work == Succeeds {
            queue.MarkCompleted(queueId);
          }
          threw := work != Succeeds;
        } else {
          var isNew := processedEvents.InsertIfNotExists(entry.event);
          claimedDedupMarker := isNew;
          if work == Succeeds {
            queue.MarkCompleted(queueId);
          }
          threw := work != Succeeds;
        }
      }
      if threw {
        if claimedDedupMarker {
          processedEvents.Remove(entry.event);
        }
        queue.MarkFailedWithRetry(queueId, entry.retryCount + 1, now);
      }
    }
  }

  // ---------------------------------------------------------------- the worker

  // The attempts of one drain, in order.
  function Drained(p: Pipeline, due: seq<RowId>, transactions: set<TxnId>, works: seq<Work>, now: int): Pipeline
    requires |works| == |due| && forall id :: id in due ==> id in p.rows
    decreases |due|
  {
    if due == [] then p
    else Drained(Processed(p, due[0], transactions, works[0], now), due[1..], transactions, works[1..], now)
  }

  class WebhookWorker {
    const processor: WebhookProcessor
    var running: bool

    constructor (processor: WebhookProcessor)
      ensures this.processor == processor && !running
    {
      this.processor := processor;
      running := false;
    }

    // drain(): skipped while another drain runs. `due` is what the batch query returned, and
    // `marked` is how many of its rows could be marked PROCESSING: the first that could not, which
    // processOne() does before it catches anything, ends the drain. A query that throws returns
    // no rows.
    method Drain(due: seq<RowId>, marked: nat, transactions: set<TxnId>, works: seq<Work>, now: int)
      requires |works| == |due| && marked <= |due| && forall id :: id in due ==> id in processor.queue.rows
      modifies this, processor.queue, processor.processedEvents
      ensures running == old(running)
      ensures processor.Contents() == if old(running) then old(processor.Contents())
                                      else Drained(old(processor.Contents()), due[..marked], transactions, works[..marked], now)
    {
      if running {
        return;
      }
      running := true;
      var attempted, outcomes := due[..marked], works[..marked];
      var i := 0;
      while i < |due|
        invariant 0 <= i <= marked
        invariant running
        invariant forall id :: id in attempted ==> id in processor.queue.rows
        invariant Drained(old(processor.Contents()), attempted, transactions, outcomes, now)
               == Drained(processor.Contents(), attempted[i..], transactions, outcomes[i..], now)
      {
        if i == marked {
          break;
        }
        assert attempted[i..][1..] == attempted[i + 1..] && outcomes[i..][1..] == outcomes[i + 1..];
        processor.ProcessOne(due[i], transactions, works[i], now);
        i := i + 1;
      }
      running := false;
    }
  }

  // A drain attempts each listed row once: for a list without repetitions every row ends as its
  // own attempt leaves it, and the markers added are those of the completed rows whose transaction
  // was found.
  lemma {:induction false} DrainAttemptsEachOnce(p: Pipeline, due: seq<RowId>, transactions: set<TxnId>, works: seq<Work>, now: int, id: RowId)
    requires |works| == |due| && (forall r :: r in due ==> r in p.rows)
    requires forall i, j :: 0 <= i < j < |due| ==> due[i] != due[j]
    requires id in p.rows
    ensures var p' := Drained(p, due, transactions, works, now);
            && p'.rows.Keys == p.rows.Keys
            && (id !in due ==> p'.rows[id] == p.rows[id])
            && (forall i :: 0 <= i < |due| && due[i] == id ==> RowAfterAttempt(p.rows[id], p'.rows[id], works[i], now))
    decreases |due|
  {
    if due != [] {
      var p1 := Processed(p, due[0], transactions, works[0], now);
      var p' := Drained(p, due, transactions, works, now);
      AttemptIsContained(p, due[0], transactions, works[0], now);
      DrainAttemptsEachOnce(p1, due[1..], transactions, works[1..], now, id);
      forall i | 0 <= i < |due| && due[i] == id ensures RowAfterAttempt(p.rows[id], p'.rows[id], works[i], now) {
        if i == 0 {
          assert id !in due[1..];
        } else {
          assert due[1..][i - 1] == id && works[1..][i - 1] == works[i];
        }
      }
      if id !in due { assert id !in due[1..]; }
    }
  }

  // Whether a row leaves its marker, going by its columns alone.
  predicate LeavesMarker(row: QueueRow, work: Work, transactions: set<TxnId>) {
    work == Succeeds && (row.txn.None? || row.txn.value in transactions)
  }

  lemma {:induction false} DrainMarks(p: Pipeline, due: seq<RowId>, transactions: set<TxnId>, works: seq<Work>, now: int, event: EventId)
    requires |works| == |due| && (forall r :: r in due ==> r in p.rows)
    requires forall i, j :: 0 <= i < j < |due| ==> due[i] != due[j]
    ensures event in Drained(p, due, transactions, works, now).markers <==>
            event in p.markers || exists i :: 0 <= i < |due| && p.rows[due[i]].event == event && LeavesMarker(p.rows[due[i]], works[i], transactions)
    decreases |due|
  {
    if due != [] {
      var p1 := Processed(p, due[0], transactions, works[0], now);
      AttemptIsContained(p, due[0], transactions, works[0], now);
      DrainMarks(p1, due[1..], transactions, works[1..], now, event);
      forall i | 0 < i < |due| ensures p1.rows[due[1..][i - 1]] == p.rows[due[i]] {}
      if event in p1.markers && event !in p.markers {
        assert LeavesMarker(p.rows[due[0]], works[0], transactions) && p.rows[due[0]].event == event;
      }
      if i :| 0 < i < |due| && p.rows[due[i]].event == event && LeavesMarker(p.rows[due[i]], works[i], transactions) {
        assert p1.rows[due[1..][i - 1]].event == event && LeavesMarker(p1.rows[due[1..][i - 1]], works[1..][i - 1], transactions);
      }
    }
  }
}
