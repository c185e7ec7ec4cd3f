// Exactly-once delivery over every interleaving: rows of the same event processed by attempts
// that run concurrently, one in flight per row, and may throw at any point.
module WebhookDelivery {
  import opened Wrappers
  import opened WebhookQueue

  // Where a row's in-flight attempt stands.
  datatype Attempt =
    | Resolving
    | Claiming
    | Working // holds the dedup marker it inserted
    | Discarding // found the marker taken
    | Releasing(claimed: bool) // threw; about to release the marker if it inserted it
    | Rescheduling

  datatype Ending = Owner | Duplicate | UnknownTransaction

  // A queue row with its attempt in flight, how it ended once completed, the attempts ever
  // begun on it, and the enqueue and replays that allowed them.
  datatype Entry = Entry(row: QueueRow, attempt: Option<Attempt>, ending: Option<Ending>, takes: nat, grants: nat)

  datatype Delivery = Delivery(entries: map<RowId, Entry>, markers: set<EventId>, transactions: set<TxnId>)

  const NO_DELIVERIES: Delivery := Delivery(map[], {}, {})

  datatype RowStep =
    | Take(now: int) // fetched as due and marked PROCESSING
    | Resolve
    | Claim
    | Finish
    | Throw
    | Release
    | Reschedule(now: int)
    | Replay(now: int) // from the DLQ

  datatype DeliveryStep =
    | Arrive(id: RowId, event: EventId, txn: Option<TxnId>, now: int)
    | StoreTransaction(t: TxnId)
    | OnRow(id: RowId, step: RowStep)

  function Ends(e: Entry, how: Ending): Entry {
    e.(row := e.row.(status := Completed), attempt := None, ending := Some(how))
  }

  // One step of one row, given the markers and the stored transactions. A step that does not
  // apply changes nothing.
  function EntryNext(e: Entry, markers: set<EventId>, transactions: set<TxnId>, step: RowStep): (Entry, set<EventId>) {
    match (step, e.attempt)
    case (Take(now), None) =>
      (if IsDue(e.row, now) then e.(row := e.row.(status := InProcess), attempt := Some(Resolving), takes := e.takes + 1) else e,
       markers)
    case (Resolve, Some(Resolving)) =>
      (if Resolvable(e.row.txn, transactions) then e.(attempt := Some(Claiming)) else Ends(e, UnknownTransaction), markers)
    case (Claim, Some(Claiming)) =>
      if e.row.event in markers then (e.(attempt := Some(Discarding)), markers)
      else (e.(attempt := Some(Working)), markers + {e.row.event})
    case (Finish, Some(Working)) => (Ends(e, Owner), markers)
    case (Finish, Some(Discarding)) => (Ends(e, Duplicate), markers)
    case (Throw, Some(Working)) => (e.(attempt := Some(Releasing(true))), markers)
    case (Throw, Some(Resolving)) => (e.(attempt := Some(Releasing(false))), markers)
    case (Throw, Some(Claiming)) => (e.(attempt := Some(Releasing(false))), markers)
    case (Throw, Some(Discarding)) => (e.(attempt := Some(Releasing(false))), markers)
    case (Release, Some(Releasing(claimed))) =>
      (e.(attempt := Some(Rescheduling)), if claimed then markers - {e.row.event} else markers)
    case (Reschedule(now), Some(Rescheduling)) =>
      (e.(row := Rescheduled(e.row, e.row.retryCount + 1, now), attempt := None), markers)
    case (Replay(now), None) =>
      (if e.row.status == Dlq then e.(row := Requeued(e.row, now), grants := e.grants + 1) else e, markers)
    case _ => (e, markers)
  }

  function DeliveryNext(s: Delivery, step: DeliveryStep): Delivery {
    match step
    case Arrive(id, event, txn, now) =>
      if id in s.entries then s
      else s.(entries := s.entries[id := Entry(Enqueued(event, txn, now), None, None, 0, 1)])
    case StoreTransaction(t) => s.(transactions := s.transactions + {t})
    case OnRow(id, rowStep) =>
      if id !in s.entries then s
      else
        var (e, markers) := EntryNext(s.entries[id], s.markers, s.transactions, rowStep);
        s.(entries := s.entries[id := e], markers := markers)
  }

  function DeliveryRun(s: Delivery, steps: seq<DeliveryStep>): Delivery {
    if steps == [] then s else DeliveryNext(DeliveryRun(s, steps[..|steps| - 1]), steps[|steps| - 1])
  }

  // ---------------------------------------------------------------- one row

  // The row accounts for its event's marker: its attempt holds it, or it finished with it.
  predicate Accounts(e: Entry) {
    e.attempt == Some(Working) || e.attempt == Some(Releasing(true)) || e.ending == Some(Owner)
  }

  // A row that will still settle its event: not completed, and not about to be discarded.
  predicate StillComing(e: Entry, transactions: set<TxnId>) {
    e.row.status != Completed && Resolvable(e.row.txn, transactions) && e.attempt != Some(Discarding)
  }

  predicate Discarded(e: Entry) {
    e.attempt == Some(Discarding) || e.ending == Some(Duplicate)
  }

  predicate EntryInv(e: Entry, markers: set<EventId>, transactions: set<TxnId>) {
    && (e.attempt.Some? <==> e.row.status == InProcess)
    && (e.ending.Some? <==> e.row.status == Completed)
    && (Accounts(e) ==> e.row.event in markers)
    && (Accounts(e) || e.attempt in {Some(Claiming), Some(Discarding)} ==> Resolvable(e.row.txn, transactions))
  }

  // The retry bookkeeping of one row.
  predicate CountsAgree(e: Entry) {
    && e.grants >= 1
    && (e.row.status == Pending ==> e.row.retryCount == 0)
    && (e.row.status == Failed ==> 1 <= e.row.retryCount <= 2)
    && (e.row.status == Dlq ==> e.row.retryCount == 3)
    && (e.row.status in {InProcess, Completed} ==> e.row.retryCount <= 2)
    && e.takes <= 3 * (e.grants - 1) + e.row.retryCount + (if e.row.status in {InProcess, Completed} then 1 else 0)
  }

  // Everything the interleaving argument needs to know about a step of one row.
  ghost predicate RowStepFacts(e: Entry, markers: set<EventId>, transactions: set<TxnId>, e': Entry, markers': set<EventId>) {
    && e'.row.event == e.row.event && e'.row.txn == e.row.txn
    && EntryInv(e', markers', transactions)
    && (|| (markers' == markers && (Accounts(e') <==> Accounts(e)))
        || (e.row.event !in markers && markers' == markers + {e.row.event} && Accounts(e'))
        || (Accounts(e) && !Accounts(e') && markers' == markers - {e.row.event} && StillComing(e', transactions)))
    && (Discarded(e') ==> Discarded(e) || e.row.event in markers')
    && (StillComing(e, transactions) ==> StillComing(e', transactions) || e.row.event in markers')
  }

  lemma RowStepKeeps(e: Entry, markers: set<EventId>, transactions: set<TxnId>, step: RowStep)
    requires EntryInv(e, markers, transactions)
    ensures var (e', markers') := EntryNext(e, markers, transactions, step);
            RowStepFacts(e, markers, transactions, e', markers') && (e.ending.Some? ==> e' == e)
  {
  }

  lemma RowStepKeepsCounts(e: Entry, markers: set<EventId>, transactions: set<TxnId>, step: RowStep)
    requires EntryInv(e, markers, transactions) && CountsAgree(e)
    ensures CountsAgree(EntryNext(e, markers, transactions, step).0)
  {
  }

  // ---------------------------------------------------------------- all rows

  ghost predicate MarkersOwned(s: Delivery) {
    && (forall id :: id in s.entries ==> EntryInv(s.entries[id], s.markers, s.transactions))
    && (forall a, b | a in s.entries && b in s.entries && Accounts(s.entries[a]) && Accounts(s.entries[b]) ::
          s.entries[a].row.event == s.entries[b].row.event ==> a == b)
    && (forall e :: e in s.markers ==> exists id :: id in s.entries && Accounts(s.entries[id]) && s.entries[id].row.event == e)
  }

  ghost predicate SomeoneComing(s: Delivery, e: EventId) {
    exists w :: w in s.entries && s.entries[w].row.event == e && StillComing(s.entries[w], s.transactions)
  }

  ghost predicate NothingLost(s: Delivery) {
    forall id :: id in s.entries && Discarded(s.entries[id]) ==>
                   s.entries[id].row.event in s.markers || SomeoneComing(s, s.entries[id].row.event)
  }

  ghost predicate DeliveryInv(s: Delivery) {
    MarkersOwned(s) && NothingLost(s)
  }

  lemma RowStepKeepsMarkersOwned(s: Delivery, id: RowId, e': Entry, markers': set<EventId>)
    requires MarkersOwned(s) && id in s.entries
    requires RowStepFacts(s.entries[id], s.markers, s.transactions, e', markers')
    ensures MarkersOwned(Delivery(s.entries[id := e'], markers', s.transactions))
  {
    var s' := Delivery(s.entries[id := e'], markers', s.transactions);
    var event := e'.row.event;
    forall r | r in s'.entries ensures EntryInv(s'.entries[r], s'.markers, s'.transactions) {
      if r != id {
        assert EntryInv(s.entries[r], s.markers, s.transactions);
      }
    }
    forall a, b | a in s'.entries && b in s'.entries && Accounts(s'.entries[a]) && Accounts(s'.entries[b])
                  && s'.entries[a].row.event == s'.entries[b].row.event ensures a == b
    {
      if a != id { assert EntryInv(s.entries[a], s.markers, s.transactions); }
      if b != id { assert EntryInv(s.entries[b], s.markers, s.transactions); }
    }
    forall f | f in markers' ensures exists r :: r in s'.entries && Accounts(s'.entries[r]) && s'.entries[r].row.event == f {
      if f in s.markers {
        var r :| r in s.entries && Accounts(s.entries[r]) && s.entries[r].row.event == f;
        assert r in s'.entries && Accounts(s'.entries[r]) && s'.entries[r].row.event == f;
      } else {
        assert id in s'.entries && Accounts(s'.entries[id]);
      }
    }
  }

  lemma RowStepKeepsNothingLost(s: Delivery, id: RowId, e': Entry, markers': set<EventId>)
    requires NothingLost(s) && id in s.entries
    requires RowStepFacts(s.entries[id], s.markers, s.transactions, e', markers')
    ensures NothingLost(Delivery(s.entries[id := e'], markers', s.transactions))
  {
    var s' := Delivery(s.entries[id := e'], markers', s.transactions);
    forall r | r in s'.entries && Discarded(s'.entries[r]) && s'.entries[r].row.event !in markers'
      ensures SomeoneComing(s', s'.entries[r].row.event)
    {
      var event := s'.entries[r].row.event;
      if event in s.markers {
        assert StillComing(s'.entries[id], s'.transactions) && s'.entries[id].row.event == event;
      } else {
        assert Discarded(s.entries[r]);
        var w :| w in s.entries && s.entries[w].row.event == event && StillComing(s.entries[w], s.transactions);
        assert StillComing(s'.entries[w], s'.transactions) && s'.entries[w].row.event == event;
      }
    }
  }

  lemma ArrivalKeepsInv(s: Delivery, step: DeliveryStep)
    requires DeliveryInv(s) && (step.Arrive? || step.StoreTransaction?)
    ensures DeliveryInv(DeliveryNext(s, step))
  {
    var s' := DeliveryNext(s, step);
    forall f | f in s'.markers ensures exists r :: r in s'.entries && Accounts(s'.entries[r]) && s'.entries[r].row.event == f {
      var r :| r in s.entries && Accounts(s.entries[r]) && s.entries[r].row.event == f;
      assert r in s'.entries && s'.entries[r] == s.entries[r];
    }
    forall r | r in s'.entries && Discarded(s'.entries[r]) && s'.entries[r].row.event !in s'.markers
      ensures SomeoneComing(s', s'.entries[r].row.event)
    {
      assert r in s.entries && s'.entries[r] == s.entries[r];
      var w :| w in s.entries && s.entries[w].row.event == s.entries[r].row.event && StillComing(s.entries[w], s.transactions);
      assert w in s'.entries && s'.entries[w] == s.entries[w] && StillComing(s'.entries[w], s'.transactions);
    }
  }

  lemma DeliveryStepKeepsInv(s: Delivery, step: DeliveryStep)
    requires DeliveryInv(s)
    ensures DeliveryInv(DeliveryNext(s, step))
  {
    match step
    case OnRow(id, rowStep) =>
      if id in s.entries {
        var (e', markers') := EntryNext(s.entries[id], s.markers, s.transactions, rowStep);
        RowStepKeeps(s.entries[id], s.markers, s.transactions, rowStep);
        RowStepKeepsMarkersOwned(s, id, e', markers');
        RowStepKeepsNothingLost(s, id, e', markers');
      }
    case _ => ArrivalKeepsInv(s, step);
  }

  lemma {:induction false} DeliveryInvAlways(steps: seq<DeliveryStep>)
    ensures DeliveryInv(DeliveryRun(NO_DELIVERIES, steps))
    decreases |steps|
  {
    if steps != [] {
      DeliveryInvAlways(steps[..|steps| - 1]);
      DeliveryStepKeepsInv(DeliveryRun(NO_DELIVERIES, steps[..|steps| - 1]), steps[|steps| - 1]);
    }
  }

  // ---------------------------------------------------------------- theorems

  // No webhook is applied twice: at most one row of an event ever finishes as its owner.
  lemma AppliedAtMostOnce(steps: seq<DeliveryStep>, a: RowId, b: RowId)
    requires var s := DeliveryRun(NO_DELIVERIES, steps);
             && a in s.entries && b in s.entries && s.entries[a].row.event == s.entries[b].row.event
             && s.entries[a].ending == Some(Owner) && s.entries[b].ending == Some(Owner)
    ensures a == b
  {
    DeliveryInvAlways(steps);
  }

  // A marker disappears only through the attempt that inserted it, and that attempt is then the
  // only one that holds or finished with it.
  lemma OnlyTheClaimantReleases(steps: seq<DeliveryStep>, step: DeliveryStep, e: EventId)
    requires var s := DeliveryRun(NO_DELIVERIES, steps);
             e in s.markers && e !in DeliveryNext(s, step).markers
    ensures var s := DeliveryRun(NO_DELIVERIES, steps);
            && step.OnRow? && step.step.Release? && step.id in s.entries
            && s.entries[step.id].row.event == e && s.entries[step.id].attempt == Some(Releasing(true))
            && (forall other :: other in s.entries && s.entries[other].row.event == e && Accounts(s.entries[other]) ==> other == step.id)
  {
    DeliveryInvAlways(steps);
    var s := DeliveryRun(NO_DELIVERIES, steps);
    assert step.OnRow? && step.id in s.entries;
    OnlyReleaseRemoves(s.entries[step.id], s.markers, s.transactions, step.step, e);
    SoleAccount(s, step.id);
  }

  lemma OnlyReleaseRemoves(entry: Entry, markers: set<EventId>, transactions: set<TxnId>, step: RowStep, e: EventId)
    requires e in markers && e !in EntryNext(entry, markers, transactions, step).1
    ensures step.Release? && entry.row.event == e && entry.attempt == Some(Releasing(true))
  {
  }

  lemma SoleAccount(s: Delivery, id: RowId)
    requires MarkersOwned(s) && id in s.entries && Accounts(s.entries[id])
    ensures forall other :: other in s.entries && s.entries[other].row.event == s.entries[id].row.event && Accounts(s.entries[other])
                            ==> other == id
  {
  }

  // No webhook is lost: if a row was completed as a duplicate, its event's marker is there, or
  // another row of the event that finds its transaction is still unfinished.
  lemma DuplicatesAreCovered(steps: seq<DeliveryStep>, id: RowId)
    requires var s := DeliveryRun(NO_DELIVERIES, steps);
             id in s.entries && s.entries[id].ending == Some(Duplicate)
    ensures var s := DeliveryRun(NO_DELIVERIES, steps);
            var event := s.entries[id].row.event;
            || event in s.markers
            || exists w :: w != id && w in s.entries && s.entries[w].row.event == event
                           && s.entries[w].row.status != Completed && Resolvable(s.entries[w].row.txn, s.transactions)
  {
    DeliveryInvAlways(steps);
    var s := DeliveryRun(NO_DELIVERIES, steps);
    assert EntryInv(s.entries[id], s.markers, s.transactions);
    if s.entries[id].row.event !in s.markers {
      var w :| w in s.entries && s.entries[w].row.event == s.entries[id].row.event && StillComing(s.entries[w], s.transactions);
    }
  }

  // How a row ended is final.
  lemma EndingsAreFinal(steps: seq<DeliveryStep>, step: DeliveryStep, id: RowId)
    requires var s := DeliveryRun(NO_DELIVERIES, steps);
             id in s.entries && s.entries[id].ending.Some?
    ensures var s := DeliveryRun(NO_DELIVERIES, steps);
            id in DeliveryNext(s, step).entries && DeliveryNext(s, step).entries[id] == s.entries[id]
  {
    DeliveryInvAlways(steps);
    var s := DeliveryRun(NO_DELIVERIES, steps);
    if step.OnRow? && step.id == id {
      RowStepKeeps(s.entries[id], s.markers, s.transactions, step.step);
    }
  }

  // PENDING rows have failed 0 times, FAILED ones 1 or 2, DLQ ones 3; and over any run, whatever
  // fails, a row is attempted at most three times per enqueue or replay.
  lemma {:induction false} RetriesAreBounded(steps: seq<DeliveryStep>, id: RowId)
    requires id in DeliveryRun(NO_DELIVERIES, steps).entries
    ensures var e := DeliveryRun(NO_DELIVERIES, steps).entries[id];
            CountsAgree(e) && e.takes <= 3 * e.grants
    decreases |steps|
  {
    if steps != [] {
      var s, last := DeliveryRun(NO_DELIVERIES, steps[..|steps| - 1]), steps[|steps| - 1];
      DeliveryInvAlways(steps[..|steps| - 1]);
      if id in s.entries {
        RetriesAreBounded(steps[..|steps| - 1], id);
        if last.OnRow? && last.id == id {
          RowStepKeepsCounts(s.entries[id], s.markers, s.transactions, last.step);
        }
      }
    }
  }

  // A failure below the limit keeps the row from being taken for 2^count seconds; at the limit
  // it is not taken again until it is replayed.
  lemma FailurePostpones(e: Entry, markers: set<EventId>, transactions: set<TxnId>, now: int, later: int)
    requires EntryInv(e, markers, transactions) && CountsAgree(e) && e.attempt == Some(Rescheduling)
    ensures var failed := EntryNext(e, markers, transactions, Reschedule(now)).0;
            var count := failed.row.retryCount;
            && count == e.row.retryCount + 1 && 1 <= count <= 3
            && (EntryNext(failed, markers, transactions, Take(later)).0.takes == failed.takes + 1
                <==> count < 3 && later >= now + BackoffMs(count))
  {
  }

  // ---------------------------------------------------------------- machine and method agree

  function StepsOf(known: bool, work: Work, now: int): seq<RowStep> {
    if work == Succeeds then
      if known then [Take(now), Resolve, Claim, Finish] else [Take(now), Resolve]
    else if work == ThrowsBeforeClaim || !known then [Take(now), Throw, Release, Reschedule(now)]
    else [Take(now), Resolve, Claim, Throw, Release, Reschedule(now)]
  }

  function RowForward(e: Entry, markers: set<EventId>, transactions: set<TxnId>, steps: seq<RowStep>): (Entry, set<EventId>)
    decreases |steps|
  {
    if steps == [] then (e, markers)
    else
      var (e1, markers1) := EntryNext(e, markers, transactions, steps[0]);
      RowForward(e1, markers1, transactions, steps[1..])
  }

  // The steps of an attempt run without interference leave what ProcessOne leaves.
  ghost predicate AttemptAgrees(e: Entry, p: Pipeline, id: RowId, transactions: set<TxnId>, work: Work, now: int)
    requires id in p.rows
  {
    var (e', markers') := RowForward(e, p.markers, transactions, StepsOf(Resolvable(e.row.txn, transactions), work, now));
    && Pipeline(p.rows[id := e'.row], markers') == Processed(p, id, transactions, work, now)
    && e'.attempt.None? && e'.takes == e.takes + 1
  }

  lemma UninterruptedAttempt(e: Entry, p: Pipeline, id: RowId, transactions: set<TxnId>, work: Work, now: int)
    requires id in p.rows && p.rows[id] == e.row && e.attempt.None? && IsDue(e.row, now)
    ensures AttemptAgrees(e, p, id, transactions, work, now)
  {
    if work == Succeeds {
      UninterruptedSuccess(e, p, id, transactions, now);
    } else if |StepsOf(Resolvable(e.row.txn, transactions), work, now)| == 4 {
      RowForwardFour(e, p.markers, transactions, StepsOf(Resolvable(e.row.txn, transactions), work, now));
    } else {
      UninterruptedLateThrow(e, p, id, transactions, now);
    }
  }

  lemma UninterruptedSuccess(e: Entry, p: Pipeline, id: RowId, transactions: set<TxnId>, now: int)
    requires id in p.rows && p.rows[id] == e.row && e.attempt.None? && IsDue(e.row, now)
    ensures AttemptAgrees(e, p, id, transactions, Succeeds, now)
  {
    if Resolvable(e.row.txn, transactions) {
      RowForwardFour(e, p.markers, transactions, [Take(now), Resolve, Claim, Finish]);
    } else {
      RowForwardTwo(e, p.markers, transactions, [Take(now), Resolve]);
    }
  }

  lemma UninterruptedLateThrow(e: Entry, p: Pipeline, id: RowId, transactions: set<TxnId>, now: int)
    requires id in p.rows && p.rows[id] == e.row && e.attempt.None? && IsDue(e.row, now)
    requires Resolvable(e.row.txn, transactions)
    ensures AttemptAgrees(e, p, id, transactions, ThrowsAfterClaim, now)
  {
    var m := p.markers;
    var steps := StepsOf(true, ThrowsAfterClaim, now);
    var (e1, m1) := EntryNext(e, m, transactions, Take(now));
    var (e2, m2) := EntryNext(e1, m1, transactions, Resolve);
    RowForwardTwo(e, m, transactions, steps);
    RowForwardFour(e2, m2, transactions, steps[2..]);
    assert m + {e.row.event} - {e.row.event} == m || e.row.event in m;
  }

  lemma RowForwardFour(e: Entry, markers: set<EventId>, transactions: set<TxnId>, steps: seq<RowStep>)
    requires |steps| == 4
    ensures var (e1, m1) := EntryNext(e, markers, transactions, steps[0]);
            var (e2, m2) := EntryNext(e1, m1, transactions, steps[1]);
            var (e3, m3) := EntryNext(e2, m2, transactions, steps[2]);
            RowForward(e, markers, transactions, steps) == EntryNext(e3, m3, transactions, steps[3])
  {
    var (e1, m1) := EntryNext(e, markers, transactions, steps[0]);
    var (e2, m2) := EntryNext(e1, m1, transactions, steps[1]);
    RowForwardTwo(e, markers, transactions, steps);
    RowForwardTwo(e2, m2, transactions, steps[2..]);
    assert steps[2..][2..] == [];
  }

  lemma RowForwardTwo(e: Entry, markers: set<EventId>, transactions: set<TxnId>, steps: seq<RowStep>)
    requires |steps| >= 2
    ensures var (e1, m1) := EntryNext(e, markers, transactions, steps[0]);
            var (e2, m2) := EntryNext(e1, m1, transactions, steps[1]);
            RowForward(e, markers, transactions, steps) == RowForward(e2, m2, transactions, steps[2..])
  {
    assert steps[1..][1..] == steps[2..];
  }
}
