// The reconciliation batch: polls the gateway about every stale transaction and applies or
// flags what it reports.
module Reconciliation {
  import opened Wrappers
  import opened StateGraph
  import opened TransactionStore

  // A transaction as the batch read it; by the time it is processed the row may have moved on.
  datatype StaleTransaction = StaleTransaction(id: TxnId, row: Row)

  datatype Poll = Unreachable | Reported(status: GatewayStatus)

  datatype Discrepancy = InternalCapturedGatewayFailed | InternalPendingGatewaySucceeded | StatusMismatch

  datatype Finding = Finding(
    txn: TxnId,
    discrepancy: Discrepancy,
    internalState: State,
    gatewayState: GatewayStatus,
    requiresReview: bool,
    resolved: bool)

  // GATEWAY_STATUS_MAP
  function GatewayMappedState(status: GatewayStatus): State {
    match status
    case StatusAuthorised => Authorised
    case StatusCaptured => Captured
    case StatusFailed => Failed
    case StatusRefunded => Refunded
    case StatusExpired => AuthExpired
  }

  const CAPTURED_STATES: set<State> := {Captured, PartiallyCaptured, Settled}

  function ClassifyDiscrepancy(internal: State, status: GatewayStatus): Discrepancy {
    if internal in CAPTURED_STATES && status in {StatusFailed, StatusExpired} then InternalCapturedGatewayFailed
    else if internal in {AuthInitiated, CaptureInitiated} && status == StatusCaptured then InternalPendingGatewaySucceeded
    else StatusMismatch
  }

  // ---------------------------------------------------------------- specification

  // One transaction: the tables afterwards and the log entry, if any.
  function Reconciled(t: Tables, s: StaleTransaction, poll: Poll): (Tables, Option<Finding>) {
    if s.row.gateway.None? || s.row.gatewayReference.None? || poll.Unreachable? then (t, None)
    else
      var mapped := GatewayMappedState(poll.status);
      var kind := ClassifyDiscrepancy(s.row.state, poll.status);
      if s.row.state == mapped then (t, None)
      else if kind.InternalCapturedGatewayFailed? then
        (t, Some(Finding(s.id, kind, s.row.state, poll.status, true, false)))
      else if CanTransition(s.row.state, mapped) && Transitioned(t, s.id, mapped, None).Ok? then
        (Transitioned(t, s.id, mapped, None).value, Some(Finding(s.id, kind, s.row.state, poll.status, false, true)))
      else (t, Some(Finding(s.id, kind, s.row.state, poll.status, true, false)))
  }

  function Listed(f: Option<Finding>): seq<Finding> {
    if f.Some? then [f.value] else []
  }

  // The whole batch.
  function ReconciledAll(t: Tables, stale: seq<StaleTransaction>, answers: TxnId -> Poll): (Tables, seq<Finding>) {
    if stale == [] then (t, [])
    else
      var (t1, found) := ReconciledAll(t, stale[..|stale| - 1], answers);
      var last := stale[|stale| - 1];
      var (t2, f) := Reconciled(t1, last, answers(last.id));
      (t2, found + Listed(f))
  }

  // The batch with other actors at work: `others[i]` is what they do to the tables between the
  // batch's step on its i-th transaction and the one before.
  function ReconciledAmid(t: Tables, stale: seq<StaleTransaction>, answers: TxnId -> Poll, others: seq<seq<Action>>): (Tables, seq<Finding>)
    requires |others| == |stale|
  {
    if stale == [] then (t, [])
    else
      var n := |stale| - 1;
      var (t1, found) := ReconciledAmid(t, stale[..n], answers, others[..n]);
      var (t2, f) := Reconciled(TransactionStore.Run(t1, others[n]), stale[n], answers(stale[n].id));
      (t2, found + Listed(f))
  }

  // The undisturbed batch is the case in which nobody else does anything.
  lemma {:induction false} UndisturbedBatch(t: Tables, stale: seq<StaleTransaction>, answers: TxnId -> Poll, others: seq<seq<Action>>)
    requires |others| == |stale| && forall i :: 0 <= i < |others| ==> others[i] == []
    ensures ReconciledAmid(t, stale, answers, others) == ReconciledAll(t, stale, answers)
    decreases |stale|
  {
    if stale != [] {
      UndisturbedBatch(t, stale[..|stale| - 1], answers, others[..|stale| - 1]);
    }
  }

  lemma AmidNext(t: Tables, stale: seq<StaleTransaction>, i: nat, answers: TxnId -> Poll, others: seq<seq<Action>>)
    requires |others| == |stale| && i < |stale|
    ensures var (t1, found) := ReconciledAmid(t, stale[..i], answers, others[..i]);
            var (t2, f) := Reconciled(TransactionStore.Run(t1, others[i]), stale[i], answers(stale[i].id));
            ReconciledAmid(t, stale[..i + 1], answers, others[..i + 1]) == (t2, if f.Some? then found + [f.value] else found)
  {
    assert stale[..i + 1][..i] == stale[..i] && others[..i + 1][..i] == others[..i];
    var found := ReconciledAmid(t, stale[..i], answers, others[..i]).1;
    assert found + [] == found;
  }

  function Reviews(found: seq<Finding>): nat {
    if found == [] then 0
    else Reviews(found[..|found| - 1]) + if found[|found| - 1].requiresReview then 1 else 0
  }

  // The count is that of the findings it says it counts.
  lemma {:induction false} ReviewsCount(found: seq<Finding>)
    ensures Reviews(found) == |set i | 0 <= i < |found| && found[i].requiresReview|
    decreases |found|
  {
    if found != [] {
      var n := |found| - 1;
      var earlier := set i | 0 <= i < n && found[..n][i].requiresReview;
      ReviewsCount(found[..n]);
      assert (set i | 0 <= i < |found| && found[i].requiresReview) == earlier + (if found[n].requiresReview then {n} else {});
    }
  }

  lemma ReviewsAppend(found: seq<Finding>, f: Finding)
    ensures Reviews(found + [f]) == Reviews(found) + if f.requiresReview then 1 else 0
  {
    assert (found + [f])[..|found|] == found;
  }

  // ---------------------------------------------------------------- the service

  datatype RunResult = RunResult(totalChecked: nat, discrepanciesFound: nat, autoResolved: nat, requiresReview: nat)

  class ReconciliationService {
    const stateMachine: TransactionStateMachine
    var reconciliationLog: seq<Finding>

    constructor (stateMachine: TransactionStateMachine)
      ensures this.stateMachine == stateMachine && reconciliationLog == []
    {
      this.stateMachine := stateMachine;
      this.reconciliationLog := [];
    }

    method ReconcileOne(transaction: StaleTransaction, poll: Poll) returns (r: Option<Finding>)
      modifies stateMachine
      ensures (stateMachine.Contents(), r) == Reconciled(old(stateMachine.Contents()), transaction, poll)
      ensures reconciliationLog == old(reconciliationLog)
      ensures r.Some? ==> poll.Reported? && TellsOf(r.value, transaction, poll.status)
      ensures r.Some? && r.value.resolved ==>
                && transaction.id in stateMachine.rows
                && stateMachine.rows[transaction.id].state == (match poll.status
                                                               case StatusAuthorised => Authorised
                                                               case StatusCaptured => Captured
                                                               case StatusFailed => Failed
                                                               case StatusRefunded => Refunded
                                                               case StatusExpired => AuthExpired)
      ensures r.None? || !r.value.resolved ==> stateMachine.Contents() == old(stateMachine.Contents())
    {
      ReconciledTells(stateMachine.Contents(), transaction, poll);
      if transaction.row.gateway.None? || transaction.row.gatewayReference.None? {
        return None;
      }
      if poll.Unreachable? {
        return None;
      }
      var internalState := transaction.row.state;
      var gatewayMappedState := GatewayMappedState(poll.status);
      if internalState == gatewayMappedState {
        return None;
      }
      var discrepancy := ClassifyDiscrepancy(internalState, poll.status);
      if discrepancy.InternalCapturedGatewayFailed? {
        return Some(Finding(transaction.id, discrepancy, internalState, poll.status, true, false));
      }
      if CanTransition(internalState, gatewayMappedState) {
        var moved := stateMachine.Transition(transaction.id, gatewayMappedState, None);
        if moved.Ok? {
          return Some(Finding(transaction.id, discrepancy, internalState, poll.status, false, true));
        }
      }
      return Some(Finding(transaction.id, discrepancy, internalState, poll.status, true, false));
    }

    // The other actors' turn.
    method Others(actions: seq<Action>)
      modifies stateMachine
      ensures stateMachine.Contents() == TransactionStore.Run(old(stateMachine.Contents()), actions)
    {
      var i := 0;
      while i < |actions|
        invariant 0 <= i <= |actions|
        invariant stateMachine.Contents() == TransactionStore.Run(old(stateMachine.Contents()), actions[..i])
      {
        assert actions[..i + 1][..i] == actions[..i];
        var t := Step(Tables(stateMachine.rows, stateMachine.log), actions[i]);
        stateMachine.rows, stateMachine.log := t.rows, t.log;
        i := i + 1;
      }
      assert actions[..i] == actions;
    }

    method ReconcileNext(actions: seq<Action>, transaction: StaleTransaction, poll: Poll) returns (r: Option<Finding>)
      modifies stateMachine
      ensures (stateMachine.Contents(), r) == Reconciled(TransactionStore.Run(old(stateMachine.Contents()), actions), transaction, poll)
      ensures reconciliationLog == old(reconciliationLog)
    {
      Others(actions);
      r := ReconcileOne(transaction, poll);
    }

    // run() over an already fetched list; `answers` is what each gateway poll returns.
    method Run(staleTransactions: seq<StaleTransaction>, answers: TxnId -> Poll, others: seq<seq<Action>>) returns (r: RunResult)
      requires |others| == |staleTransactions|
      modifies this, stateMachine
      ensures stateMachine.Contents() == ReconciledAmid(old(stateMachine.Contents()), staleTransactions, answers, others).0
      ensures reconciliationLog
           == old(reconciliationLog) + ReconciledAmid(old(stateMachine.Contents()), staleTransactions, answers, others).1
      ensures r.totalChecked == |staleTransactions|
      ensures r.discrepanciesFound == |reconciliationLog| - |old(reconciliationLog)|
      ensures r.discrepanciesFound == r.autoResolved + r.requiresReview <= r.totalChecked
      ensures r.requiresReview == Reviews(ReconciledAmid(old(stateMachine.Contents()), staleTransactions, answers, others).1)
    {
      var logEntries, autoResolved, requiresReview := ReconcileEach(staleTransactions, answers, others);
      if |logEntries| > 0 {
        reconciliationLog := reconciliationLog + logEntries;
      }
      r := RunResult(|staleTransactions|, |logEntries|, autoResolved, requiresReview);
    }

    // The loop over the list.
    method ReconcileEach(staleTransactions: seq<StaleTransaction>, answers: TxnId -> Poll, others: seq<seq<Action>>)
      returns (logEntries: seq<Finding>, autoResolved: nat, requiresReview: nat)
      requires |others| == |staleTransactions|
      modifies stateMachine
      ensures reconciliationLog == old(reconciliationLog)
      ensures (stateMachine.Contents(), logEntries) == ReconciledAmid(old(stateMachine.Contents()), staleTransactions, answers, others)
      ensures |logEntries| == autoResolved + requiresReview <= |staleTransactions|
      ensures requiresReview == Reviews(logEntries)
    {
      logEntries, autoResolved, requiresReview := [], 0, 0;
      var i := 0;
      while i < |staleTransactions|
        invariant 0 <= i <= |staleTransactions|
        invariant (stateMachine.Contents(), logEntries)
               == ReconciledAmid(old(stateMachine.Contents()), staleTransactions[..i], answers, others[..i])
        invariant reconciliationLog == old(reconciliationLog)
        invariant |logEntries| == autoResolved + requiresReview <= i
        invariant requiresReview == Reviews(logEntries)
      {
        AmidNext(old(stateMachine.Contents()), staleTransactions, i, answers, others);
        var result := ReconcileNext(others[i], staleTransactions[i], answers(staleTransactions[i].id));
        if result.Some? {
          ReviewsAppend(logEntries, result.value);
          logEntries := logEntries + [result.value];
          if result.value.requiresReview {
            requiresReview := requiresReview + 1;
          } else {
            autoResolved := autoResolved + 1;
          }
        }
        i := i + 1;
      }
      assert staleTransactions[..i] == staleTransactions && others[..i] == others;
    }
  }

  // ---------------------------------------------------------------- one transaction

  // Whatever stale read it started from: a resolved transaction now stands in the gateway's
  // state, outside the reconcilable states, and got there by a map edge logged by this step or
  // was already there; anything else leaves the tables alone.
  lemma ResolvedOrUntouched(t: Tables, s: StaleTransaction, poll: Poll)
    requires s.id in t.rows
    ensures var (t', f) := Reconciled(t, s, poll);
            && (f.Some? ==> f.value.txn == s.id && f.value.resolved == !f.value.requiresReview
                            && poll == Reported(f.value.gatewayState))
            && (f.Some? && f.value.resolved ==>
                  var target := GatewayMappedState(f.value.gatewayState);
                  && s.id in t'.rows && t'.rows[s.id].state == target && target !in RECONCILABLE_STATES
                  && CanTransition(s.row.state, target)
                  && (if t.rows[s.id].state == target then t' == t
                      else CanTransition(t.rows[s.id].state, target)
                           && t'.log == t.log + [LogEntry(s.id, Edge(t.rows[s.id].state, target))]))
            && (f.None? || !f.value.resolved ==> t' == t)
  {
  }

  // What a finding records of the transaction and the answer it is about.
  ghost predicate TellsOf(f: Finding, s: StaleTransaction, status: GatewayStatus) {
    && f.txn == s.id && f.internalState == s.row.state && f.gatewayState == status && f.resolved == !f.requiresReview
    && (f.discrepancy == InternalCapturedGatewayFailed <==>
          s.row.state in {Captured, PartiallyCaptured, Settled} && status in {StatusFailed, StatusExpired})
    && (f.discrepancy == InternalPendingGatewaySucceeded <==> s.row.state in {AuthInitiated, CaptureInitiated} && status == StatusCaptured)
  }

  lemma ReconciledTells(t: Tables, s: StaleTransaction, poll: Poll)
    ensures var (t', f) := Reconciled(t, s, poll);
            && (f.Some? ==> poll.Reported? && TellsOf(f.value, s, poll.status))
            && (f.Some? && f.value.resolved ==>
                  && s.id in t'.rows
                  && t'.rows[s.id].state == (match poll.status
                                             case StatusAuthorised => Authorised
                                             case StatusCaptured => Captured
                                             case StatusFailed => Failed
                                             case StatusRefunded => Refunded
                                             case StatusExpired => AuthExpired))
            && (f.None? || !f.value.resolved ==> t' == t)
  {
  }

  // For any stale row that has been sent to a gateway, the gateway's answer agrees with what is
  // stored in exactly these five pairs; in all others there is a finding.
  lemma AgreeingAnswers(t: Tables, s: StaleTransaction, status: GatewayStatus)
    requires s.row.gateway.Some? && s.row.gatewayReference.Some?
    ensures Reconciled(t, s, Reported(status)).1.None? <==>
            (s.row.state, status) in {(Authorised, StatusAuthorised), (Captured, StatusCaptured), (Failed, StatusFailed),
                                      (Refunded, StatusRefunded), (AuthExpired, StatusExpired)}
  {
  }

  // Of the 20 pairs of reconcilable state and gateway answer, exactly these four are resolved, each
  // into the state it is listed with; the other 16 leave the row as it is.
  lemma AutoResolvableCases(t: Tables, s: StaleTransaction, status: GatewayStatus)
    requires s.id in t.rows && t.rows[s.id] == s.row && s.row.state in {AuthInitiated, CaptureInitiated, RefundInitiated, VoidInitiated}
    requires s.row.gateway.Some? && s.row.gatewayReference.Some?
    ensures var (t', f) := Reconciled(t, s, Reported(status));
            && f.Some? && s.id in t'.rows
            && (f.value.resolved <==>
                  (s.row.state, status, t'.rows[s.id].state) in {(AuthInitiated, StatusAuthorised, Authorised),
                                                                 (AuthInitiated, StatusExpired, AuthExpired),
                                                                 (CaptureInitiated, StatusCaptured, Captured),
                                                                 (RefundInitiated, StatusRefunded, Refunded)})
            && (f.value.resolved <==>
                  (s.row.state, status) in {(AuthInitiated, StatusAuthorised), (AuthInitiated, StatusExpired),
                                            (CaptureInitiated, StatusCaptured), (RefundInitiated, StatusRefunded)})
            && (!f.value.resolved ==> t' == t)
  {
    match s.row.state case _ =>
  }

  // reconcileOne raises the critical anomaly exactly for a captured payment the gateway calls
  // failed or expired ...
  lemma CriticalAnomalyExactly(t: Tables, s: StaleTransaction, poll: Poll)
    ensures var f := Reconciled(t, s, poll).1;
            (f.Some? && f.value.discrepancy.InternalCapturedGatewayFailed?) <==>
            (s.row.gateway.Some? && s.row.gatewayReference.Some? && s.row.state in CAPTURED_STATES
             && poll in {Reported(StatusFailed), Reported(StatusExpired)})
  {
    assert forall status :: GatewayMappedState(status) in CAPTURED_STATES ==> status == StatusCaptured;
  }

  // ---------------------------------------------------------------- the batch amid other actors

  // What a finding says about the transaction it is for and the log at the end of the batch.
  ghost predicate Accounted(f: Finding, stale: seq<StaleTransaction>, answers: TxnId -> Poll, log: seq<LogEntry>) {
    && f.resolved == !f.requiresReview
    && answers(f.txn) == Reported(f.gatewayState)
    && (exists i :: 0 <= i < |stale| && stale[i].id == f.txn && stale[i].row.state == f.internalState)
    && (f.resolved ==> CanTransition(f.internalState, GatewayMappedState(f.gatewayState)) && HasEntered(log, f.txn, GatewayMappedState(f.gatewayState)))
  }

  ghost predicate HasEntered(log: seq<LogEntry>, id: TxnId, to: State) {
    exists i :: 0 <= i < |log| && log[i].txn == id && log[i].edge.to == to
  }

  lemma EnteredStays(log: seq<LogEntry>, longer: seq<LogEntry>, id: TxnId, to: State)
    requires HasEntered(log, id, to) && log <= longer
    ensures HasEntered(longer, id, to)
  {
    var i :| 0 <= i < |log| && log[i].txn == id && log[i].edge.to == to;
    assert longer[i] == log[i];
  }

  lemma {:induction false} RunKeepsConsistent(t: Tables, actions: seq<Action>)
    requires Consistent(t)
    ensures Consistent(TransactionStore.Run(t, actions))
    decreases |actions|
  {
    if actions != [] {
      RunKeepsConsistent(t, actions[..|actions| - 1]);
      StepKeepsConsistent(TransactionStore.Run(t, actions[..|actions| - 1]), actions[|actions| - 1]);
    }
  }

  // A transaction in any state but the first has an entry into it.
  lemma {:induction false} StateWasEntered(log: seq<LogEntry>, id: TxnId, current: State)
    requires WellFormed(LogOf(log, id), current) && current != Created
    ensures HasEntered(log, id, current)
    decreases |log|
  {
    if log != [] {
      var init, last := log[..|log| - 1], log[|log| - 1];
      if last.txn == id {
        assert LogOf(log, id) == LogOf(init, id) + [last.edge];
        assert log[|log| - 1].edge.to == current;
      } else {
        StateWasEntered(init, id, current);
        EnteredStays(init, log, id, current);
      }
    }
  }

  // The batch's step on one transaction, whatever stale read it has and whatever came before.
  lemma ReconciledIsAccounted(t: Tables, s: StaleTransaction, answers: TxnId -> Poll)
    requires Consistent(t) && s.id in t.rows
    ensures var (t', f) := Reconciled(t, s, answers(s.id));
            && Consistent(t') && t.log <= t'.log && t.rows.Keys <= t'.rows.Keys
            && (f.Some? ==> Accounted(f.value, [s], answers, t'.log))
  {
    var (t', f) := Reconciled(t, s, answers(s.id));
    ResolvedOrUntouched(t, s, answers(s.id));
    if f.Some? {
      assert [s][0].id == f.value.txn && [s][0].row.state == f.value.internalState;
      if f.value.resolved {
        var target := GatewayMappedState(f.value.gatewayState);
        MoveKeepsConsistent(t, s.id, target, None);
        StateWasEntered(t'.log, s.id, target);
      }
    }
  }

  lemma AccountedStays(f: Finding, stale: seq<StaleTransaction>, longer: seq<StaleTransaction>, answers: TxnId -> Poll,
                       log: seq<LogEntry>, log': seq<LogEntry>)
    requires Accounted(f, stale, answers, log) && log <= log' && forall s :: s in stale ==> s in longer
    ensures Accounted(f, longer, answers, log')
  {
    var i :| 0 <= i < |stale| && stale[i].id == f.txn && stale[i].row.state == f.internalState;
    assert stale[i] in longer;
    var k :| 0 <= k < |longer| && longer[k] == stale[i];
    if f.resolved { EnteredStays(log, log', f.txn, GatewayMappedState(f.gatewayState)); }
  }

  // Whatever other actors do between the batch's steps: the log stays consistent with the rows,
  // and every finding is about a listed transaction and the gateway's answer on it; one reported
  // as resolved has entered the gateway's state, on its own log, by the end of the batch.
  lemma {:induction false} BatchAmidOthers(t: Tables, stale: seq<StaleTransaction>, answers: TxnId -> Poll, others: seq<seq<Action>>)
    requires |others| == |stale| && Consistent(t) && forall i :: 0 <= i < |stale| ==> stale[i].id in t.rows
    ensures var (t', found) := ReconciledAmid(t, stale, answers, others);
            && Consistent(t') && t.log <= t'.log && t.rows.Keys <= t'.rows.Keys
            && |found| <= |stale|
            && (forall f :: f in found ==> Accounted(f, stale, answers, t'.log))
    decreases |stale|
  {
    if stale != [] {
      var n := |stale| - 1;
      BatchAmidOthers(t, stale[..n], answers, others[..n]);
      var (t1, found) := ReconciledAmid(t, stale[..n], answers, others[..n]);
      var t2 := TransactionStore.Run(t1, others[n]);
      RunKeepsConsistent(t1, others[n]);
      HistoryIsPermanent(t1, others[n]);
      ReconciledIsAccounted(t2, stale[n], answers);
      var (t', f) := Reconciled(t2, stale[n], answers(stale[n].id));
      AccountedAppend(found, f, stale, answers, t1.log, t'.log);
    }
  }

  lemma AccountedAppend(found: seq<Finding>, f: Option<Finding>, stale: seq<StaleTransaction>, answers: TxnId -> Poll,
                        log: seq<LogEntry>, log': seq<LogEntry>)
    requires stale != [] && log <= log'
    requires forall g :: g in found ==> Accounted(g, stale[..|stale| - 1], answers, log)
    requires f.Some? ==> Accounted(f.value, [stale[|stale| - 1]], answers, log')
    ensures forall g :: g in found + Listed(f) ==> Accounted(g, stale, answers, log')
  {
    forall g | g in found + Listed(f) ensures Accounted(g, stale, answers, log') {
      if g in found {
        AccountedStays(g, stale[..|stale| - 1], stale, answers, log, log');
      } else {
        AccountedStays(g, [stale[|stale| - 1]], stale, answers, log', log');
      }
    }
  }

  // ---------------------------------------------------------------- the batch query

  // findStaleTransactions(): the rows in a reconcilable state, old enough and with a gateway reference.
  ghost predicate IsStaleList(stale: seq<StaleTransaction>, t: Tables, aged: set<TxnId>) {
    && DistinctIds(stale)
    && (forall i :: 0 <= i < |stale| ==> Due(t, aged, stale[i].id) && stale[i].row == t.rows[stale[i].id])
    && (forall id :: Due(t, aged, id) ==> exists i :: 0 <= i < |stale| && stale[i].id == id)
  }

  predicate Due(t: Tables, aged: set<TxnId>, id: TxnId) {
    id in t.rows && id in aged && t.rows[id].state in RECONCILABLE_STATES && t.rows[id].gatewayReference.Some?
  }

  // The batch asks about exactly the transactions that wait for a gateway.
  lemma PolledStates(t: Tables, aged: set<TxnId>, id: TxnId)
    ensures Due(t, aged, id) <==>
            && id in t.rows && id in aged && t.rows[id].gatewayReference.Some?
            && t.rows[id].state in {AuthInitiated, CaptureInitiated, RefundInitiated, VoidInitiated}
  {
  }

  ghost predicate DistinctIds(stale: seq<StaleTransaction>) {
    forall i, j :: 0 <= i < j < |stale| ==> stale[i].id != stale[j].id
  }

  // ... and therefore never from the batch itself: no captured state is reconcilable, so the
  // query does not return the payments the anomaly is about.
  lemma {:induction false} BatchNeverFindsCriticalAnomaly(t: Tables, stale: seq<StaleTransaction>, answers: TxnId -> Poll)
    requires forall i :: 0 <= i < |stale| ==> stale[i].row.state in RECONCILABLE_STATES
    ensures forall f :: f in ReconciledAll(t, stale, answers).1 ==> !f.discrepancy.InternalCapturedGatewayFailed?
    decreases |stale|
  {
    if stale != [] {
      var init, last := stale[..|stale| - 1], stale[|stale| - 1];
      BatchNeverFindsCriticalAnomaly(t, init, answers);
      CriticalAnomalyExactly(ReconciledAll(t, init, answers).0, last, answers(last.id));
    }
  }

  // ---------------------------------------------------------------- the batch

  lemma OnlyOwnRow(t: Tables, s: StaleTransaction, poll: Poll, other: TxnId)
    requires other != s.id
    ensures other in Reconciled(t, s, poll).0.rows <==> other in t.rows
    ensures other in t.rows ==> Reconciled(t, s, poll).0.rows[other] == t.rows[other]
  {
  }

  // What happens to a transaction depends on its own row alone.
  lemma RowDecides(t: Tables, t': Tables, s: StaleTransaction, poll: Poll)
    requires s.id in t.rows && s.id in t'.rows && t.rows[s.id] == t'.rows[s.id]
    ensures Reconciled(t, s, poll).1 == Reconciled(t', s, poll).1
    ensures s.id in Reconciled(t, s, poll).0.rows && s.id in Reconciled(t', s, poll).0.rows
    ensures Reconciled(t, s, poll).0.rows[s.id] == Reconciled(t', s, poll).0.rows[s.id]
  {
  }

  lemma {:induction false} BatchLeavesOthers(t: Tables, stale: seq<StaleTransaction>, answers: TxnId -> Poll, other: TxnId)
    requires forall i :: 0 <= i < |stale| ==> stale[i].id != other
    ensures var t' := ReconciledAll(t, stale, answers).0;
            && (other in t'.rows <==> other in t.rows)
            && (other in t.rows ==> t'.rows[other] == t.rows[other])
    decreases |stale|
  {
    if stale != [] {
      var init, last := stale[..|stale| - 1], stale[|stale| - 1];
      BatchLeavesOthers(t, init, answers, other);
      OnlyOwnRow(ReconciledAll(t, init, answers).0, last, answers(last.id), other);
    }
  }

  // Each listed transaction ends, and is reported, as if it had been the only one, whatever the
  // stale rows in the list say.
  lemma {:induction false} BatchIsPointwise(t: Tables, stale: seq<StaleTransaction>, answers: TxnId -> Poll, i: nat)
    requires DistinctIds(stale) && i < |stale|
    requires forall k :: 0 <= k < |stale| ==> stale[k].id in t.rows
    ensures var (t', found) := ReconciledAll(t, stale, answers);
            var (t1, f) := Reconciled(t, stale[i], answers(stale[i].id));
            && stale[i].id in t'.rows && stale[i].id in t1.rows
            && t'.rows[stale[i].id] == t1.rows[stale[i].id]
            && (forall g :: g in found && g.txn == stale[i].id <==> f == Some(g))
    decreases |stale|
  {
    var init, last := stale[..|stale| - 1], stale[|stale| - 1];
    var t0 := ReconciledAll(t, init, answers).0;
    BatchReportsListed(t, init, answers);
    if i == |stale| - 1 {
      forall k | 0 <= k < |init| ensures init[k].id != last.id {}
      BatchLeavesOthers(t, init, answers, last.id);
      RowDecides(t, t0, last, answers(last.id));
    } else {
      BatchIsPointwise(t, init, answers, i);
      OnlyOwnRow(t0, last, answers(last.id), stale[i].id);
    }
  }

  lemma {:induction false} BatchReportsListed(t: Tables, stale: seq<StaleTransaction>, answers: TxnId -> Poll)
    ensures forall g :: g in ReconciledAll(t, stale, answers).1 ==> exists k :: 0 <= k < |stale| && stale[k].id == g.txn
    decreases |stale|
  {
    if stale != [] {
      var init, last := stale[..|stale| - 1], stale[|stale| - 1];
      BatchReportsListed(t, init, answers);
      forall g | g in ReconciledAll(t, stale, answers).1
        ensures exists k :: 0 <= k < |stale| && stale[k].id == g.txn
      {
        if g in ReconciledAll(t, init, answers).1 {
          var k :| 0 <= k < |init| && init[k].id == g.txn;
          assert stale[k].id == g.txn;
        } else {
          assert stale[|stale| - 1].id == g.txn;
        }
      }
    }
  }

  function ReviewSet(found: seq<Finding>): set<TxnId> {
    set f | f in found && f.requiresReview :: f.txn
  }

  function ResolvedSet(found: seq<Finding>): set<TxnId> {
    set f | f in found && f.resolved :: f.txn
  }

  // A run over a fresh list settles every listed transaction one way or the other: the resolved
  // ones stand in their gateway's state and are no longer due, all others are untouched.
  lemma BatchSettles(t: Tables, stale: seq<StaleTransaction>, aged: set<TxnId>, answers: TxnId -> Poll, id: TxnId)
    requires IsStaleList(stale, t, aged)
    ensures var (t', found) := ReconciledAll(t, stale, answers);
            && (id in t'.rows <==> id in t.rows)
            && (id in ResolvedSet(found) ==>
                  id in t.rows && answers(id).Reported? && t'.rows[id].state == GatewayMappedState(answers(id).status)
                  && CanTransition(t.rows[id].state, t'.rows[id].state) && !Due(t', aged, id))
            && (id in t.rows && id !in ResolvedSet(found) ==> t'.rows[id] == t.rows[id])
  {
    var (t', found) := ReconciledAll(t, stale, answers);
    BatchReportsListed(t, stale, answers);
    if exists i :: 0 <= i < |stale| && stale[i].id == id {
      var i :| 0 <= i < |stale| && stale[i].id == id;
      BatchIsPointwise(t, stale, answers, i);
      ResolvedOrUntouched(t, stale[i], answers(id));
      var f := Reconciled(t, stale[i], answers(id)).1;
      if f.Some? { assert f.value in found; }
    } else {
      BatchLeavesOthers(t, stale, answers, id);
    }
  }

  // With the same gateway answers and nobody else at work, a second run resolves nothing,
  // changes nothing and asks for review of exactly the same transactions.
  lemma SecondRunFindsTheSame(t: Tables, first: seq<StaleTransaction>, second: seq<StaleTransaction>,
                              aged: set<TxnId>, answers: TxnId -> Poll)
    requires IsStaleList(first, t, aged)
    requires IsStaleList(second, ReconciledAll(t, first, answers).0, aged)
    ensures var (t1, found1) := ReconciledAll(t, first, answers);
            var (t2, found2) := ReconciledAll(t1, second, answers);
            ResolvedSet(found2) == {} && t2.rows == t1.rows && ReviewSet(found2) == ReviewSet(found1)
  {
    var (t1, found1) := ReconciledAll(t, first, answers);
    var (t2, found2) := ReconciledAll(t1, second, answers);
    forall id | Due(t1, aged, id)
      ensures id !in ResolvedSet(found2) && (id in ReviewSet(found2) <==> id in ReviewSet(found1))
    {
      StillDueIsFlaggedAgain(t, first, second, aged, answers, id);
    }
    BatchReportsListed(t1, second, answers);
    BatchReportsListed(t, first, answers);
    forall id ensures id !in ResolvedSet(found2) && (id in ReviewSet(found2) <==> id in ReviewSet(found1)) {
      if !Due(t1, aged, id) {
        assert id !in ReviewSet(found2) && id !in ResolvedSet(found2);
        if id in ReviewSet(found1) {
          FlaggedStaysDue(t, first, aged, answers, id);
        }
      }
    }
    forall id ensures (id in t2.rows <==> id in t1.rows) && (id in t1.rows ==> t2.rows[id] == t1.rows[id]) {
      BatchSettles(t1, second, aged, answers, id);
    }
  }

  lemma FlaggedStaysDue(t: Tables, first: seq<StaleTransaction>, aged: set<TxnId>, answers: TxnId -> Poll, id: TxnId)
    requires IsStaleList(first, t, aged)
    requires id in ReviewSet(ReconciledAll(t, first, answers).1)
    ensures Due(ReconciledAll(t, first, answers).0, aged, id)
  {
    var (t1, found) := ReconciledAll(t, first, answers);
    BatchReportsListed(t, first, answers);
    var i :| 0 <= i < |first| && first[i].id == id;
    BatchIsPointwise(t, first, answers, i);
    ResolvedOrUntouched(t, first[i], answers(id));
  }

  lemma StillDueIsFlaggedAgain(t: Tables, first: seq<StaleTransaction>, second: seq<StaleTransaction>,
                               aged: set<TxnId>, answers: TxnId -> Poll, id: TxnId)
    requires IsStaleList(first, t, aged)
    requires IsStaleList(second, ReconciledAll(t, first, answers).0, aged)
    requires Due(ReconciledAll(t, first, answers).0, aged, id)
    ensures var (t1, found1) := ReconciledAll(t, first, answers);
            var found2 := ReconciledAll(t1, second, answers).1;
            id !in ResolvedSet(found2) && (id in ReviewSet(found2) <==> id in ReviewSet(found1))
  {
    var (t1, found1) := ReconciledAll(t, first, answers);
    var found2 := ReconciledAll(t1, second, answers).1;
    BatchSettles(t, first, aged, answers, id);
    assert Due(t, aged, id);
    var i :| 0 <= i < |first| && first[i].id == id;
    var j :| 0 <= j < |second| && second[j].id == id;
    BatchIsPointwise(t, first, answers, i);
    BatchIsPointwise(t1, second, answers, j);
    ResolvedOrUntouched(t, first[i], answers(id));
    RowDecides(t, t1, first[i], answers(id));
    assert first[i] == second[j];
  }
}
