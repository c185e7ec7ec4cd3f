// The transactions table, its append-only state log, and the one method that moves a
// transaction from state to state. Every database transaction is one atomic step.
module TransactionStore {
  import opened Wrappers
  import opened StateGraph

  type TxnId = nat
  type GatewayId = nat
  type Reference = nat // an opaque, non-empty gateway reference

  // What a gateway's status API may report about a payment.
  datatype GatewayStatus = StatusAuthorised | StatusCaptured | StatusFailed | StatusRefunded | StatusExpired

  datatype Row = Row(
    state: State,
    version: nat,
    amountPaise: int,
    capturedPaise: int,
    refundedPaise: int,
    gateway: Option<GatewayId>,
    gatewayReference: Option<Reference>)
  {
    // Column updates outside the state machine; the version column counts every write.
    function WithCaptured(paise: int): Row { this.(capturedPaise := paise, version := version + 1) }
    function WithRefunded(paise: int): Row { this.(refundedPaise := paise, version := version + 1) }
    function WithGateway(g: Option<GatewayId>, r: Option<Reference>): Row {
      this.(
      gateway := if g.Some? then g else gateway,
      gatewayReference := if r.Some? then r else gatewayReference,
      version := version + 1)
    }
  }

  datatype LogEntry = LogEntry(txn: TxnId, edge: Edge)

  datatype TransitionError =
    | TransactionNotFound
    | InvalidTransition(from: State, to: State, validTargets: set<State>)

  datatype Tables = Tables(rows: map<TxnId, Row>, log: seq<LogEntry>)

  const EMPTY_TABLES: Tables := Tables(map[], [])

  // ---------------------------------------------------------------- specification

  // The tables after one call of transition(), or the exception that rolls it back.
  function Transitioned(t: Tables, id: TxnId, to: State, reference: Option<Reference>): Result<Tables, TransitionError> {
    if id !in t.rows then Err(TransactionNotFound)
    else
      var row := t.rows[id];
      if row.state == to then Ok(t)
      else if !CanTransition(row.state, to) then Err(InvalidTransition(row.state, to, ValidTargets(row.state)))
      else
        var moved := row.(
                     state := to,
                     version := row.version + 1,
                     gatewayReference := if reference.Some? then reference else row.gatewayReference);
        Ok(Tables(t.rows[id := moved], t.log + [LogEntry(id, Edge(row.state, to))]))
  }

  function After(t: Tables, id: TxnId, to: State, reference: Option<Reference>): Tables {
    match Transitioned(t, id, to, reference)
    case Ok(t') => t'
    case Err(_) => t
  }

  // ---------------------------------------------------------------- the service

  class TransactionStateMachine {
    var rows: map<TxnId, Row>
    var log: seq<LogEntry>

    constructor ()
      ensures Contents() == EMPTY_TABLES
    {
      rows, log := map[], [];
    }

    ghost function Contents(): Tables
      reads this
    {
      Tables(rows, log)
    }

    // transition(): lock, compare, validate, write, append. The row handed back carries the
    // new state but otherwise the columns as they were read under the lock.
    method Transition(id: TxnId, to: State, reference: Option<Reference>) returns (r: Result<Row, TransitionError>)
      modifies this
      ensures r.Ok? <==> id in old(rows) && (old(rows)[id].state == to || CanTransition(old(rows)[id].state, to))
      ensures r.Ok? ==> r.value == old(rows)[id].(state := to) && id in rows && rows[id].state == to
      ensures r.Ok? && old(rows)[id].state == to ==> Contents() == old(Contents())
      ensures r.Ok? && old(rows)[id].state != to ==>
                var was := old(rows)[id];
                && log == old(log) + [LogEntry(id, Edge(was.state, to))]
                && rows == old(rows)[id := Row(to, was.version + 1, was.amountPaise, was.capturedPaise, was.refundedPaise, was.gateway,
                                               if reference.Some? then reference else was.gatewayReference)]
      ensures (match Transitioned(old(Contents()), id, to, reference)
               case Err(e) => r == Err(e) && Contents() == old(Contents())
               case Ok(t) => r.Ok? && Contents() == t)
    {
      if id !in rows {
        return Err(TransactionNotFound);
      }
      var transaction := rows[id];
      var from := transaction.state;
      if from == to {
        return Ok(transaction);
      }
      var valid := AssertValidTransition(from, to);
      if valid.Err? {
        TerminalMeansNoWayOut(from);
        return Err(valid.error);
      }
      var stored := transaction.(state := to, version := transaction.version + 1);
      if reference.Some? {
        stored := stored.(gatewayReference := reference);
      }
      rows := rows[id := stored];
      log := log + [LogEntry(id, Edge(from, to))];
      return Ok(transaction.(state := to));
    }

    // assertValidTransition(): the terminal-state guard, then the map lookup.
    static method AssertValidTransition(from: State, to: State) returns (r: Result<(), TransitionError>)
      ensures r.Ok? <==> CanTransition(from, to)
      ensures r.Err? ==> r.error == InvalidTransition(from, to, ValidTargets(from))
    {
      TerminalMeansNoWayOut(from);
      if from in TERMINAL_STATES {
        return Err(InvalidTransition(from, to, {}));
      }
      if to !in ValidTargets(from) {
        return Err(InvalidTransition(from, to, ValidTargets(from)));
      }
      return Ok(());
    }

    // Column writes outside the state machine: they touch neither the state nor the log.
    method SetCapturedPaise(id: TxnId, paise: int)
      modifies `rows
      ensures rows == if id in old(rows) then old(rows)[id := old(rows)[id].WithCaptured(paise)] else old(rows)
      ensures id in old(rows) ==> rows[id] == old(rows)[id].(capturedPaise := paise, version := old(rows)[id].version + 1)
    {
      if id in rows {
        rows := rows[id := rows[id].WithCaptured(paise)];
      }
    }

    method SetRefundedPaise(id: TxnId, paise: int)
      modifies `rows
      ensures rows == if id in old(rows) then old(rows)[id := old(rows)[id].WithRefunded(paise)] else old(rows)
      ensures id in old(rows) ==> rows[id] == old(rows)[id].(refundedPaise := paise, version := old(rows)[id].version + 1)
    {
      if id in rows {
        rows := rows[id := rows[id].WithRefunded(paise)];
      }
    }
  }

  // ---------------------------------------------------------------- every actor, as atomic steps

  // What any actor may do to the two tables in one database transaction.
  datatype Action =
    | Insert(id: TxnId, amountPaise: int)
    | Move(id: TxnId, to: State, reference: Option<Reference>)
    | SetCaptured(id: TxnId, paise: int)
    | SetRefunded(id: TxnId, paise: int)
    | SetGateway(id: TxnId, gateway: Option<GatewayId>, gatewayReference: Option<Reference>)

  function NewRow(amountPaise: int): Row {
    Row(Created, 1, amountPaise, 0, 0, None, None)
  }

  function Step(t: Tables, a: Action): Tables {
    match a
    case Insert(id, amount) => if id in t.rows then t else t.(rows := t.rows[id := NewRow(amount)])
    case Move(id, to, reference) => After(t, id, to, reference)
    case SetCaptured(id, paise) =>
      if id in t.rows then t.(rows := t.rows[id := t.rows[id].WithCaptured(paise)]) else t
    case SetRefunded(id, paise) =>
      if id in t.rows then t.(rows := t.rows[id := t.rows[id].WithRefunded(paise)]) else t
    case SetGateway(id, gateway, reference) =>
      if id in t.rows then t.(rows := t.rows[id := t.rows[id].WithGateway(gateway, reference)]) else t
  }

  // An interleaving of any number of actors is a sequence of their steps.
  function Run(t: Tables, actions: seq<Action>): Tables {
    if actions == [] then t else Step(Run(t, actions[..|actions| - 1]), actions[|actions| - 1])
  }

  // Every column has one kind of writer. What the others do, it keeps.
  lemma ColumnsHaveTheirWriters(t: Tables, a: Action, id: TxnId)
    requires id in t.rows
    ensures id in Step(t, a).rows
    ensures var was, row := t.rows[id], Step(t, a).rows[id];
            && row.amountPaise == was.amountPaise
            && row.capturedPaise == (if a.SetCaptured? && a.id == id then a.paise else was.capturedPaise)
            && row.refundedPaise == (if a.SetRefunded? && a.id == id then a.paise else was.refundedPaise)
            && row.gateway == (if a.SetGateway? && a.id == id && a.gateway.Some? then a.gateway else was.gateway)
            && row.state == (if a.Move? && a.id == id && CanTransition(was.state, a.to) then a.to else was.state)
            && (row.gatewayReference != was.gatewayReference ==>
                  a.id == id && ((a.SetGateway? && row.gatewayReference == a.gatewayReference)
                                 || (a.Move? && row.state != was.state && row.gatewayReference == a.reference)))
            && (row == was <==> !(a.id == id && (a.SetCaptured? || a.SetRefunded? || a.SetGateway?
                                                 || (a.Move? && a.to != was.state && CanTransition(was.state, a.to)))))
            && (row != was ==> row.version == was.version + 1)
  {
    TerminalMeansNoWayOut(t.rows[id].state);
  }

  // A transaction begins with nothing captured, refunded or routed.
  lemma RowsBeginEmpty(t: Tables, a: Action, id: TxnId)
    requires id !in t.rows && id in Step(t, a).rows
    ensures a.Insert? && a.id == id && Step(t, a).rows[id] == Row(Created, 1, a.amountPaise, 0, 0, None, None)
  {
  }

  function LogOf(log: seq<LogEntry>, id: TxnId): seq<Edge> {
    if log == [] then []
    else
      var init, last := log[..|log| - 1], log[|log| - 1];
      if last.txn == id then LogOf(init, id) + [last.edge] else LogOf(init, id)
  }

  lemma LogOfAppend(log: seq<LogEntry>, e: LogEntry, id: TxnId)
    ensures LogOf(log + [e], id) == if e.txn == id then LogOf(log, id) + [e.edge] else LogOf(log, id)
  {
    assert (log + [e])[..|log|] == log;
  }

  lemma {:induction false} LogOfUnknown(log: seq<LogEntry>, id: TxnId)
    requires forall e :: e in log ==> e.txn != id
    ensures LogOf(log, id) == []
    decreases |log|
  {
    if log != [] {
      assert log[|log| - 1] in log;
      LogOfUnknown(log[..|log| - 1], id);
    }
  }

  // The audit log refines the stored state.
  ghost predicate Consistent(t: Tables) {
    && (forall e :: e in t.log ==> e.txn in t.rows)
    && (forall id :: id in t.rows ==> WellFormed(LogOf(t.log, id), t.rows[id].state)
                                      && t.rows[id].version > |LogOf(t.log, id)|)
  }

  lemma MoveKeepsConsistent(t: Tables, id: TxnId, to: State, reference: Option<Reference>)
    requires Consistent(t)
    ensures Consistent(After(t, id, to, reference))
  {
    var t' := After(t, id, to, reference);
    if t' != t {
      var from := t.rows[id].state;
      var e := LogEntry(id, Edge(from, to));
      forall other | other in t'.rows
        ensures WellFormed(LogOf(t'.log, other), t'.rows[other].state)
        ensures t'.rows[other].version > |LogOf(t'.log, other)|
      {
        LogOfAppend(t.log, e, other);
        if other == id {
          WellFormedExtends(LogOf(t.log, id), from, to);
        }
      }
    }
  }

  lemma StepKeepsConsistent(t: Tables, a: Action)
    requires Consistent(t)
    ensures Consistent(Step(t, a))
  {
    match a
    case Move(id, to, reference) => MoveKeepsConsistent(t, id, to, reference);
    case Insert(id, _) =>
      if id !in t.rows { LogOfUnknown(t.log, id); }
    case _ =>
  }

  // Under any interleaving of all actors, every transaction's log is an unbroken chain of map
  // edges from CREATED to the stored state, and the version exceeds its length.
  lemma {:induction false} AuditLogRefinesState(actions: seq<Action>)
    ensures Consistent(Run(EMPTY_TABLES, actions))
    decreases |actions|
  {
    if actions != [] {
      var init := actions[..|actions| - 1];
      AuditLogRefinesState(init);
      StepKeepsConsistent(Run(EMPTY_TABLES, init), actions[|actions| - 1]);
    }
  }

  // The log is only ever extended, rows are never deleted and the amount never changes.
  lemma {:induction false} HistoryIsPermanent(t: Tables, actions: seq<Action>)
    ensures t.log <= Run(t, actions).log
    ensures forall id :: id in t.rows ==> id in Run(t, actions).rows && Run(t, actions).rows[id].amountPaise == t.rows[id].amountPaise
    decreases |actions|
  {
    if actions != [] {
      HistoryIsPermanent(t, actions[..|actions| - 1]);
    }
  }

  // The life-cycle order, for every transaction of every run.
  lemma LifeCycleOrder(actions: seq<Action>, id: TxnId)
    requires id in Run(EMPTY_TABLES, actions).rows
    ensures var log := LogOf(Run(EMPTY_TABLES, actions).log, id);
            && (forall i, j :: 0 <= i <= j < |log| ==> Phase(log[i].to) <= Phase(log[j].to))
            && (forall s :: s in {Authorised, Captured, Settled} ==> Entries(log, s) <= 1)
            && (forall i :: 0 <= i < |log| && log[i].to == RefundInitiated ==>
                  exists j :: 0 <= j < i && log[j].to in {Captured, PartiallyCaptured}
                              && EnteredBefore(log, Authorised, j) && EnteredBefore(log, CaptureInitiated, j))
            && (forall i, j :: 0 <= i < |log| && 0 <= j < |log| && log[i].to == Voided ==>
                  log[j].to !in {Captured, Settled, RefundInitiated})
  {
    var t := Run(EMPTY_TABLES, actions);
    var log := LogOf(t.log, id);
    AuditLogRefinesState(actions);
    var s := t.rows[id].state;
    forall i, j | 0 <= i <= j < |log| ensures Phase(log[i].to) <= Phase(log[j].to) {
      PrefixWellFormed(log, s, j + 1);
      PhaseNeverDrops(log[..j + 1], log[j].to, i);
    }
    forall q | q in {Authorised, Captured, Settled} ensures Entries(log, q) <= 1 {
      EnteredAtMostOnce(log, s, q);
    }
    forall i | 0 <= i < |log| && log[i].to == RefundInitiated
      ensures exists j :: 0 <= j < i && log[j].to in {Captured, PartiallyCaptured}
                          && EnteredBefore(log, Authorised, j) && EnteredBefore(log, CaptureInitiated, j)
    {
      RefundPresupposesCapture(log, s, i);
    }
    forall i, j | 0 <= i < |log| && 0 <= j < |log| && log[i].to == Voided
      ensures log[j].to !in {Captured, Settled, RefundInitiated}
    {
      VoidExcludesCapture(log, s, i, j);
    }
  }

  lemma {:induction false} PrefixWellFormed(log: seq<Edge>, current: State, n: nat)
    requires WellFormed(log, current) && 0 < n <= |log|
    ensures WellFormed(log[..n], log[n - 1].to)
    decreases |log|
  {
    if n == |log| {
      assert log[..n] == log;
    } else {
      WellFormedPrefix(log, current);
      PrefixWellFormed(log[..|log| - 1], log[|log| - 1].from, n);
      assert log[..|log| - 1][..n] == log[..n];
    }
  }

  // ---------------------------------------------------------------- one transaction

  // What the two tables hold about one transaction.
  datatype Txn = Txn(state: State, log: seq<Edge>, amountPaise: int, capturedPaise: int, refundedPaise: int) {
    ghost predicate Valid() {
      WellFormed(log, state)
    }

    // transition() seen from this transaction: None is the rejection.
    function Moved(to: State): Option<Txn> {
      if state == to then Some(this)
      else if CanTransition(state, to) then Some(this.(state := to, log := log + [Edge(state, to)]))
      else None
    }

    function MovedOrSame(to: State): Txn {
      match Moved(to)
      case Some(t) => t
      case None => this
    }
  }

  function View(t: Tables, id: TxnId): Txn
    requires id in t.rows
  {
    var r := t.rows[id];
    Txn(r.state, LogOf(t.log, id), r.amountPaise, r.capturedPaise, r.refundedPaise)
  }

  // A transition is a move of the one transaction it names and is invisible to all others.
  lemma TransitionIsMove(t: Tables, id: TxnId, to: State, reference: Option<Reference>, other: TxnId)
    requires id in t.rows && other in t.rows
    ensures Transitioned(t, id, to, reference).Ok? <==> View(t, id).Moved(to).Some?
    ensures View(After(t, id, to, reference), id) == View(t, id).MovedOrSame(to)
    ensures other != id ==> View(After(t, id, to, reference), other) == View(t, other)
  {
    var t' := After(t, id, to, reference);
    if t' != t {
      var e := LogEntry(id, Edge(t.rows[id].state, to));
      if t'.log != t.log {
        LogOfAppend(t.log, e, id);
        LogOfAppend(t.log, e, other);
      }
    }
  }

  lemma MovedKeepsValid(t: Txn, to: State)
    requires t.Valid()
    ensures t.MovedOrSame(to).Valid()
  {
    if t.state != to && CanTransition(t.state, to) {
      WellFormedExtends(t.log, t.state, to);
    }
  }
}
