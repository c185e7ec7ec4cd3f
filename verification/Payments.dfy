// The API calls on an existing transaction. Each is a sequence of short database transactions
// with a gateway call in the middle; `others` arguments are what every other actor does to the
// tables in between.
module Payments {
  import opened Wrappers
  import opened StateGraph
  import opened TransactionStore

  datatype Refund = Refund(txn: TxnId, amountPaise: int)

  datatype Books = Books(tables: Tables, refunds: seq<Refund>)

  // One atomic step of another actor.
  datatype OtherStep =
    | Table(a: Action)
    | StoreRefund(r: Refund)

  function OtherDoes(b: Books, s: OtherStep): Books {
    match s
    case Table(a) => b.(tables := Step(b.tables, a))
    case StoreRefund(r) => b.(refunds := b.refunds + [r])
  }

  function OthersDo(b: Books, steps: seq<OtherStep>): Books
    decreases |steps|
  {
    if steps == [] then b else OthersDo(OtherDoes(b, steps[0]), steps[1..])
  }

  datatype GatewayRefundStatus = RefundReported | PartialRefundReported | RefundFailureReported

  // The gateways' answers, each with the reference that ends up on the row.
  datatype RefundReply = RefundThrew | RefundReplied(status: GatewayRefundStatus, reference: Option<Reference>)

  datatype CaptureReply = CaptureThrew | CaptureReplied(capturedAmountPaise: int, reference: Option<Reference>)

  // Which of a refund's last two writes, the refunded total and then the refund row, succeed: the
  // first that fails ends the call.
  datatype Landed = NothingLands | TotalLands | BothLand

  datatype CallError = CallRejected(error: TransitionError) | GatewayFailed | WriteFailed

  // ---------------------------------------------------------------- specification of a refund

  // A status of "failed" that is returned rather than thrown counts as a full refund.
  function RefundTarget(status: GatewayRefundStatus): State {
    if status == PartialRefundReported then PartiallyRefunded else Refunded
  }

  datatype CallOutcome = CallOutcome(books: Books, result: Result<(), CallError>)

  // What a refund call leaves behind. `others[i]` runs before the call's i-th database
  // transaction after the initial read.
  function RefundCall(b: Books, id: TxnId, amount: int, reply: RefundReply, landed: Landed, others: seq<seq<OtherStep>>): CallOutcome
    requires |others| == 4
  {
    if id !in b.tables.rows then CallOutcome(b, Err(CallRejected(TransactionNotFound)))
    else
      var b1 := OthersDo(b, others[0]);
      match Transitioned(b1.tables, id, RefundInitiated, None)
      case Err(e) => CallOutcome(b1, Err(CallRejected(e)))
      case Ok(t) =>
        RefundSent(b1.(tables := t), id, b.tables.rows[id].refundedPaise + amount, amount, reply, landed, others)
  }

  // The part after REFUND_INITIATED is committed.
  function RefundSent(b: Books, id: TxnId, total: int, amount: int, reply: RefundReply, landed: Landed,
                      others: seq<seq<OtherStep>>): CallOutcome
    requires |others| == 4
  {
    var b2 := OthersDo(b, others[1]);
    if reply.RefundReplied? then RefundSettled(b2, id, total, amount, reply, landed, others[2], others[3])
    else
      match Transitioned(b2.tables, id, RefundFailed, None)
      case Err(e) => CallOutcome(b2, Err(CallRejected(e)))
      case Ok(t) => CallOutcome(b2.(tables := t), Err(GatewayFailed))
  }

  // The part after the gateway has answered.
  function RefundSettled(b: Books, id: TxnId, total: int, amount: int, reply: RefundReply, landed: Landed,
                         before: seq<OtherStep>, between: seq<OtherStep>): CallOutcome
    requires reply.RefundReplied?
  {
    match Transitioned(b.tables, id, RefundTarget(reply.status), reply.reference)
    case Err(e) => CallOutcome(b, Err(CallRejected(e)))
    case Ok(t) =>
      var b3 := OthersDo(b.(tables := t), before);
      if landed == NothingLands then CallOutcome(b3, Err(WriteFailed))
      else
        var b4 := OthersDo(OtherDoes(b3, Table(SetRefunded(id, total))), between);
        if landed == TotalLands then CallOutcome(b4, Err(WriteFailed))
        else CallOutcome(b4.(refunds := b4.refunds + [Refund(id, amount)]), Ok(()))
  }

  // ---------------------------------------------------------------- specification of capture and void

  function CaptureCall(b: Books, id: TxnId, reply: CaptureReply, others: seq<seq<OtherStep>>): CallOutcome
    requires |others| == 3
  {
    if id !in b.tables.rows then CallOutcome(b, Err(CallRejected(TransactionNotFound)))
    else
      var amount := b.tables.rows[id].amountPaise;
      var b1 := OthersDo(b, others[0]);
      match Transitioned(b1.tables, id, CaptureInitiated, None)
      case Err(e) => CallOutcome(b1, Err(CallRejected(e)))
      case Ok(t) =>
        var b2 := OthersDo(b1.(tables := t), others[1]);
        var target := if reply.CaptureThrew? then CaptureFailed
                      else if reply.capturedAmountPaise < amount then PartiallyCaptured else Captured;
        match Transitioned(b2.tables, id, target, if reply.CaptureThrew? then None else reply.reference)
        case Err(e) => CallOutcome(b2, Err(CallRejected(e)))
        case Ok(t) =>
          if reply.CaptureThrew? then CallOutcome(b2.(tables := t), Err(GatewayFailed))
          else
            var b3 := OthersDo(b2.(tables := t), others[2]);
            CallOutcome(OtherDoes(b3, Table(SetCaptured(id, reply.capturedAmountPaise))), Ok(()))
  }

  function VoidCall(b: Books, id: TxnId, threw: bool, others: seq<seq<OtherStep>>): CallOutcome
    requires |others| == 2
  {
    if id !in b.tables.rows then CallOutcome(b, Err(CallRejected(TransactionNotFound)))
    else
      var b1 := OthersDo(b, others[0]);
      match Transitioned(b1.tables, id, VoidInitiated, None)
      case Err(e) => CallOutcome(b1, Err(CallRejected(e)))
      case Ok(t) =>
        var b2 := OthersDo(b1.(tables := t), others[1]);
        match Transitioned(b2.tables, id, if threw then CaptureInitiated else Voided, None)
        case Err(e) => CallOutcome(b2, Err(CallRejected(e)))
        case Ok(t) => CallOutcome(b2.(tables := t), if threw then Err(GatewayFailed) else Ok(()))
  }

  // ---------------------------------------------------------------- the service

  class TransactionsService {
    const stateMachine: TransactionStateMachine
    var refunds: seq<Refund>

    constructor (stateMachine: TransactionStateMachine)
      ensures this.stateMachine == stateMachine && refunds == []
    {
      this.stateMachine := stateMachine;
      this.refunds := [];
    }

    ghost function Contents(): Books
      reads this, stateMachine
    {
      Books(stateMachine.Contents(), refunds)
    }

    // The other actors' turn.
    method Others(steps: seq<OtherStep>)
      modifies this, stateMachine
      ensures Contents() == OthersDo(old(Contents()), steps)
    {
      var i := 0;
      while i < |steps|
        invariant 0 <= i <= |steps|
        invariant OthersDo(Contents(), steps[i..]) == OthersDo(old(Contents()), steps)
        decreases |steps| - i
      {
        match steps[i] {
          case Table(a) =>
            var t := Step(Tables(stateMachine.rows, stateMachine.log), a);
            stateMachine.rows, stateMachine.log := t.rows, t.log;
          case StoreRefund(r) =>
            refunds := refunds + [r];
        }
        assert steps[i..][1..] == steps[i + 1..];
        i := i + 1;
      }
    }

    // transition() on behalf of a call.
    method Move(id: TxnId, to: State, reference: Option<Reference>) returns (r: Result<(), CallError>)
      modifies stateMachine
      ensures refunds == old(refunds)
      ensures (match Transitioned(old(stateMachine.Contents()), id, to, reference)
               case Err(e) => r == Err(CallRejected(e)) && stateMachine.Contents() == old(stateMachine.Contents())
               case Ok(t) => r == Ok(()) && stateMachine.Contents() == t)
    {
      var moved := stateMachine.Transition(id, to, reference);
      if moved.Err? {
        return Err(CallRejected(moved.error));
      }
      return Ok(());
    }

    method RefundPayment(id: TxnId, amountPaise: int, reply: RefundReply, landed: Landed, others: seq<seq<OtherStep>>)
      returns (r: Result<(), CallError>)
      requires |others| == 4
      modifies this, stateMachine
      ensures CallOutcome(Contents(), r) == RefundCall(old(Contents()), id, amountPaise, reply, landed, others)
      ensures RefundEnding(CallOutcome(Contents(), r), id, amountPaise, reply, landed)
    {
      RefundEnds(Contents(), id, amountPaise, reply, landed, others);
      if id !in stateMachine.rows {
        return Err(CallRejected(TransactionNotFound));
      }
      var transaction := stateMachine.rows[id];
      Others(others[0]);
      r := Move(id, RefundInitiated, None);
      if r.Ok? {
        r := SendRefund(id, transaction.refundedPaise + amountPaise, amountPaise, reply, landed, others);
      }
    }

    method SendRefund(id: TxnId, total: int, amountPaise: int, reply: RefundReply, landed: Landed, others: seq<seq<OtherStep>>)
      returns (r: Result<(), CallError>)
      requires |others| == 4
      modifies this, stateMachine
      ensures CallOutcome(Contents(), r) == RefundSent(old(Contents()), id, total, amountPaise, reply, landed, others)
    {
      Others(others[1]);
      if reply.RefundThrew? {
        r := Move(id, RefundFailed, None);
        return if r.Err? then r else Err(GatewayFailed);
      }
      r := SettleRefund(id, total, amountPaise, reply, landed, others[2], others[3]);
    }

    method SettleRefund(id: TxnId, total: int, amountPaise: int, reply: RefundReply, landed: Landed,
                        before: seq<OtherStep>, between: seq<OtherStep>)
      returns (r: Result<(), CallError>)
      requires reply.RefundReplied?
      modifies this, stateMachine
      ensures CallOutcome(Contents(), r) == RefundSettled(old(Contents()), id, total, amountPaise, reply, landed, before, between)
    {
      var isPartial := reply.status == PartialRefundReported;
      r := Move(id, if isPartial then PartiallyRefunded else Refunded, reply.reference);
      if r.Err? {
        return;
      }
      Others(before);
      if landed == NothingLands {
        return Err(WriteFailed);
      }
      stateMachine.SetRefundedPaise(id, total);
      Others(between);
      if landed == TotalLands {
        return Err(WriteFailed);
      }
      refunds := refunds + [Refund(id, amountPaise)];
    }

    // `requested` as in the DTO: an absent or zero amount asks the gateway for the whole payment.
    method CapturePayment(id: TxnId, requested: Option<int>, reply: CaptureReply, others: seq<seq<OtherStep>>)
      returns (r: Result<(), CallError>, asked: int)
      requires |others| == 3
      modifies this, stateMachine
      ensures CallOutcome(Contents(), r) == CaptureCall(old(Contents()), id, reply, others)
      ensures id in old(stateMachine.rows) ==>
                asked == if requested.Some? && requested.value != 0 then requested.value else old(stateMachine.rows)[id].amountPaise
      ensures r.Ok? ==> reply.CaptureReplied? && id in stateMachine.rows
                        && stateMachine.rows[id].capturedPaise == reply.capturedAmountPaise
      ensures r == Err(GatewayFailed) ==> reply.CaptureThrew? && id in stateMachine.rows && stateMachine.rows[id].state == CaptureFailed
    {
      CaptureEnds(Contents(), id, reply, others);
      asked := 0;
      if id !in stateMachine.rows {
        r := Err(CallRejected(TransactionNotFound));
        return;
      }
      var transaction := stateMachine.rows[id];
      asked := if requested.Some? && requested.value != 0 then requested.value else transaction.amountPaise;
      Others(others[0]);
      r := Move(id, CaptureInitiated, None);
      if r.Err? {
        return;
      }
      Others(others[1]);
      if reply.CaptureThrew? {
        r := Move(id, CaptureFailed, None);
        r := if r.Err? then r else Err(GatewayFailed);
        return;
      }
      var isPartial := reply.capturedAmountPaise < transaction.amountPaise;
      r := Move(id, if isPartial then PartiallyCaptured else Captured, reply.reference);
      if r.Err? {
        return;
      }
      Others(others[2]);
      stateMachine.SetCapturedPaise(id, reply.capturedAmountPaise);
    }

    // The status the gateway's void call returns is not looked at, only whether it threw.
    method VoidPayment(id: TxnId, threw: bool, others: seq<seq<OtherStep>>) returns (r: Result<(), CallError>)
      requires |others| == 2
      modifies this, stateMachine
      ensures CallOutcome(Contents(), r) == VoidCall(old(Contents()), id, threw, others)
      ensures r.Ok? || r == Err(GatewayFailed) ==>
                && (r.Ok? <==> !threw) && id in stateMachine.rows
                && stateMachine.rows[id].state == if threw then CaptureInitiated else Voided
    {
      VoidEnds(Contents(), id, threw, others);
      if id !in stateMachine.rows {
        return Err(CallRejected(TransactionNotFound));
      }
      Others(others[0]);
      r := Move(id, VoidInitiated, None);
      if r.Err? {
        return;
      }
      Others(others[1]);
      if threw {
        r := Move(id, CaptureInitiated, None);
        r := if r.Err? then r else Err(GatewayFailed);
        return;
      }
      r := Move(id, Voided, None);
    }
  }

  // ---------------------------------------------------------------- how calls end

  lemma {:induction false} OthersKeepRows(b: Books, steps: seq<OtherStep>, id: TxnId)
    requires id in b.tables.rows
    ensures id in OthersDo(b, steps).tables.rows
    ensures b.tables.rows[id].state in TERMINAL_STATES ==> OthersDo(b, steps).tables.rows[id].state == b.tables.rows[id].state
    decreases |steps|
  {
    if steps != [] {
      TerminalMeansNoWayOut(b.tables.rows[id].state);
      OthersKeepRows(OtherDoes(b, steps[0]), steps[1..], id);
    }
  }

  // A refund that settles leaves the state the gateway's answer calls for, whatever others do in
  // the gaps, and its own row last; one whose gateway call threw leaves REFUND_FAILED.
  ghost predicate RefundEnding(out: CallOutcome, id: TxnId, amount: int, reply: RefundReply, landed: Landed) {
    && (out.result == Ok(()) || out.result == Err(WriteFailed) ==>
          && reply.RefundReplied? && id in out.books.tables.rows && (out.result.Ok? <==> landed == BothLand)
          && out.books.tables.rows[id].state == if reply.status == PartialRefundReported then PartiallyRefunded else Refunded)
    && (out.result.Ok? ==> out.books.refunds != [] && out.books.refunds[|out.books.refunds| - 1] == Refund(id, amount))
    && (out.result == Err(GatewayFailed) ==>
          reply.RefundThrew? && id in out.books.tables.rows && out.books.tables.rows[id].state == RefundFailed)
  }

  lemma RefundEnds(b: Books, id: TxnId, amount: int, reply: RefundReply, landed: Landed, others: seq<seq<OtherStep>>)
    requires |others| == 4
    ensures RefundEnding(RefundCall(b, id, amount, reply, landed, others), id, amount, reply, landed)
  {
    if id in b.tables.rows {
      var t := Transitioned(OthersDo(b, others[0]).tables, id, RefundInitiated, None);
      if t.Ok? {
        var sent := OthersDo(b, others[0]).(tables := t.value);
        var total := b.tables.rows[id].refundedPaise + amount;
        assert RefundCall(b, id, amount, reply, landed, others) == RefundSent(sent, id, total, amount, reply, landed, others);
        SentRefundEnds(sent, id, total, amount, reply, landed, others);
      }
    }
  }

  lemma SentRefundEnds(b: Books, id: TxnId, total: int, amount: int, reply: RefundReply, landed: Landed, others: seq<seq<OtherStep>>)
    requires |others| == 4
    ensures RefundEnding(RefundSent(b, id, total, amount, reply, landed, others), id, amount, reply, landed)
  {
    var b2 := OthersDo(b, others[1]);
    if reply.RefundReplied? {
      var t := Transitioned(b2.tables, id, RefundTarget(reply.status), reply.reference);
      if t.Ok? {
        var b3 := OthersDo(b2.(tables := t.value), others[2]);
        OthersKeepRows(b2.(tables := t.value), others[2], id);
        OthersKeepRows(OtherDoes(b3, Table(SetRefunded(id, total))), others[3], id);
      }
    }
  }

  // A capture that succeeds leaves the amount of its own answer; one whose gateway call threw
  // leaves CAPTURE_FAILED.
  lemma CaptureEnds(b: Books, id: TxnId, reply: CaptureReply, others: seq<seq<OtherStep>>)
    requires |others| == 3
    ensures var out := CaptureCall(b, id, reply, others);
            && (out.result.Ok? ==> reply.CaptureReplied? && id in out.books.tables.rows
                                   && out.books.tables.rows[id].capturedPaise == reply.capturedAmountPaise)
            && (out.result == Err(GatewayFailed) ==>
                  reply.CaptureThrew? && id in out.books.tables.rows && out.books.tables.rows[id].state == CaptureFailed)
  {
    if id in b.tables.rows {
      var b1 := OthersDo(b, others[0]);
      var t := Transitioned(b1.tables, id, CaptureInitiated, None);
      if t.Ok? && reply.CaptureReplied? {
        var b2 := OthersDo(b1.(tables := t.value), others[1]);
        var target := if reply.capturedAmountPaise < b.tables.rows[id].amountPaise then PartiallyCaptured else Captured;
        var t2 := Transitioned(b2.tables, id, target, reply.reference);
        if t2.Ok? { OthersKeepRows(b2.(tables := t2.value), others[2], id); }
      }
    }
  }

  lemma VoidEnds(b: Books, id: TxnId, threw: bool, others: seq<seq<OtherStep>>)
    requires |others| == 2
    ensures var out := VoidCall(b, id, threw, others);
            out.result.Ok? || out.result == Err(GatewayFailed) ==>
              && (out.result.Ok? <==> !threw) && id in out.books.tables.rows
              && out.books.tables.rows[id].state == if threw then CaptureInitiated else Voided
  {
  }

  const REFUNDABLE_STATES: set<State> := {Captured, PartiallyCaptured, Settled, RefundFailed}

  // Undisturbed, from every state there is: which refunds are accepted, the two entries they log,
  // and what the row and the refund rows say afterwards.
  lemma RefundAlone(b: Books, id: TxnId, amount: int, reply: RefundReply)
    requires id in b.tables.rows
    ensures var was := b.tables.rows[id];
            var out := RefundCall(b, id, amount, reply, BothLand, [[], [], [], []]);
            var end := if reply.RefundThrew? then RefundFailed
                       else if reply.status == PartialRefundReported then PartiallyRefunded else Refunded;
            && (was.state !in REFUNDABLE_STATES + {RefundInitiated} ==> out.books == b && out.result.Err?)
            && (was.state in REFUNDABLE_STATES + {RefundInitiated} ==>
                  && id in out.books.tables.rows
                  && out.result == (if reply.RefundThrew? then Err(GatewayFailed) else Ok(()))
                  && out.books.tables.rows[id].state == end
                  && out.books.tables.rows[id].refundedPaise == was.refundedPaise + (if reply.RefundThrew? then 0 else amount)
                  && out.books.tables.rows[id].capturedPaise == was.capturedPaise && out.books.tables.rows[id].amountPaise == was.amountPaise
                  && out.books.refunds == (if reply.RefundThrew? then b.refunds else b.refunds + [Refund(id, amount)])
                  && out.books.tables.log
                     == b.tables.log + (if was.state == RefundInitiated then [] else [LogEntry(id, Edge(was.state, RefundInitiated))])
                        + [LogEntry(id, Edge(RefundInitiated, end))])
  {
    var t := Transitioned(b.tables, id, RefundInitiated, None);
    assert CanTransition(b.tables.rows[id].state, RefundInitiated) <==> b.tables.rows[id].state in REFUNDABLE_STATES;
    if t.Ok? {
      assert t.value.rows[id].state == RefundInitiated;
      assert b.tables.log + [] == b.tables.log;
      SentAlone(b.(tables := t.value), id, b.tables.rows[id].refundedPaise + amount, amount, reply);
    }
  }

  lemma SentAlone(b: Books, id: TxnId, total: int, amount: int, reply: RefundReply)
    requires id in b.tables.rows && b.tables.rows[id].state == RefundInitiated
    ensures var was := b.tables.rows[id];
            var out := RefundSent(b, id, total, amount, reply, BothLand, [[], [], [], []]);
            var end := if reply.RefundThrew? then RefundFailed
                       else if reply.status == PartialRefundReported then PartiallyRefunded else Refunded;
            && id in out.books.tables.rows
            && out.result == (if reply.RefundThrew? then Err(GatewayFailed) else Ok(()))
            && out.books.tables.rows[id].state == end
            && out.books.tables.rows[id].refundedPaise == (if reply.RefundThrew? then was.refundedPaise else total)
            && out.books.tables.rows[id].capturedPaise == was.capturedPaise && out.books.tables.rows[id].amountPaise == was.amountPaise
            && out.books.refunds == (if reply.RefundThrew? then b.refunds else b.refunds + [Refund(id, amount)])
            && out.books.tables.log == b.tables.log + [LogEntry(id, Edge(RefundInitiated, end))]
  {
  }

  // ---------------------------------------------------------------- conservation

  function AmountsFor(refunds: seq<Refund>, id: TxnId): seq<int> {
    if refunds == [] then []
    else
      var init, last := refunds[..|refunds| - 1], refunds[|refunds| - 1];
      if last.txn == id then AmountsFor(init, id) + [last.amountPaise] else AmountsFor(init, id)
  }

  function Sum(amounts: seq<int>): int {
    if amounts == [] then 0 else amounts[0] + Sum(amounts[1..])
  }

  lemma AmountsForAppend(refunds: seq<Refund>, r: Refund, id: TxnId)
    ensures AmountsFor(refunds + [r], id) == if r.txn == id then AmountsFor(refunds, id) + [r.amountPaise] else AmountsFor(refunds, id)
  {
    assert (refunds + [r])[..|refunds|] == refunds;
  }

  // A step that no refund call on this transaction makes: webhooks, reconciliation, captures,
  // voids, and anything at all on other transactions.
  predicate NotARefundOf(s: OtherStep, id: TxnId) {
    match s
    case Table(SetRefunded(i, _)) => i != id
    case StoreRefund(r) => r.txn != id
    case _ => true
  }

  ghost predicate NoOverlap(others: seq<seq<OtherStep>>, id: TxnId) {
    forall i, j :: 0 <= i < |others| && 0 <= j < |others[i]| ==> NotARefundOf(others[i][j], id)
  }

  // The law of a transaction's books: what the row says was refunded is what the refund rows add up to.
  ghost predicate Balanced(b: Books, id: TxnId)
    requires id in b.tables.rows
  {
    b.tables.rows[id].refundedPaise == Sum(AmountsFor(b.refunds, id))
  }

  ghost predicate NothingRefunded(b: Books, id: TxnId)
    requires id in b.tables.rows
  {
    b.tables.rows[id].refundedPaise == 0 && AmountsFor(b.refunds, id) == []
  }

  // What holds between refund calls, balanced or not: at most one row, and once anything is
  // written the transaction rests in a refunded state.
  ghost predicate RefundedOnce(b: Books, id: TxnId) {
    && id in b.tables.rows
    && |AmountsFor(b.refunds, id)| <= 1
    && (NothingRefunded(b, id) || b.tables.rows[id].state in {Refunded, PartiallyRefunded})
  }

  // What steps that are not refunds of this transaction leave alone.
  ghost predicate LeavesRefunds(b: Books, b': Books, id: TxnId)
    requires id in b.tables.rows
  {
    && id in b'.tables.rows
    && b'.tables.rows[id].refundedPaise == b.tables.rows[id].refundedPaise
    && AmountsFor(b'.refunds, id) == AmountsFor(b.refunds, id)
    && (b.tables.rows[id].state in {Refunded, PartiallyRefunded} ==> b'.tables.rows[id].state == b.tables.rows[id].state)
  }

  lemma OtherLeavesRefunds(b: Books, s: OtherStep, id: TxnId)
    requires id in b.tables.rows && NotARefundOf(s, id)
    ensures LeavesRefunds(b, OtherDoes(b, s), id)
  {
    if s.StoreRefund? { AmountsForAppend(b.refunds, s.r, id); }
  }

  lemma {:induction false} OthersLeaveRefunds(b: Books, steps: seq<OtherStep>, id: TxnId)
    requires id in b.tables.rows
    requires forall j :: 0 <= j < |steps| ==> NotARefundOf(steps[j], id)
    ensures LeavesRefunds(b, OthersDo(b, steps), id)
    decreases |steps|
  {
    if steps != [] {
      OtherLeavesRefunds(b, steps[0], id);
      OthersLeaveRefunds(OtherDoes(b, steps[0]), steps[1..], id);
    }
  }

  // A call that stored its total and then failed to store its row.
  predicate RowLost(result: Result<(), CallError>, landed: Landed, amount: int) {
    result == Err(WriteFailed) && landed == TotalLands && amount != 0
  }

  // One refund call, with anything but refunds of the same transaction interleaved: a call that
  // gets to its writes is the first to do so and writes exactly its own amount, every other one
  // writes nothing. The books balance afterwards if they did before, except when its row is lost.
  lemma RefundCallConserves(b: Books, id: TxnId, amount: int, reply: RefundReply, landed: Landed, others: seq<seq<OtherStep>>)
    requires |others| == 4 && NoOverlap(others, id) && RefundedOnce(b, id)
    ensures var out := RefundCall(b, id, amount, reply, landed, others);
            && RefundedOnce(out.books, id)
            && (out.result in {Ok(()), Err(WriteFailed)} ==>
                  && NothingRefunded(b, id) && (out.result.Ok? <==> landed == BothLand)
                  && WritesLanded(out.books, id, amount, landed))
            && (out.result !in {Ok(()), Err(WriteFailed)} ==>
                  && AmountsFor(out.books.refunds, id) == AmountsFor(b.refunds, id)
                  && out.books.tables.rows[id].refundedPaise == b.tables.rows[id].refundedPaise)
            && (Balanced(out.books, id) <==> Balanced(b, id) && !RowLost(out.result, landed, amount))
  {
    var b1 := OthersDo(b, others[0]);
    OthersLeaveRefunds(b, others[0], id);
    var t1 := Transitioned(b1.tables, id, RefundInitiated, None);
    if t1.Ok? {
      RefundableUntouched(b1.tables.rows[id].state);
      assert NothingRefunded(b, id);
      SentRefundConserves(b1.(tables := t1.value), id, amount, reply, landed, others);
    }
  }

  // What the last two writes of a refund leave, as far as they succeeded.
  ghost predicate WritesLanded(b: Books, id: TxnId, amount: int, landed: Landed)
    requires id in b.tables.rows
  {
    && b.tables.rows[id].refundedPaise == (if landed == NothingLands then 0 else amount)
    && AmountsFor(b.refunds, id) == (if landed == BothLand then [amount] else [])
    && (Balanced(b, id) <==> landed != TotalLands || amount == 0)
  }

  lemma SentRefundConserves(b: Books, id: TxnId, amount: int, reply: RefundReply, landed: Landed, others: seq<seq<OtherStep>>)
    requires |others| == 4 && NoOverlap(others, id) && id in b.tables.rows && NothingRefunded(b, id)
    ensures var out := RefundSent(b, id, amount, amount, reply, landed, others);
            && RefundedOnce(out.books, id)
            && (if out.result in {Ok(()), Err(WriteFailed)}
                then WritesLanded(out.books, id, amount, landed) && (out.result.Ok? <==> landed == BothLand)
                else NothingRefunded(out.books, id))
  {
    OthersLeaveRefunds(b, others[1], id);
    if reply.RefundReplied? {
      RefundSettles(OthersDo(b, others[1]), id, amount, reply, landed, others[2], others[3]);
    }
  }

  lemma RefundableUntouched(s: State)
    requires s == RefundInitiated || CanTransition(s, RefundInitiated)
    ensures s !in {Refunded, PartiallyRefunded}
  {
  }

  lemma RefundSettles(b: Books, id: TxnId, amount: int, reply: RefundReply, landed: Landed,
                      before: seq<OtherStep>, between: seq<OtherStep>)
    requires reply.RefundReplied? && id in b.tables.rows && NothingRefunded(b, id)
    requires forall j :: 0 <= j < |before| ==> NotARefundOf(before[j], id)
    requires forall j :: 0 <= j < |between| ==> NotARefundOf(between[j], id)
    ensures var out := RefundSettled(b, id, amount, amount, reply, landed, before, between);
            && RefundedOnce(out.books, id)
            && (if out.result in {Ok(()), Err(WriteFailed)}
                then WritesLanded(out.books, id, amount, landed) && (out.result.Ok? <==> landed == BothLand)
                else NothingRefunded(out.books, id))
  {
    var t := Transitioned(b.tables, id, RefundTarget(reply.status), reply.reference);
    assert Sum([amount]) == amount;
    if t.Ok? {
      assert t.value.rows[id].state == RefundTarget(reply.status);
      var b3 := OthersDo(b.(tables := t.value), before);
      OthersLeaveRefunds(b.(tables := t.value), before, id);
      var b3' := OtherDoes(b3, Table(SetRefunded(id, amount)));
      var b4 := OthersDo(b3', between);
      OthersLeaveRefunds(b3', between, id);
      AmountsForAppend(b4.refunds, Refund(id, amount), id);
    }
  }

  datatype RefundRequest = RefundRequest(amountPaise: int, reply: RefundReply, landed: Landed, others: seq<seq<OtherStep>>,
                                         afterwards: seq<OtherStep>)

  ghost predicate Separate(calls: seq<RefundRequest>, id: TxnId) {
    forall i :: 0 <= i < |calls| ==>
                  && |calls[i].others| == 4 && NoOverlap(calls[i].others, id)
                  && (forall j :: 0 <= j < |calls[i].afterwards| ==> NotARefundOf(calls[i].afterwards[j], id))
  }

  // The refund calls on one transaction in turn, never overlapping, with everyone else's steps
  // inside and between them.
  function RefundCalls(b: Books, id: TxnId, calls: seq<RefundRequest>): Books
    requires forall i :: 0 <= i < |calls| ==> |calls[i].others| == 4
    decreases |calls|, 1
  {
    if calls == [] then b
    else OthersDo(LastCall(b, id, calls).books, calls[|calls| - 1].afterwards)
  }

  function LastCall(b: Books, id: TxnId, calls: seq<RefundRequest>): CallOutcome
    requires calls != [] && forall i :: 0 <= i < |calls| ==> |calls[i].others| == 4
    decreases |calls|, 0
  {
    var last := calls[|calls| - 1];
    RefundCall(RefundCalls(b, id, calls[..|calls| - 1]), id, last.amountPaise, last.reply, last.landed, last.others)
  }

  // Some call of the sequence stored its total and lost its row.
  ghost predicate SomeRowLost(b: Books, id: TxnId, calls: seq<RefundRequest>)
    requires forall i :: 0 <= i < |calls| ==> |calls[i].others| == 4
  {
    calls != [] &&
    (var last := calls[|calls| - 1];
     SomeRowLost(b, id, calls[..|calls| - 1]) || RowLost(LastCall(b, id, calls).result, last.landed, last.amountPaise))
  }

  // For any such sequence at most one refund row is ever stored, and whenever no refund call is
  // running refundedPaise equals the sum of the stored rows if and only if no call lost its row.
  lemma {:induction false} RefundConservation(b: Books, id: TxnId, calls: seq<RefundRequest>)
    requires Separate(calls, id) && id in b.tables.rows && NothingRefunded(b, id)
    ensures var b' := RefundCalls(b, id, calls);
            && RefundedOnce(b', id)
            && |AmountsFor(b'.refunds, id)| <= 1
            && (b'.tables.rows[id].refundedPaise == Sum(AmountsFor(b'.refunds, id)) <==> !SomeRowLost(b, id, calls))
    decreases |calls|
  {
    if calls != [] {
      var init, last := calls[..|calls| - 1], calls[|calls| - 1];
      RefundConservation(b, id, init);
      RefundCallConserves(RefundCalls(b, id, init), id, last.amountPaise, last.reply, last.landed, last.others);
      OthersLeaveRefunds(LastCall(b, id, calls).books, last.afterwards, id);
    }
  }

  // A row is lost, for instance, by a first refund of anything whose row the database refuses, as
  // it does an idempotency key of more than 255 characters: the transaction is refunded for good
  // and the rows show nothing.
  lemma RefusedRowUnbalances(b: Books, id: TxnId, amount: int, status: GatewayRefundStatus, reference: Option<Reference>)
    requires id in b.tables.rows && b.tables.rows[id].state == Captured && NothingRefunded(b, id)
    ensures var out := RefundCall(b, id, amount, RefundReplied(status, reference), TotalLands, [[], [], [], []]);
            && out.result == Err(WriteFailed) && id in out.books.tables.rows
            && out.books.tables.rows[id].state == RefundTarget(status) && out.books.tables.rows[id].state in TERMINAL_STATES
            && out.books.tables.rows[id].refundedPaise == amount && AmountsFor(out.books.refunds, id) == []
            && (Balanced(out.books, id) <==> amount == 0)
  {
    var t := Transitioned(b.tables, id, RefundInitiated, None);
    assert t.Ok? && t.value.rows[id].state == RefundInitiated;
  }

  // What is left of a refund call that passed the gateway: its remaining database transactions.
  function FinishesRefund(id: TxnId, amount: int, status: GatewayRefundStatus): seq<OtherStep> {
    [Table(Move(id, RefundTarget(status), None)), Table(SetRefunded(id, amount)), StoreRefund(Refund(id, amount))]
  }

  lemma FirstCallFinishes(b: Books, id: TxnId, first: int, status: GatewayRefundStatus)
    requires id in b.tables.rows && b.tables.rows[id].state == RefundInitiated && AmountsFor(b.refunds, id) == []
    ensures var b' := OthersDo(b, FinishesRefund(id, first, status));
            && id in b'.tables.rows && b'.tables.rows[id].state == RefundTarget(status)
            && b'.tables.rows[id].refundedPaise == first && AmountsFor(b'.refunds, id) == [first]
  {
    OthersDoThree(b, Table(Move(id, RefundTarget(status), None)), Table(SetRefunded(id, first)), StoreRefund(Refund(id, first)));
    FinishingSteps(b, id, first, status);
  }

  lemma FinishingSteps(b: Books, id: TxnId, first: int, status: GatewayRefundStatus)
    requires id in b.tables.rows && b.tables.rows[id].state == RefundInitiated && AmountsFor(b.refunds, id) == []
    ensures var b1 := OtherDoes(b, Table(Move(id, RefundTarget(status), None)));
            var b' := OtherDoes(OtherDoes(b1, Table(SetRefunded(id, first))), StoreRefund(Refund(id, first)));
            && id in b'.tables.rows && b'.tables.rows[id].state == RefundTarget(status)
            && b'.tables.rows[id].refundedPaise == first && AmountsFor(b'.refunds, id) == [first]
  {
    AmountsForAppend(b.refunds, Refund(id, first), id);
  }

  lemma OthersDoThree(b: Books, x: OtherStep, y: OtherStep, z: OtherStep)
    ensures OthersDo(b, [x, y, z]) == OtherDoes(OtherDoes(OtherDoes(b, x), y), z)
  {
    assert [x, y, z][1..] == [y, z] && [y, z][1..] == [z] && [z][1..] == [];
    assert OthersDo(OtherDoes(OtherDoes(b, x), y), [z]) == OtherDoes(OtherDoes(OtherDoes(b, x), y), z);
    assert OthersDo(OtherDoes(b, x), [y, z]) == OthersDo(OtherDoes(OtherDoes(b, x), y), [z]);
  }

  lemma SumOfTwo(x: int, y: int)
    ensures Sum([x, y]) == x + y
  {
    assert [x, y][1..] == [y] && [y][1..] == [];
    assert Sum([y]) == y;
  }

  // Without the no-overlap proviso conservation can fail: a second call that passes the duplicate
  // REFUND_INITIATED check while the first is at the gateway stores a second row and overwrites
  // the total, unless the gateway answers it with the other kind of refund.
  lemma OverlappingRefundsLoseMoney(b: Books, id: TxnId, first: int, status1: GatewayRefundStatus, second: int, status2: GatewayRefundStatus)
    requires id in b.tables.rows && b.tables.rows[id].state == RefundInitiated && NothingRefunded(b, id)
    ensures var out := RefundCall(b, id, second, RefundReplied(status2, None), BothLand, [[], FinishesRefund(id, first, status1), [], []]);
            && id in out.books.tables.rows
            && (out.result.Ok? <==> RefundTarget(status1) == RefundTarget(status2))
            && (out.result.Ok? ==> AmountsFor(out.books.refunds, id) == [first, second] && out.books.tables.rows[id].refundedPaise == second)
            && (Balanced(out.books, id) <==> first == 0 || RefundTarget(status1) != RefundTarget(status2))
  {
    FirstCallFinishes(b, id, first, status1);
    var b' := OthersDo(b, FinishesRefund(id, first, status1));
    var others := [[], FinishesRefund(id, first, status1), [], []];
    assert RefundCall(b, id, second, RefundReplied(status2, None), BothLand, others)
        == RefundSettled(b', id, second, second, RefundReplied(status2, None), BothLand, [], []);
    SecondCallSettles(b', id, first, second, status2);
  }

  lemma SecondCallSettles(b: Books, id: TxnId, first: int, second: int, status: GatewayRefundStatus)
    requires id in b.tables.rows && b.tables.rows[id].state in {Refunded, PartiallyRefunded}
    requires b.tables.rows[id].refundedPaise == first && AmountsFor(b.refunds, id) == [first]
    ensures var out := RefundSettled(b, id, second, second, RefundReplied(status, None), BothLand, [], []);
            && id in out.books.tables.rows
            && (out.result.Ok? <==> b.tables.rows[id].state == RefundTarget(status))
            && (out.result.Ok? ==> AmountsFor(out.books.refunds, id) == [first, second] && out.books.tables.rows[id].refundedPaise == second)
            && (Balanced(out.books, id) <==> first == 0 || out.result.Err?)
  {
    AmountsForAppend(b.refunds, Refund(id, second), id);
    SumOfTwo(first, second);
    assert Sum([first]) == first;
  }

  // ---------------------------------------------------------------- captures and voids

  // With no one else at work: which states accept a capture, where it leads, and what is recorded.
  lemma CaptureAlone(b: Books, id: TxnId, captured: int, reference: Option<Reference>)
    requires id in b.tables.rows
    ensures var out := CaptureCall(b, id, CaptureReplied(captured, reference), [[], [], []]);
            var row := b.tables.rows[id];
            && (out.result.Ok? <==> row.state in {Authorised, PartiallyCaptured, CaptureFailed, VoidInitiated, CaptureInitiated})
            && (out.result.Ok? ==>
                  && id in out.books.tables.rows
                  && out.books.tables.rows[id].state == (if captured < row.amountPaise then PartiallyCaptured else Captured)
                  && out.books.tables.rows[id].capturedPaise == captured
                  && out.books.tables.rows[id].amountPaise == row.amountPaise)
            && (out.result.Err? ==> out.books == b)
  {
    var row := b.tables.rows[id];
    assert CanTransition(row.state, CaptureInitiated) <==>
           row.state in {Authorised, PartiallyCaptured, CaptureFailed, VoidInitiated};
  }

  // A capture whose gateway call throws: accepted by the same states, it ends in CAPTURE_FAILED,
  // records nothing, and can be tried again.
  lemma ThrownCaptureAlone(b: Books, id: TxnId, captured: int, reference: Option<Reference>)
    requires id in b.tables.rows
    ensures var out := CaptureCall(b, id, CaptureThrew, [[], [], []]);
            var row := b.tables.rows[id];
            if row.state in {Authorised, PartiallyCaptured, CaptureFailed, VoidInitiated, CaptureInitiated} then
              && out.result == Err(GatewayFailed) && id in out.books.tables.rows
              && out.books.tables.rows[id].state == CaptureFailed
              && out.books.tables.rows[id].capturedPaise == row.capturedPaise && out.books.refunds == b.refunds
              && CaptureCall(out.books, id, CaptureReplied(captured, reference), [[], [], []]).result.Ok?
            else out.result.Err? && out.books == b
  {
    var row := b.tables.rows[id];
    assert CanTransition(row.state, CaptureInitiated) <==>
           row.state in {Authorised, PartiallyCaptured, CaptureFailed, VoidInitiated};
    CaptureAlone(CaptureCall(b, id, CaptureThrew, [[], [], []]).books, id, captured, reference);
  }

  // Capturing in parts: each answer overwrites the last, so the recorded amount is the sum of the
  // two captures only if the first captured nothing, and the payment is CAPTURED only if the
  // second answer alone covers the amount.
  lemma SecondCaptureOverwrites(b: Books, id: TxnId, first: int, second: int)
    requires id in b.tables.rows && b.tables.rows[id].state == Authorised && first < b.tables.rows[id].amountPaise
    ensures var b1 := CaptureCall(b, id, CaptureReplied(first, None), [[], [], []]).books;
            var out := CaptureCall(b1, id, CaptureReplied(second, None), [[], [], []]);
            && out.result.Ok? && id in out.books.tables.rows
            && (out.books.tables.rows[id].capturedPaise == first + second <==> first == 0)
            && (out.books.tables.rows[id].state == Captured <==> second >= b.tables.rows[id].amountPaise)
  {
    CaptureAlone(b, id, first, None);
    CaptureAlone(CaptureCall(b, id, CaptureReplied(first, None), [[], [], []]).books, id, second, None);
  }

  lemma VoidLeaves(b: Books, id: TxnId, threw: bool)
    requires id in b.tables.rows && b.tables.rows[id].state in {Authorised, CaptureFailed, VoidInitiated}
    ensures var out := VoidCall(b, id, threw, [[], []]);
            && id in out.books.tables.rows
            && out.books.tables.rows[id].state == if threw then CaptureInitiated else Voided
  {
    var t := Transitioned(b.tables, id, VoidInitiated, None);
    assert t.Ok? && t.value.rows[id].state == VoidInitiated;
  }

  // A void that threw hands an authorised payment back to the capture path, and that path can
  // still complete it; one that did not throw ends it for good.
  lemma VoidAlone(b: Books, id: TxnId, threw: bool, captured: int, reference: Option<Reference>)
    requires id in b.tables.rows && b.tables.rows[id].state in {Authorised, CaptureFailed, VoidInitiated}
    ensures var out := VoidCall(b, id, threw, [[], []]);
            && id in out.books.tables.rows
            && out.books.tables.rows[id].state == (if threw then CaptureInitiated else Voided)
            && (CaptureCall(out.books, id, CaptureReplied(captured, reference), [[], [], []]).result.Ok? <==> threw)
  {
    VoidLeaves(b, id, threw);
    CaptureAlone(VoidCall(b, id, threw, [[], []]).books, id, captured, reference);
  }
}
