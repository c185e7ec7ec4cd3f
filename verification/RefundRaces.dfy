// Refund calls on one transaction that overlap in any way: when the books still balance.
module RefundRaces {
  import opened Wrappers
  import opened StateGraph
  import opened TransactionStore
  import opened Payments

  type CallId = nat

  // Where a call stands. `base` is the refunded total it read at the start.
  datatype Pc =
    | HasRead(base: int)
    | AtGateway(base: int) // past REFUND_INITIATED
    | Answered(base: int) // the answer is applied, nothing written yet
    | Written // the total is written, the row is not
    | Stored
    | RowRefused // the total is written and the row will never be
    | Ended // without having written anything

  datatype Call = Call(amount: int, pc: Pc)

  // `writers` are the calls that wrote their total, in that order.
  datatype World = World(txn: Txn, rows: seq<CallId>, writers: seq<CallId>, calls: map<CallId, Call>)

  datatype RaceStep =
    | Begin(c: CallId, amount: int)
    | Initiate(c: CallId)
    | Answer(c: CallId, reply: RefundReply)
    | WriteTotal(c: CallId, lands: bool)
    | StoreRow(c: CallId, lands: bool)
    | OtherMove(to: State) // webhooks, reconciliation, captures and voids
    | OtherCapture(paise: int)

  function At(w: World, c: CallId, pc: Pc): World
    requires c in w.calls
  {
    w.(calls := w.calls[c := w.calls[c].(pc := pc)])
  }

  // The transition a gateway's answer leads to.
  function Outcome(reply: RefundReply): State {
    if reply.RefundThrew? then RefundFailed else RefundTarget(reply.status)
  }

  function RaceNext(w: World, step: RaceStep): World {
    match step
    case Begin(c, amount) =>
      if c in w.calls then w else w.(calls := w.calls[c := Call(amount, HasRead(w.txn.refundedPaise))])
    case Initiate(c) =>
      if c !in w.calls || !w.calls[c].pc.HasRead? then w
      else if w.txn.Moved(RefundInitiated).None? then At(w, c, Ended)
      else At(w.(txn := w.txn.MovedOrSame(RefundInitiated)), c, AtGateway(w.calls[c].pc.base))
    case Answer(c, reply) =>
      if c !in w.calls || !w.calls[c].pc.AtGateway? then w
      else At(w.(txn := w.txn.MovedOrSame(Outcome(reply))), c,
              if reply.RefundThrew? || w.txn.Moved(Outcome(reply)).None? then Ended else Answered(w.calls[c].pc.base))
    case WriteTotal(c, lands) =>
      if c !in w.calls || !w.calls[c].pc.Answered? then w
      else if !lands then At(w, c, Ended)
      else At(w.(txn := w.txn.(refundedPaise := w.calls[c].pc.base + w.calls[c].amount), writers := w.writers + [c]), c, Written)
    case StoreRow(c, lands) =>
      if c !in w.calls || !w.calls[c].pc.Written? then w
      else if !lands then At(w, c, RowRefused)
      else At(w.(rows := w.rows + [c]), c, Stored)
    case OtherMove(to) => w.(txn := w.txn.MovedOrSame(to))
    case OtherCapture(paise) => w.(txn := w.txn.(capturedPaise := paise))
  }

  function RaceRun(w: World, steps: seq<RaceStep>): World {
    if steps == [] then w else RaceNext(RaceRun(w, steps[..|steps| - 1]), steps[|steps| - 1])
  }

  function BeforeRefunds(txn: Txn): World {
    World(txn, [], [], map[])
  }

  // ---------------------------------------------------------------- invariant

  const REFUNDED_STATES: set<State> := {Refunded, PartiallyRefunded}

  ghost predicate Distinct(s: seq<CallId>) {
    forall i, j :: 0 <= i < j < |s| ==> s[i] != s[j]
  }

  predicate HasWritten(pc: Pc) {
    pc.Written? || pc.Stored? || pc.RowRefused?
  }

  ghost predicate CallInv(w: World, call: Call) {
    match call.pc
    case HasRead(base) => base == 0 || w.txn.state in REFUNDED_STATES
    case AtGateway(base) => base == 0
    case Answered(base) => base == 0 && w.txn.state in REFUNDED_STATES
    case Ended => true
    case _ => w.txn.state in REFUNDED_STATES
  }

  ghost predicate RaceInv(w: World) {
    && Distinct(w.rows) && Distinct(w.writers)
    && (forall c :: c in w.rows <==> c in w.calls && w.calls[c].pc.Stored?)
    && (forall c :: c in w.writers <==> c in w.calls && HasWritten(w.calls[c].pc))
    && (forall c :: c in w.calls ==> CallInv(w, w.calls[c]))
    && (w.writers == [] ==> w.txn.refundedPaise == 0)
    && (w.writers != [] ==> w.txn.refundedPaise == w.calls[w.writers[|w.writers| - 1]].amount)
  }

  // No transition leaves a refunded state.
  lemma RefundedStays(t: Txn, to: State)
    ensures t.state in REFUNDED_STATES ==> t.MovedOrSame(to) == t
    ensures t.state in REFUNDED_STATES ==> t.Moved(RefundInitiated).None?
    ensures t.Moved(to).Some? ==> t.MovedOrSame(to).state == to
    ensures t.MovedOrSame(to).refundedPaise == t.refundedPaise
  {
  }

  // One call's own step, seen from the others: it may move the transaction along and change
  // nothing they rely on.
  lemma OwnStepKeepsInv(w: World, c: CallId, txn: Txn, pc: Pc)
    requires RaceInv(w) && c in w.calls
    requires txn.refundedPaise == w.txn.refundedPaise && (w.txn.state in REFUNDED_STATES ==> txn.state == w.txn.state)
    requires !HasWritten(w.calls[c].pc) && !HasWritten(pc)
    requires CallInv(w.(txn := txn), w.calls[c].(pc := pc))
    ensures RaceInv(At(w.(txn := txn), c, pc))
  {
    var w' := At(w.(txn := txn), c, pc);
    forall d | d in w'.calls ensures CallInv(w', w'.calls[d]) {
      assert CallInv(w, w.calls[d]);
    }
  }

  lemma WriteKeepsInv(w: World, c: CallId)
    requires RaceInv(w) && c in w.calls && w.calls[c].pc.Answered?
    ensures RaceInv(RaceNext(w, WriteTotal(c, true)))
  {
    var w' := RaceNext(w, WriteTotal(c, true));
    assert CallInv(w, w.calls[c]);
    forall d | d in w'.calls ensures CallInv(w', w'.calls[d]) {
      assert CallInv(w, w.calls[d]);
    }
  }

  lemma StoreKeepsInv(w: World, c: CallId, lands: bool)
    requires RaceInv(w) && c in w.calls && w.calls[c].pc.Written?
    ensures RaceInv(RaceNext(w, StoreRow(c, lands)))
  {
    var w' := RaceNext(w, StoreRow(c, lands));
    forall d | d in w'.calls ensures CallInv(w', w'.calls[d]) {
      assert CallInv(w, w.calls[d]);
    }
  }

  lemma CallStepKeepsInv(w: World, step: RaceStep)
    requires RaceInv(w) && (step.Initiate? || step.Answer? || step.WriteTotal? || step.StoreRow?)
    ensures RaceInv(RaceNext(w, step))
  {
    if step.c in w.calls {
      var call := w.calls[step.c];
      assert CallInv(w, call);
      match step
      case Initiate(c) =>
        RefundedStays(w.txn, RefundInitiated);
        if call.pc.HasRead? {
          if w.txn.Moved(RefundInitiated).None? { OwnStepKeepsInv(w, c, w.txn, Ended); }
          else { OwnStepKeepsInv(w, c, w.txn.MovedOrSame(RefundInitiated), AtGateway(call.pc.base)); }
        }
      case Answer(c, reply) =>
        RefundedStays(w.txn, Outcome(reply));
        if call.pc.AtGateway? {
          OwnStepKeepsInv(w, c, w.txn.MovedOrSame(Outcome(reply)),
                          if reply.RefundThrew? || w.txn.Moved(Outcome(reply)).None? then Ended else Answered(call.pc.base));
        }
      case WriteTotal(c, lands) =>
        if call.pc.Answered? {
          if lands { WriteKeepsInv(w, c); } else { OwnStepKeepsInv(w, c, w.txn, Ended); }
        }
      case StoreRow(c, lands) =>
        if call.pc.Written? { StoreKeepsInv(w, c, lands); }
    }
  }

  lemma RaceStepKeepsInv(w: World, step: RaceStep)
    requires RaceInv(w)
    ensures RaceInv(RaceNext(w, step))
  {
    match step
    case Begin(c, amount) =>
    case OtherMove(to) =>
      RefundedStays(w.txn, to);
      forall c | c in w.calls ensures CallInv(RaceNext(w, step), w.calls[c]) {
        assert CallInv(w, w.calls[c]);
      }
    case OtherCapture(paise) =>
      forall c | c in w.calls ensures CallInv(RaceNext(w, step), w.calls[c]) {
        assert CallInv(w, w.calls[c]);
      }
    case _ => CallStepKeepsInv(w, step);
  }

  lemma {:induction false} RaceInvAlways(txn: Txn, steps: seq<RaceStep>)
    requires txn.refundedPaise == 0
    ensures RaceInv(RaceRun(BeforeRefunds(txn), steps))
    decreases |steps|
  {
    if steps != [] {
      RaceInvAlways(txn, steps[..|steps| - 1]);
      RaceStepKeepsInv(RaceRun(BeforeRefunds(txn), steps[..|steps| - 1]), steps[|steps| - 1]);
    }
  }

  // ---------------------------------------------------------------- sums

  function Amounts(calls: map<CallId, Call>, ids: seq<CallId>): (r: seq<int>)
    requires forall c :: c in ids ==> c in calls
    ensures |r| == |ids| && forall i :: 0 <= i < |ids| ==> r[i] == calls[ids[i]].amount
  {
    seq(|ids|, i requires 0 <= i < |ids| => calls[ids[i]].amount)
  }

  lemma {:induction false} SumAtLeast(amounts: seq<int>, i: nat)
    requires i < |amounts| && forall k :: 0 <= k < |amounts| ==> amounts[k] > 0
    ensures Sum(amounts) >= amounts[i]
    ensures |amounts| >= 2 ==> Sum(amounts) > amounts[i]
    decreases |amounts|
  {
    if |amounts| >= 2 {
      SumAtLeast(amounts[1..], if i == 0 then 0 else i - 1);
    }
  }

  lemma {:induction false} DistinctCounts(s: seq<CallId>, elements: set<CallId>)
    requires Distinct(s) && forall c :: c in s <==> c in elements
    ensures |elements| == |s|
    decreases |s|
  {
    if s == [] {
      assert elements == {};
    } else {
      var init, last := s[..|s| - 1], s[|s| - 1];
      forall c ensures c in init <==> c in elements - {last} {
        assert c in s <==> c in init || c == last;
      }
      DistinctCounts(init, elements - {last});
    }
  }

  // ---------------------------------------------------------------- theorems

  ghost predicate Balanced(w: World)
    requires RaceInv(w)
  {
    w.txn.refundedPaise == Sum(Amounts(w.calls, w.rows))
  }

  // No call is between its two writes, and every amount is one the service accepts.
  ghost predicate AtRest(w: World) {
    forall c :: c in w.calls ==> !w.calls[c].pc.Written? && w.calls[c].amount > 0
  }

  ghost predicate EveryRowStored(w: World) {
    forall c :: c in w.calls ==> !w.calls[c].pc.RowRefused?
  }

  lemma BalanceOfOne(w: World)
    requires RaceInv(w) && AtRest(w) && |w.writers| <= 1
    ensures Balanced(w) <==> EveryRowStored(w)
  {
    var wrote, stored := set c | c in w.writers, set c | c in w.rows;
    DistinctCounts(w.writers, wrote);
    DistinctCounts(w.rows, stored);
    forall c | c in w.calls && HasWritten(w.calls[c].pc) ensures c in w.writers {}
    if |w.writers| == 1 {
      var c := w.writers[0];
      assert c in w.writers && wrote == {c};
      if w.calls[c].pc.Stored? {
        assert c in w.rows && stored == {c};
        assert w.rows == [c];
        assert Sum(Amounts(w.calls, w.rows)) == w.calls[c].amount;
      } else {
        assert stored == {};
      }
    } else {
      assert wrote == {} && stored == {};
    }
  }

  lemma BalanceOfStored(w: World)
    requires RaceInv(w) && AtRest(w) && EveryRowStored(w)
    ensures Balanced(w) <==> |w.writers| <= 1
  {
    forall c ensures c in w.rows <==> c in w.writers {}
    var elements := set c | c in w.writers;
    DistinctCounts(w.rows, elements);
    DistinctCounts(w.writers, elements);
    if |w.writers| <= 1 {
      BalanceOfOne(w);
    } else {
      var last := w.writers[|w.writers| - 1];
      assert last in w.rows;
      var i :| 0 <= i < |w.rows| && w.rows[i] == last;
      forall k | 0 <= k < |w.rows| ensures Amounts(w.calls, w.rows)[k] > 0 {
        assert w.rows[k] in w.rows;
      }
      SumAtLeast(Amounts(w.calls, w.rows), i);
    }
  }

  // Any number of refund calls on one transaction, overlapping each other and everyone else in
  // any way. Between writes the books balance exactly as long as at most one call has written a
  // total, if every row is stored, and exactly as long as every row is stored, if there was at
  // most one.
  lemma RacingRefundsBalanceExactly(txn: Txn, steps: seq<RaceStep>)
    requires txn.refundedPaise == 0 && AtRest(RaceRun(BeforeRefunds(txn), steps))
    ensures var w := RaceRun(BeforeRefunds(txn), steps);
            && RaceInv(w)
            && (EveryRowStored(w) ==> (Balanced(w) <==> |w.writers| <= 1))
            && (|w.writers| <= 1 ==> (Balanced(w) <==> EveryRowStored(w)))
  {
    RaceInvAlways(txn, steps);
    var w := RaceRun(BeforeRefunds(txn), steps);
    if |w.writers| <= 1 { BalanceOfOne(w); }
    if EveryRowStored(w) { BalanceOfStored(w); }
  }

  // ---------------------------------------------------------------- two calls at the gateway

  // The next step of a call whose writes succeed.
  function Progress(w: World, c: CallId, reply: RefundReply): World
    requires c in w.calls
  {
    match w.calls[c].pc
    case AtGateway(_) => RaceNext(w, Answer(c, reply))
    case Answered(_) => RaceNext(w, WriteTotal(c, true))
    case Written => RaceNext(w, StoreRow(c, true))
    case _ => w
  }

  predicate Over(pc: Pc) {
    pc.Stored? || pc.RowRefused? || pc.Ended?
  }

  // A schedule names the call that moves next.
  function Scheduled(w: World, schedule: seq<CallId>, replies: CallId -> RefundReply): (r: World)
    requires forall c :: c in schedule ==> c in w.calls
    ensures r.calls.Keys == w.calls.Keys
  {
    if schedule == [] then w
    else
      var init, last := schedule[..|schedule| - 1], schedule[|schedule| - 1];
      assert last in schedule;
      Progress(Scheduled(w, init, replies), last, replies(last))
  }

  function BothAtGateway(txn: Txn, a: CallId, x: int, b: CallId, y: int): World {
    World(txn, [], [], map[a := Call(x, AtGateway(0)), b := Call(y, AtGateway(0))])
  }

  // What one of the two calls has come to, given the transaction's state.
  ghost predicate Consequent(pc: Pc, reply: RefundReply, state: State) {
    match pc
    case AtGateway(_) => true
    case Answered(_) => reply.RefundReplied? && Outcome(reply) == state
    case Written => reply.RefundReplied? && Outcome(reply) == state
    case Stored => reply.RefundReplied? && Outcome(reply) == state
    case Ended => reply.RefundThrew? || Outcome(reply) != state
    case _ => false
  }

  ghost predicate TwoInv(w: World, a: CallId, x: int, b: CallId, y: int, replies: CallId -> RefundReply) {
    && w.calls.Keys == {a, b}
    && w.calls[a].amount == x && w.calls[b].amount == y
    && Consequent(w.calls[a].pc, replies(a), w.txn.state) && Consequent(w.calls[b].pc, replies(b), w.txn.state)
    && (w.txn.state == RefundInitiated ==> w.calls[a].pc.AtGateway? && w.calls[b].pc.AtGateway?)
    && w.txn.state in {RefundInitiated, Outcome(replies(a)), Outcome(replies(b))}
  }

  lemma MoveKeepsTwoInv(w: World, w': World, a: CallId, x: int, b: CallId, y: int, replies: CallId -> RefundReply, c: CallId)
    requires TwoInv(w, a, x, b, y, replies) && c in {a, b}
    requires c in w'.calls && w'.calls == w.calls[c := w'.calls[c]] && w'.calls[c].amount == w.calls[c].amount
    requires !w'.calls[c].pc.AtGateway? && Consequent(w'.calls[c].pc, replies(c), w'.txn.state)
    requires w'.txn.state == if w.txn.state == RefundInitiated then Outcome(replies(c)) else w.txn.state
    ensures TwoInv(w', a, x, b, y, replies)
  {
    assert w'.calls.Keys == w.calls.Keys;
  }

  lemma ProgressKeepsTwoInv(w: World, a: CallId, x: int, b: CallId, y: int, replies: CallId -> RefundReply, c: CallId)
    requires TwoInv(w, a, x, b, y, replies) && c in {a, b}
    ensures TwoInv(Progress(w, c, replies(c)), a, x, b, y, replies)
  {
    AnswerDecides(w.txn, replies(c));
    if w.calls[c].pc.AtGateway? || w.calls[c].pc.Answered? || w.calls[c].pc.Written? {
      MoveKeepsTwoInv(w, Progress(w, c, replies(c)), a, x, b, y, replies, c);
    }
  }

  // From REFUND_INITIATED the first answer decides; from then on only an equal one is accepted.
  lemma AnswerDecides(txn: Txn, reply: RefundReply)
    requires txn.state in {RefundInitiated, RefundFailed, Refunded, PartiallyRefunded}
    ensures txn.Moved(Outcome(reply)).Some? <==> txn.state in {RefundInitiated, Outcome(reply)}
    ensures txn.state != RefundInitiated ==> txn.MovedOrSame(Outcome(reply)) == txn
    ensures txn.state == RefundInitiated ==> txn.MovedOrSame(Outcome(reply)).state == Outcome(reply)
  {
  }

  lemma {:induction false} TwoInvAlways(txn: Txn, a: CallId, x: int, b: CallId, y: int, replies: CallId -> RefundReply, schedule: seq<CallId>)
    requires a != b && txn.state == RefundInitiated && txn.refundedPaise == 0
    requires forall c :: c in schedule ==> c in {a, b}
    ensures TwoInv(Scheduled(BothAtGateway(txn, a, x, b, y), schedule, replies), a, x, b, y, replies)
    ensures RaceInv(Scheduled(BothAtGateway(txn, a, x, b, y), schedule, replies))
    decreases |schedule|
  {
    if schedule != [] {
      var init, last := schedule[..|schedule| - 1], schedule[|schedule| - 1];
      assert last in schedule;
      forall c | c in init ensures c in {a, b} {
        assert c in schedule;
      }
      TwoInvAlways(txn, a, x, b, y, replies, init);
      var w := Scheduled(BothAtGateway(txn, a, x, b, y), init, replies);
      ProgressKeepsTwoInv(w, a, x, b, y, replies, last);
      ProgressKeepsRaceInv(w, last, replies(last));
    }
  }

  lemma ProgressKeepsRaceInv(w: World, c: CallId, reply: RefundReply)
    requires RaceInv(w) && c in w.calls
    ensures RaceInv(Progress(w, c, reply))
  {
    RaceStepKeepsInv(w, Answer(c, reply));
    RaceStepKeepsInv(w, WriteTotal(c, true));
    RaceStepKeepsInv(w, StoreRow(c, true));
  }

  // Two refund calls both past REFUND_INITIATED before either has settled: whatever the schedule
  // and the two answers, once both are over the books balance if and only if the gateway did not
  // answer both with the same kind of refund.
  lemma TwoRefundsBalanceExactly(txn: Txn, a: CallId, x: int, b: CallId, y: int, replies: CallId -> RefundReply, schedule: seq<CallId>)
    requires a != b && x > 0 && y > 0 && txn.state == RefundInitiated && txn.refundedPaise == 0
    requires forall c :: c in schedule ==> c in {a, b}
    requires var w := Scheduled(BothAtGateway(txn, a, x, b, y), schedule, replies);
             Over(w.calls[a].pc) && Over(w.calls[b].pc)
    ensures var w := Scheduled(BothAtGateway(txn, a, x, b, y), schedule, replies);
            && RaceInv(w)
            && (Balanced(w) <==>
                !(replies(a).RefundReplied? && replies(b).RefundReplied?
                  && RefundTarget(replies(a).status) == RefundTarget(replies(b).status)))
            && (!Balanced(w) ==> {a, b} == (set c | c in w.rows) && w.txn.refundedPaise in {x, y})
  {
    var w := Scheduled(BothAtGateway(txn, a, x, b, y), schedule, replies);
    TwoInvAlways(txn, a, x, b, y, replies, schedule);
    TwoOver(w, a, x, b, y, replies);
  }

  lemma TwoOver(w: World, a: CallId, x: int, b: CallId, y: int, replies: CallId -> RefundReply)
    requires RaceInv(w) && TwoInv(w, a, x, b, y, replies) && Over(w.calls[a].pc) && Over(w.calls[b].pc)
    requires a != b && x > 0 && y > 0
    ensures Balanced(w) <==>
            !(replies(a).RefundReplied? && replies(b).RefundReplied?
              && RefundTarget(replies(a).status) == RefundTarget(replies(b).status))
    ensures !Balanced(w) ==> {a, b} == (set c | c in w.rows) && w.txn.refundedPaise in {x, y}
  {
    assert AtRest(w) && EveryRowStored(w);
    BalanceOfStored(w);
    TwoWriters(w, a, b);
    if !Balanced(w) {
      assert w.writers[|w.writers| - 1] in w.writers;
    }
  }

  lemma TwoWriters(w: World, a: CallId, b: CallId)
    requires RaceInv(w) && a != b && w.calls.Keys == {a, b}
    ensures |w.writers| <= 1 <==> !(HasWritten(w.calls[a].pc) && HasWritten(w.calls[b].pc))
  {
    var elements := set c | c in w.writers;
    DistinctCounts(w.writers, elements);
    if HasWritten(w.calls[a].pc) && HasWritten(w.calls[b].pc) {
      assert elements == {a, b};
    } else if HasWritten(w.calls[a].pc) {
      assert elements == {a};
    } else {
      assert elements <= {b};
      assert |elements| <= |{b}| by { if elements != {} { assert elements == {b}; } }
    }
  }

  // ---------------------------------------------------------------- machine and method agree

  function SoloSteps(c: CallId, amount: int, reply: RefundReply, landed: Landed): seq<RaceStep> {
    [Begin(c, amount), Initiate(c), Answer(c, reply), WriteTotal(c, landed != NothingLands), StoreRow(c, landed == BothLand)]
  }

  // The books after a call, and the world, tell the same about its transaction.
  ghost predicate Agrees(out: CallOutcome, w: World, before: seq<Refund>, id: TxnId, c: CallId, amount: int) {
    && id in out.books.tables.rows && w.txn == View(out.books.tables, id)
    && c in w.calls && Over(w.calls[c].pc)
    && (w.calls[c].pc.Stored? <==> out.result.Ok?)
    && out.books.refunds == (if w.calls[c].pc.Stored? then before + [Refund(id, amount)] else before)
  }

  // A call of the machine that is left alone does to its transaction what RefundCall says.
  lemma SoloRefund(b: Books, id: TxnId, c: CallId, amount: int, reply: RefundReply, landed: Landed)
    requires id in b.tables.rows
    ensures Agrees(RefundCall(b, id, amount, reply, landed, QUIET),
                   RaceRun(BeforeRefunds(View(b.tables, id)), SoloSteps(c, amount, reply, landed)), b.refunds, id, c, amount)
  {
    RunOfFive(BeforeRefunds(View(b.tables, id)), c, amount, reply, landed);
    QuietCall(b, id, amount, reply, landed);
    SoloBegun(b, id, c, amount);
    SoloCall(b, id, c, amount, reply, landed, RaceNext(RaceNext(BeforeRefunds(View(b.tables, id)), Begin(c, amount)), Initiate(c)),
             RefundCall(b, id, amount, reply, landed, QUIET));
  }

  lemma SoloCall(b: Books, id: TxnId, c: CallId, amount: int, reply: RefundReply, landed: Landed, w: World, out: CallOutcome)
    requires id in b.tables.rows
    requires Begun(b, id, c, amount, w)
    requires out == AfterInitiation(b, id, amount, reply, landed)
    ensures Agrees(out, AfterGateway(w, c, reply, landed), b.refunds, id, c, amount)
  {
    var t := Transitioned(b.tables, id, RefundInitiated, None);
    if t.Ok? {
      SoloSent(b.(tables := t.value), id, c, amount, b.tables.rows[id].refundedPaise, reply, landed, w);
    } else {
      SoloRejected(b, id, c, amount, reply, landed, w, t.error);
    }
  }

  lemma SoloRejected(b: Books, id: TxnId, c: CallId, amount: int, reply: RefundReply, landed: Landed, w: World, error: TransitionError)
    requires id in b.tables.rows && w.txn == View(b.tables, id) && c in w.calls && w.calls[c].pc.Ended?
    ensures Agrees(CallOutcome(b, Err(CallRejected(error))), AfterGateway(w, c, reply, landed), b.refunds, id, c, amount)
  {
    EndedStays(w, c, reply, landed);
  }

  // An undisturbed call, in two parts.
  function AfterInitiation(b: Books, id: TxnId, amount: int, reply: RefundReply, landed: Landed): CallOutcome
    requires id in b.tables.rows
  {
    var t := Transitioned(b.tables, id, RefundInitiated, None);
    if t.Ok? then RefundSent(b.(tables := t.value), id, b.tables.rows[id].refundedPaise + amount, amount, reply, landed, QUIET)
    else CallOutcome(b, Err(CallRejected(t.error)))
  }

  // Nobody else at work in any of a call's gaps.
  const QUIET: seq<seq<OtherStep>> := [[], [], [], []]

  lemma QuietCall(b: Books, id: TxnId, amount: int, reply: RefundReply, landed: Landed)
    requires id in b.tables.rows
    ensures RefundCall(b, id, amount, reply, landed, QUIET) == AfterInitiation(b, id, amount, reply, landed)
  {
    assert OthersDo(b, QUIET[0]) == b;
  }

  lemma EndedStays(w: World, c: CallId, reply: RefundReply, landed: Landed)
    requires c in w.calls && w.calls[c].pc.Ended?
    ensures AfterGateway(w, c, reply, landed) == w
  {
  }

  // The call has committed REFUND_INITIATED, or has been rejected.
  ghost predicate Begun(b: Books, id: TxnId, c: CallId, amount: int, w: World)
    requires id in b.tables.rows
  {
    var t := Transitioned(b.tables, id, RefundInitiated, None);
    && (t.Ok? ==> id in t.value.rows && w.txn == View(t.value, id)
                  && w.calls == map[c := Call(amount, AtGateway(b.tables.rows[id].refundedPaise))])
    && (t.Err? ==> w.txn == View(b.tables, id) && w.calls == map[c := Call(amount, Ended)])
  }

  lemma SoloBegun(b: Books, id: TxnId, c: CallId, amount: int)
    requires id in b.tables.rows
    ensures Begun(b, id, c, amount, RaceNext(RaceNext(BeforeRefunds(View(b.tables, id)), Begin(c, amount)), Initiate(c)))
  {
    TransitionIsMove(b.tables, id, RefundInitiated, None, id);
  }

  // The steps that follow REFUND_INITIATED.
  function AfterGateway(w: World, c: CallId, reply: RefundReply, landed: Landed): World {
    RaceNext(RaceNext(RaceNext(w, Answer(c, reply)), WriteTotal(c, landed != NothingLands)), StoreRow(c, landed == BothLand))
  }

  lemma RunOfFive(w: World, c: CallId, amount: int, reply: RefundReply, landed: Landed)
    ensures RaceRun(w, SoloSteps(c, amount, reply, landed))
         == AfterGateway(RaceNext(RaceNext(w, Begin(c, amount)), Initiate(c)), c, reply, landed)
  {
    var steps := SoloSteps(c, amount, reply, landed);
    assert steps[..4][..3] == steps[..3] && steps[..3][..2] == steps[..2] && steps[..2][..1] == steps[..1] && steps[..1][..0] == [];
    assert RaceRun(w, steps[..1]) == RaceNext(w, steps[0]);
    assert RaceRun(w, steps[..2]) == RaceNext(RaceRun(w, steps[..1]), steps[1]);
    assert RaceRun(w, steps[..3]) == RaceNext(RaceRun(w, steps[..2]), steps[2]);
    assert RaceRun(w, steps[..4]) == RaceNext(RaceRun(w, steps[..3]), steps[3]);
  }

  lemma SoloSent(b: Books, id: TxnId, c: CallId, amount: int, base: int, reply: RefundReply, landed: Landed, w: World)
    requires id in b.tables.rows && w.txn == View(b.tables, id) && c in w.calls && w.calls[c] == Call(amount, AtGateway(base))
    ensures Agrees(RefundSent(b, id, base + amount, amount, reply, landed, QUIET),
                   AfterGateway(w, c, reply, landed),
                   b.refunds, id, c, amount)
  {
    var reference := if reply.RefundThrew? then None else reply.reference;
    TransitionIsMove(b.tables, id, Outcome(reply), reference, id);
  }
}
