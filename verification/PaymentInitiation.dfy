// initiatePayment(): idempotency key, transaction row and gateway call, with any number of
// calls, retries and purges interleaved.
module PaymentInitiation {
  import opened Wrappers
  import opened Idempotency

  type TxnId = nat

  datatype Request = Request(id: KeyId, order: nat, bodyHash: nat)

  // The columns the two unique indexes are over.
  datatype Payment = Payment(id: KeyId, order: nat)

  datatype GatewayAnswer =
    | Approved(response: Response) // authorised or pending: the key is completed
    | Refused // declined, timed out or failed: the key is marked FAILED
    | Lost // a later step threw: the key is left as it is

  type Payments = map<TxnId, Payment>

  // Same (merchant, idempotency key), or same (merchant, order id).
  predicate SameIndexEntry(p: Payment, q: Payment) {
    p.id == q.id || (p.id.merchant == q.id.merchant && p.order == q.order)
  }

  predicate Clashes(p: Payment, q: Request) {
    SameIndexEntry(p, Payment(q.id, q.order))
  }

  // The unique indexes (merchant, key) and (merchant, order) admit the row.
  predicate Insertable(rows: Payments, q: Request) {
    forall t :: t in rows ==> !Clashes(rows[t], q)
  }

  // A stored payment that does not stand in a request's way: of another merchant, or with another
  // idempotency key and another order.
  predicate IsOther(p: Payment, q: Request) {
    p.id.merchant != q.id.merchant || (p.id.key != q.id.key && p.order != q.order)
  }

  lemma InsertableExactly(rows: Payments, q: Request)
    ensures Insertable(rows, q) <==> forall t :: t in rows ==> IsOther(rows[t], q)
  {
  }

  // Only the rows of the request's own merchant decide.
  lemma OtherMerchantsNeverDecide(rows: Payments, rows': Payments, q: Request)
    requires forall t :: (t in rows && rows[t].id.merchant == q.id.merchant) <==> (t in rows' && rows'[t].id.merchant == q.id.merchant)
    requires forall t :: t in rows && rows[t].id.merchant == q.id.merchant ==> rows'[t] == rows[t]
    ensures Insertable(rows, q) <==> Insertable(rows', q)
  {
  }

  predicate IsOrder(rows: Payments, t: TxnId, q: Request) {
    t in rows && rows[t].id.merchant == q.id.merchant && rows[t].order == q.order
  }

  // ---------------------------------------------------------------- one call on its own

  class PaymentInitiator {
    const idempotency: IdempotencyService
    var rows: Payments
    var authorised: seq<TxnId> // transactions sent to a gateway's authorise, in order

    constructor (idempotency: IdempotencyService)
      ensures this.idempotency == idempotency && rows == map[] && authorised == []
    {
      this.idempotency := idempotency;
      rows, authorised := map[], [];
    }

    // findByMerchantOrderId()
    method FindByOrder(q: Request) returns (found: Option<TxnId>)
      ensures found.Some? ==> IsOrder(rows, found.value, q)
      ensures found.None? ==> forall t :: !IsOrder(rows, t, q)
      ensures found.Some? <==> exists t :: t in rows && rows[t].id.merchant == q.id.merchant && rows[t].order == q.order
    {
      var left := rows.Keys;
      while left != {}
        invariant left <= rows.Keys
        invariant forall t :: t in rows && t !in left ==> !IsOrder(rows, t, q)
        decreases left
      {
        var t :| t in left;
        if IsOrder(rows, t, q) {
          return Some(t);
        }
        left := left - {t};
      }
      return None;
    }

    // `newId` is the id the database generates; `routed` tells whether a gateway was available.
    // None is a thrown exception.
    method InitiatePayment(q: Request, newId: TxnId, routed: bool, answer: GatewayAnswer) returns (r: Option<TxnId>)
      requires newId !in rows
      modifies this, idempotency
      ensures var granted := Acquire(old(idempotency.keys), q.id);
              var wanted := granted.NewRequest? || (granted.Replay? && forall t :: !IsOrder(old(rows), t, q));
              var served := wanted && Insertable(old(rows), q);
              && rows == (if served then old(rows)[newId := Payment(q.id, q.order)] else old(rows))
              && authorised == (if served && routed then old(authorised) + [newId] else old(authorised))
              && idempotency.keys == (
                   var keys := AfterAcquire(old(idempotency.keys), q.id, q.bodyHash);
                   if !(served && routed) || answer.Lost? then keys
                   else if answer.Approved? then AfterComplete(keys, q.id, answer.response)
                   else AfterFail(keys, q.id))
              && (r.Some? ==> IsOrder(rows, r.value, q))
              && (r.Some? <==> (granted.Replay? && !wanted) || (served && routed && answer.Approved?))
      ensures q.id !in old(idempotency.keys) ==>
                if forall t :: t in old(rows) ==> IsOther(old(rows)[t], q) then
                  && rows == old(rows)[newId := Payment(q.id, q.order)]
                  && authorised == (if routed then old(authorised) + [newId] else old(authorised))
                  && (routed && answer.Approved? ==>
                        r == Some(newId) && idempotency.keys == old(idempotency.keys)[q.id := Record(q.bodyHash, Completed, answer.response)])
                else
                  && r.None? && rows == old(rows) && authorised == old(authorised)
      ensures q.id in old(idempotency.keys) && old(idempotency.keys)[q.id].status == Processing ==>
                r.None? && rows == old(rows) && authorised == old(authorised) && idempotency.keys == old(idempotency.keys)
    {
      InsertableExactly(rows, q);
      var acquired := idempotency.AcquireOrReturn(q.id, q.bodyHash);
      if acquired.Conflict? {
        return None;
      }
      if acquired.Replay? {
        var cached := FindByOrder(q);
        if cached.Some? {
          return cached;
        }
      }
      if !Insertable(rows, q) {
        return None;
      }
      rows := rows[newId := Payment(q.id, q.order)];
      if !routed {
        return None;
      }
      authorised := authorised + [newId];
      match answer {
        case Approved(response) =>
          idempotency.MarkCompleted(q.id, response);
          return Some(newId);
        case Refused =>
          idempotency.MarkFailed(q.id);
          return None;
        case Lost =>
          return None;
      }
    }
  }

  // ---------------------------------------------------------------- many calls

  type CallId = nat

  datatype Call =
    | Looking(q: Request) // replayed: about to look the order up
    | Creating(q: Request)
    | Created(q: Request, txn: TxnId)
    | Routed(q: Request, txn: TxnId)
    | AtGateway(q: Request, txn: TxnId)
    | Returned(q: Request, txn: TxnId)
    | Threw(q: Request)

  datatype System = System(keys: Keys, rows: Payments, authorised: seq<TxnId>, calls: map<CallId, Call>)

  datatype CallStep =
    | StartCall(c: CallId, q: Request) // acquireOrReturn, atomic by the idempotency protocol
    | Lookup(c: CallId, found: Option<TxnId>)
    | Create(c: CallId, newId: TxnId)
    | Route(c: CallId, available: bool)
    | Authorise(c: CallId)
    | Answer(c: CallId, answer: GatewayAnswer)
    | PurgeKeys(expired: set<KeyId>) // any keys not completed, live or not

  predicate InFlight(call: Call) {
    call.Created? || call.Routed? || call.AtGateway?
  }

  predicate Owns(call: Call, t: TxnId) {
    InFlight(call) && call.txn == t
  }

  // A step that is not enabled changes nothing; a lookup's answer must be a true one.
  ghost function SystemNext(s: System, step: CallStep): System {
    match step
    case StartCall(c, q) =>
      if c in s.calls then s
      else
        var call := match Acquire(s.keys, q.id)
                    case NewRequest => Creating(q)
                    case Replay(_) => Looking(q)
                    case Conflict => Threw(q);
        s.(keys := AfterAcquire(s.keys, q.id, q.bodyHash), calls := s.calls[c := call])
    case Lookup(c, found) =>
      if c !in s.calls || !s.calls[c].Looking? then s
      else if found.Some? && IsOrder(s.rows, found.value, s.calls[c].q) then s.(calls := s.calls[c := Returned(s.calls[c].q, found.value)])
      else if found.None? && forall t :: !IsOrder(s.rows, t, s.calls[c].q) then s.(calls := s.calls[c := Creating(s.calls[c].q)])
      else s
    case Create(c, newId) =>
      if c !in s.calls || !s.calls[c].Creating? || newId in s.rows then s
      else
        var q := s.calls[c].q;
        if Insertable(s.rows, q) then s.(rows := s.rows[newId := Payment(q.id, q.order)], calls := s.calls[c := Created(q, newId)])
        else s.(calls := s.calls[c := Threw(q)])
    case Route(c, available) =>
      if c !in s.calls || !s.calls[c].Created? then s
      else s.(calls := s.calls[c := if available then Routed(s.calls[c].q, s.calls[c].txn) else Threw(s.calls[c].q)])
    case Authorise(c) =>
      if c !in s.calls || !s.calls[c].Routed? then s
      else s.(authorised := s.authorised + [s.calls[c].txn], calls := s.calls[c := AtGateway(s.calls[c].q, s.calls[c].txn)])
    case Answer(c, answer) =>
      if c !in s.calls || !s.calls[c].AtGateway? then s
      else
        var AtGateway(q, t) := s.calls[c];
        (match answer
         case Approved(response) => s.(keys := AfterComplete(s.keys, q.id, response), calls := s.calls[c := Returned(q, t)])
         case Refused => s.(keys := AfterFail(s.keys, q.id), calls := s.calls[c := Threw(q)])
         case Lost => s.(calls := s.calls[c := Threw(q)]))
    case PurgeKeys(expired) =>
      s.(keys := map id | id in s.keys && !(id in expired && s.keys[id].status != Completed) :: s.keys[id])
  }

  ghost function SystemRun(s: System, steps: seq<CallStep>): System {
    if steps == [] then s else SystemNext(SystemRun(s, steps[..|steps| - 1]), steps[|steps| - 1])
  }

  const NO_PAYMENTS: System := System(map[], map[], [], map[])

  // ---------------------------------------------------------------- invariant

  ghost predicate UniqueRows(rows: Payments) {
    forall t, u :: t in rows && u in rows && t != u ==> !SameIndexEntry(rows[t], rows[u])
  }

  ghost predicate CallInv(s: System, c: CallId)
    requires c in s.calls
  {
    var call := s.calls[c];
    && (InFlight(call) ==>
          call.txn in s.rows && s.rows[call.txn] == Payment(call.q.id, call.q.order))
    && ((call.Created? || call.Routed?) ==> call.txn !in s.authorised)
    && (call.Returned? ==> IsOrder(s.rows, call.txn, call.q))
  }

  ghost predicate SystemInv(s: System) {
    && UniqueRows(s.rows)
    && (forall c :: c in s.calls ==> CallInv(s, c))
    && (forall c, d, t :: c in s.calls && d in s.calls && Owns(s.calls[c], t) && Owns(s.calls[d], t) ==> c == d)
    && (forall i :: 0 <= i < |s.authorised| ==> s.authorised[i] in s.rows)
    && (forall i, j :: 0 <= i < j < |s.authorised| ==> s.authorised[i] != s.authorised[j])
    && (forall id :: id in s.keys && s.keys[id].status != Processing ==> KeyUsed(s.rows, id))
  }

  ghost predicate KeyUsed(rows: Payments, id: KeyId) {
    exists t :: t in rows && rows[t].id == id
  }

  lemma CreateKeepsInv(s: System, c: CallId, newId: TxnId)
    requires SystemInv(s) && c in s.calls && s.calls[c].Creating? && newId !in s.rows && Insertable(s.rows, s.calls[c].q)
    ensures SystemInv(SystemNext(s, Create(c, newId)))
  {
    var s' := SystemNext(s, Create(c, newId));
    forall d | d in s'.calls ensures CallInv(s', d) {
      if d != c { assert CallInv(s, d); }
    }
    forall id | id in s'.keys && s'.keys[id].status != Processing ensures KeyUsed(s'.rows, id) {
      assert KeyUsed(s.rows, id);
      var t :| t in s.rows && s.rows[t].id == id;
      assert t in s'.rows && s'.rows[t].id == id;
    }
    forall a, b, t | a in s'.calls && b in s'.calls && Owns(s'.calls[a], t) && Owns(s'.calls[b], t) ensures a == b {
      assert a != c ==> CallInv(s, a);
      assert b != c ==> CallInv(s, b);
    }
  }

  lemma AuthoriseKeepsInv(s: System, c: CallId)
    requires SystemInv(s) && c in s.calls && s.calls[c].Routed?
    ensures SystemInv(SystemNext(s, Authorise(c)))
  {
    var s' := SystemNext(s, Authorise(c));
    var txn := s.calls[c].txn;
    assert CallInv(s, c) && Owns(s.calls[c], txn);
    forall d | d in s'.calls ensures CallInv(s', d) {
      assert CallInv(s, d);
      assert d != c ==> !Owns(s.calls[d], txn);
    }
    forall a, b, t | a in s'.calls && b in s'.calls && Owns(s'.calls[a], t) && Owns(s'.calls[b], t) ensures a == b {
      assert Owns(s.calls[a], t) && Owns(s.calls[b], t);
    }
  }

  lemma AnswerKeepsInv(s: System, c: CallId, answer: GatewayAnswer)
    requires SystemInv(s) && c in s.calls && s.calls[c].AtGateway?
    ensures SystemInv(SystemNext(s, Answer(c, answer)))
  {
    var s' := SystemNext(s, Answer(c, answer));
    var q := s.calls[c].q;
    assert CallInv(s, c);
    forall d | d in s'.calls ensures CallInv(s', d) {
      assert CallInv(s, d);
    }
    forall a, b, t | a in s'.calls && b in s'.calls && Owns(s'.calls[a], t) && Owns(s'.calls[b], t) ensures a == b {
      assert Owns(s.calls[a], t) && Owns(s.calls[b], t);
    }
    assert s.rows[s.calls[c].txn].id == q.id;
    assert KeyUsed(s'.rows, q.id);
  }

  // A call that moves on without storing or sending anything, or begins, or ends.
  lemma QuietCallKeepsInv(s: System, c: CallId, call: Call)
    requires SystemInv(s)
    requires InFlight(call) ==> call.Routed? && c in s.calls && s.calls[c] == Created(call.q, call.txn)
    requires call.Returned? ==> IsOrder(s.rows, call.txn, call.q)
    ensures SystemInv(s.(calls := s.calls[c := call]))
  {
    var s' := s.(calls := s.calls[c := call]);
    forall d | d in s'.calls ensures CallInv(s', d) {
      if d in s.calls { assert CallInv(s, d); }
    }
    forall a, b, t | a in s'.calls && b in s'.calls && Owns(s'.calls[a], t) && Owns(s'.calls[b], t) ensures a == b {
      assert Owns(s.calls[a], t) && Owns(s.calls[b], t);
    }
  }

  // Records that disappear or begin as PROCESSING.
  lemma QuietKeysKeepInv(s: System, keys: Keys)
    requires SystemInv(s)
    requires forall id :: id in keys && keys[id].status != Processing ==> id in s.keys && s.keys[id].status != Processing
    ensures SystemInv(s.(keys := keys))
  {
    var s' := s.(keys := keys);
    forall d | d in s'.calls ensures CallInv(s', d) {
      assert CallInv(s, d);
    }
  }

  lemma StartKeepsInv(s: System, c: CallId, q: Request)
    requires SystemInv(s)
    ensures SystemInv(SystemNext(s, StartCall(c, q)))
  {
    if c !in s.calls {
      var keys := AfterAcquire(s.keys, q.id, q.bodyHash);
      QuietKeysKeepInv(s, keys);
      QuietCallKeepsInv(s.(keys := keys), c, SystemNext(s, StartCall(c, q)).calls[c]);
    }
  }

  lemma PurgeKeepsInv(s: System, expired: set<KeyId>)
    requires SystemInv(s)
    ensures SystemInv(SystemNext(s, PurgeKeys(expired)))
  {
    QuietKeysKeepInv(s, SystemNext(s, PurgeKeys(expired)).keys);
  }

  // Looking up, routing, and an insert the indexes refuse.
  lemma QuietKeepsInv(s: System, step: CallStep)
    requires SystemInv(s) && (step.Lookup? || step.Route? || step.Create?)
    requires SystemNext(s, step).rows == s.rows && SystemNext(s, step) != s
    ensures SystemInv(SystemNext(s, step))
  {
    QuietCallKeepsInv(s, step.c, SystemNext(s, step).calls[step.c]);
  }

  lemma CallStepKeepsInv(s: System, step: CallStep)
    requires SystemInv(s)
    ensures SystemInv(SystemNext(s, step))
  {
    if SystemNext(s, step) != s {
      match step
      case Create(c, newId) =>
        if SystemNext(s, step).rows != s.rows { CreateKeepsInv(s, c, newId); } else { QuietKeepsInv(s, step); }
      case Authorise(c) => AuthoriseKeepsInv(s, c);
      case Answer(c, answer) => AnswerKeepsInv(s, c, answer);
      case StartCall(c, q) => StartKeepsInv(s, c, q);
      case PurgeKeys(expired) => PurgeKeepsInv(s, expired);
      case _ => QuietKeepsInv(s, step);
    }
  }

  lemma {:induction false} SystemInvAlways(steps: seq<CallStep>)
    ensures SystemInv(SystemRun(NO_PAYMENTS, steps))
    decreases |steps|
  {
    if steps != [] {
      SystemInvAlways(steps[..|steps| - 1]);
      CallStepKeepsInv(SystemRun(NO_PAYMENTS, steps[..|steps| - 1]), steps[|steps| - 1]);
    }
  }

  // ---------------------------------------------------------------- theorems

  // Over every interleaving of calls, retries and purges: one transaction row at most, and one
  // authorise at most, per (merchant, idempotency key) and per (merchant, order id).
  lemma AtMostOneAuthorise(steps: seq<CallStep>)
    ensures var s := SystemRun(NO_PAYMENTS, steps);
            && (forall t, u :: t in s.rows && u in s.rows && SameIndexEntry(s.rows[t], s.rows[u]) ==> t == u)
            && (forall i :: 0 <= i < |s.authorised| ==> s.authorised[i] in s.rows)
            && (forall i, j | 0 <= i < |s.authorised| && 0 <= j < |s.authorised| ::
                  SameIndexEntry(s.rows[s.authorised[i]], s.rows[s.authorised[j]]) ==> i == j)
  {
    SystemInvAlways(steps);
    var s := SystemRun(NO_PAYMENTS, steps);
    forall i, j | 0 <= i < |s.authorised| && 0 <= j < |s.authorised| && i != j
      ensures s.authorised[i] != s.authorised[j]
    {
      assert i < j || j < i;
    }
  }

  // Calls for the same merchant and order only ever return the one transaction.
  lemma RepeatsReturnTheSame(steps: seq<CallStep>, c: CallId, d: CallId)
    requires var s := SystemRun(NO_PAYMENTS, steps);
             && c in s.calls && d in s.calls && s.calls[c].Returned? && s.calls[d].Returned?
             && s.calls[c].q.id.merchant == s.calls[d].q.id.merchant && s.calls[c].q.order == s.calls[d].q.order
    ensures var s := SystemRun(NO_PAYMENTS, steps);
            s.calls[c].txn == s.calls[d].txn && IsOrder(s.rows, s.calls[c].txn, s.calls[c].q)
  {
    SystemInvAlways(steps);
    var s := SystemRun(NO_PAYMENTS, steps);
    assert CallInv(s, c) && CallInv(s, d);
  }

  // The promise that a key can be used again after a failed attempt does not hold: the key is
  // granted, but the failed attempt's row makes the insert throw, and the key stays PROCESSING,
  // so the next attempt is refused as a duplicate in flight.
  lemma RetryAfterFailureIsNotServed(s: System, q: Request, c: CallId, d: CallId, newId: TxnId)
    requires SystemInv(s) && q.id in s.keys && s.keys[q.id].status == Failed
    requires c !in s.calls && d !in s.calls && c != d && newId !in s.rows
    ensures var s1 := SystemNext(SystemNext(s, StartCall(c, q)), Create(c, newId));
            var s2 := SystemNext(s1, StartCall(d, q));
            && Acquire(s.keys, q.id).NewRequest?
            && s1.calls[c] == Threw(q) && s1.rows == s.rows && s1.authorised == s.authorised
            && s1.keys[q.id].status == Processing
            && s2.calls[d] == Threw(q) && s2.keys == s1.keys
  {
    assert KeyUsed(s.rows, q.id);
    var t :| t in s.rows && s.rows[t].id == q.id;
    assert Clashes(s.rows[t], q);
  }

  // Such a key is reached by one call that the gateway refuses.
  lemma FailedKeyIsReached(q: Request) returns (steps: seq<CallStep>)
    ensures var s := SystemRun(NO_PAYMENTS, steps);
            && SystemInv(s) && q.id in s.keys && s.keys[q.id].status == Failed
            && s.calls == map[0 := Threw(q)] && s.rows == map[0 := Payment(q.id, q.order)] && s.authorised == [0]
  {
    var held := map[q.id := Record(q.bodyHash, Processing, NO_RESPONSE)];
    var rows := map[0 := Payment(q.id, q.order)];
    var s1 := System(held, map[], [], map[0 := Creating(q)]);
    var s2 := System(held, rows, [], map[0 := Created(q, 0)]);
    var s3 := System(held, rows, [], map[0 := Routed(q, 0)]);
    var s4 := System(held, rows, [0], map[0 := AtGateway(q, 0)]);
    steps := RunTo([], NO_PAYMENTS, StartCall(0, q), s1);
    steps := RunTo(steps, s1, Create(0, 0), s2);
    steps := RunTo(steps, s2, Route(0, true), s3);
    steps := RunTo(steps, s3, Authorise(0), s4);
    steps := RunTo(steps, s4, Answer(0, Refused), System(AfterFail(held, q.id), rows, [0], map[0 := Threw(q)]));
    SystemInvAlways(steps);
  }

  lemma RunTo(steps: seq<CallStep>, s: System, step: CallStep, next: System) returns (longer: seq<CallStep>)
    requires SystemRun(NO_PAYMENTS, steps) == s && SystemNext(s, step) == next
    ensures SystemRun(NO_PAYMENTS, longer) == next
  {
    longer := steps + [step];
    assert longer[..|steps|] == steps;
  }

  // A fresh request is served, in every reachable system: with a key nobody holds and an order its
  // merchant has not placed, left alone it is stored, sent to the gateway once, and returned.
  lemma FreshRequestIsServed(steps: seq<CallStep>, q: Request, c: CallId, newId: TxnId, response: Response)
    requires var s := SystemRun(NO_PAYMENTS, steps);
             && q.id !in s.keys && c !in s.calls && newId !in s.rows
             && forall t :: t in s.rows ==> IsOther(s.rows[t], q)
    ensures var s := SystemRun(NO_PAYMENTS, steps);
            var stored := SystemNext(SystemNext(s, StartCall(c, q)), Create(c, newId));
            var sent := SystemNext(SystemNext(stored, Route(c, true)), Authorise(c));
            var s' := SystemNext(sent, Answer(c, Approved(response)));
            && stored.rows == s.rows[newId := Payment(q.id, q.order)]
            && sent.authorised == s.authorised + [newId] && newId !in s.authorised
            && s'.calls == s.calls[c := Returned(q, newId)]
            && s'.keys == s.keys[q.id := Record(q.bodyHash, Completed, response)]
  {
    var s := SystemRun(NO_PAYMENTS, steps);
    SystemInvAlways(steps);
    InsertableExactly(s.rows, q);
    assert forall i :: 0 <= i < |s.authorised| ==> s.authorised[i] in s.rows;
    ServedAlone(s, q, c, newId, response);
  }

  lemma ServedAlone(s: System, q: Request, c: CallId, newId: TxnId, response: Response)
    requires q.id !in s.keys && c !in s.calls && newId !in s.rows && Insertable(s.rows, q)
    ensures var stored := SystemNext(SystemNext(s, StartCall(c, q)), Create(c, newId));
            var sent := SystemNext(SystemNext(stored, Route(c, true)), Authorise(c));
            var s' := SystemNext(sent, Answer(c, Approved(response)));
            && stored.rows == s.rows[newId := Payment(q.id, q.order)]
            && sent.authorised == s.authorised + [newId]
            && s'.calls == s.calls[c := Returned(q, newId)]
            && s'.keys == s.keys[q.id := Record(q.bodyHash, Completed, response)]
  {
    var held := s.keys[q.id := Record(q.bodyHash, Processing, NO_RESPONSE)];
    var s1 := SystemNext(s, StartCall(c, q));
    assert s1 == s.(keys := held, calls := s.calls[c := Creating(q)]);
    var s2 := SystemNext(s1, Create(c, newId));
    assert s2 == System(held, s.rows[newId := Payment(q.id, q.order)], s.authorised, s.calls[c := Created(q, newId)]);
    var s4 := SystemNext(SystemNext(s2, Route(c, true)), Authorise(c));
    assert s4 == s2.(authorised := s.authorised + [newId], calls := s.calls[c := AtGateway(q, newId)]);
  }

  // A purge forgets exactly the expired keys that are not completed.
  lemma PurgeForgetsExactly(s: System, expired: set<KeyId>, id: KeyId)
    ensures var s' := SystemNext(s, PurgeKeys(expired));
            && (id in s'.keys <==> id in s.keys && (id !in expired || s.keys[id].status == Completed))
            && (id in s'.keys ==> s'.keys[id] == s.keys[id])
            && s'.rows == s.rows && s'.authorised == s.authorised && s'.calls == s.calls
  {
  }

  // The insert is refused exactly for a row in the way, whoever else is at work.
  lemma CreateStoresExactly(s: System, c: CallId, newId: TxnId)
    requires c in s.calls && s.calls[c].Creating? && newId !in s.rows
    ensures var s' := SystemNext(s, Create(c, newId));
            var q := s.calls[c].q;
            if forall t :: t in s.rows ==> IsOther(s.rows[t], q) then
              s'.rows == s.rows[newId := Payment(q.id, q.order)] && s'.calls == s.calls[c := Created(q, newId)]
            else s'.rows == s.rows && s'.calls == s.calls[c := Threw(q)]
  {
    InsertableExactly(s.rows, s.calls[c].q);
  }

  // In general: from the moment a transaction carries the key, no call that has not created it
  // ever creates or sends one for that key, whatever happens in between.
  lemma {:induction false} UsedKeyIsSpent(s: System, steps: seq<CallStep>, c: CallId, id: KeyId)
    requires SystemInv(s) && KeyUsed(s.rows, id)
    requires c in s.calls && s.calls[c].q.id == id ==> !InFlight(s.calls[c])
    ensures var s' := SystemRun(s, steps);
            && SystemInv(s') && KeyUsed(s'.rows, id)
            && (c in s'.calls && s'.calls[c].q.id == id ==> !InFlight(s'.calls[c]))
    decreases |steps|
  {
    if steps != [] {
      var mid, last := SystemRun(s, steps[..|steps| - 1]), steps[|steps| - 1];
      UsedKeyIsSpent(s, steps[..|steps| - 1], c, id);
      CallStepKeepsInv(mid, last);
      UsedKeyStep(mid, last, c, id);
    }
  }

  lemma UsedKeyStep(s: System, step: CallStep, c: CallId, id: KeyId)
    requires KeyUsed(s.rows, id)
    requires c in s.calls && s.calls[c].q.id == id ==> !InFlight(s.calls[c])
    ensures var s' := SystemNext(s, step);
            && KeyUsed(s'.rows, id)
            && (c in s'.calls && s'.calls[c].q.id == id ==> !InFlight(s'.calls[c]))
  {
    var s' := SystemNext(s, step);
    var t :| t in s.rows && s.rows[t].id == id;
    assert t in s'.rows && s'.rows[t].id == id;
    if step.Create? && step.c == c && c in s.calls && s.calls[c].Creating? && s.calls[c].q.id == id {
      assert Clashes(s.rows[t], s.calls[c].q);
    }
  }
}
