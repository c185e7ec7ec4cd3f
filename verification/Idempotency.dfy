// Idempotency keys: the service as one caller sees it, and the same protocol with lock, read,
// write and commit as separate steps of any number of concurrent requests.
module Idempotency {
  import opened Wrappers

  datatype KeyId = KeyId(merchant: nat, key: nat)

  datatype Response = Response(code: int, body: nat)

  datatype KeyStatus = Processing | Completed | Failed

  datatype Record = Record(requestHash: nat, status: KeyStatus, response: Response)

  // The response columns are null until the key is completed.
  const NO_RESPONSE: Response := Response(0, 0)

  datatype Acquisition = NewRequest | Replay(response: Response) | Conflict

  type Keys = map<KeyId, Record>

  // ---------------------------------------------------------------- specification

  function Acquire(keys: Keys, id: KeyId): Acquisition {
    if id !in keys || keys[id].status == Failed then NewRequest
    else if keys[id].status == Completed then Replay(keys[id].response)
    else Conflict
  }

  function AfterAcquire(keys: Keys, id: KeyId, requestHash: nat): Keys {
    if Acquire(keys, id).NewRequest? then keys[id := Record(requestHash, Processing, NO_RESPONSE)] else keys
  }

  function AfterComplete(keys: Keys, id: KeyId, response: Response): Keys {
    if id in keys then keys[id := keys[id].(status := Completed, response := response)] else keys
  }

  function AfterFail(keys: Keys, id: KeyId): Keys {
    if id in keys then keys[id := keys[id].(status := Failed)] else keys
  }

  // ---------------------------------------------------------------- the service

  class IdempotencyService {
    var keys: Keys

    constructor ()
      ensures keys == map[]
    {
      keys := map[];
    }

    method AcquireOrReturn(id: KeyId, requestHash: nat) returns (r: Acquisition)
      modifies this
      ensures r == Acquire(old(keys), id)
      ensures keys == AfterAcquire(old(keys), id, requestHash)
      ensures r.NewRequest? <==> (id !in old(keys) || old(keys)[id].status == Failed)
      ensures r.NewRequest? ==> keys == old(keys)[id := Record(requestHash, Processing, NO_RESPONSE)]
      ensures !r.NewRequest? ==> keys == old(keys)
      ensures r.Replay? <==> id in old(keys) && old(keys)[id].status == Completed
      ensures r.Replay? ==> r.response == old(keys)[id].response
    {
      if id in keys {
        var existing := keys[id];
        if existing.status == Completed {
          return Replay(existing.response);
        }
        if existing.status == Processing {
          return Conflict;
        }
        keys := keys - {id};
      }
      var inserted := InsertProcessing(id, requestHash);
      if !inserted {
        return Conflict;
      }
      return NewRequest;
    }

    // INSERT ... ON CONFLICT DO NOTHING
    method InsertProcessing(id: KeyId, requestHash: nat) returns (inserted: bool)
      modifies this
      ensures inserted <==> id !in old(keys)
      ensures keys == if inserted then old(keys)[id := Record(requestHash, Processing, NO_RESPONSE)] else old(keys)
    {
      if id in keys {
        return false;
      }
      keys := keys[id := Record(requestHash, Processing, NO_RESPONSE)];
      return true;
    }

    method MarkCompleted(id: KeyId, response: Response)
      modifies this
      ensures keys == AfterComplete(old(keys), id, response)
      ensures id in old(keys) ==> id in keys && Acquire(keys, id) == Replay(response)
      ensures id in old(keys) ==> keys == old(keys)[id := Record(old(keys)[id].requestHash, Completed, response)]
      ensures id !in old(keys) ==> keys == old(keys)
    {
      if id in keys {
        keys := keys[id := keys[id].(status := Completed, response := response)];
      }
    }

    method MarkFailed(id: KeyId)
      modifies this
      ensures keys == AfterFail(old(keys), id)
      ensures Acquire(keys, id) == NewRequest
      ensures id in old(keys) ==> keys == old(keys)[id := Record(old(keys)[id].requestHash, Failed, old(keys)[id].response)]
      ensures id !in old(keys) ==> keys == old(keys)
    {
      if id in keys {
        keys := keys[id := keys[id].(status := Failed)];
      }
    }

    // deleteExpired(): completed keys are spared however old they are.
    method PurgeExpired(expired: set<KeyId>) returns (deleted: nat)
      modifies this
      ensures keys.Keys <= old(keys).Keys
      ensures forall id :: id in old(keys) ==>
                             (id in keys <==> id !in expired || old(keys)[id].status == Completed)
                             && (id in keys ==> keys[id] == old(keys)[id])
      ensures deleted == |old(keys)| - |keys|
    {
      var gone := set id | id in keys && id in expired && keys[id].status != Completed;
      var kept := keys - gone;
      assert kept.Keys == keys.Keys - gone;
      assert |keys.Keys - gone| == |keys.Keys| - |gone|;
      deleted := |gone|;
      keys := kept;
    }
  }

  // The stored request hash is never compared: a replay with a different body gets the cached
  // response all the same, and whether a key is granted does not depend on the body.
  lemma ReplayIgnoresBody(keys: Keys, id: KeyId, first: nat, second: nat, response: Response)
    ensures var completed := AfterComplete(AfterAcquire(keys, id, first), id, response);
            Acquire(keys, id).NewRequest? ==>
              Acquire(completed, id) == Replay(response) && completed[id].requestHash == first
              && AfterAcquire(completed, id, second) == completed
  {
  }

  // ---------------------------------------------------------------- the protocol

  type RequestId = nat

  datatype Pc =
    | Idle
    | Waiting(id: KeyId, requestHash: nat) // for the advisory lock
    | Locked(id: KeyId, requestHash: nat)
    | HasRead(id: KeyId, requestHash: nat, seen: Option<Record>)
    | Inserted(id: KeyId, requestHash: nat) // written, not yet committed
    | Holder(id: KeyId) // acquired, doing the payment
    | Replayed(id: KeyId, response: Response)
    | Rejected(id: KeyId)
    | Finished(id: KeyId)

  // `locks` maps a held advisory-lock number to the request whose transaction holds it.
  datatype Protocol = Protocol(keys: Keys, locks: map<int, RequestId>, pcs: map<RequestId, Pc>)

  function PcOf(s: Protocol, a: RequestId): Pc {
    if a in s.pcs then s.pcs[a] else Idle
  }

  datatype ProtocolStep =
    | Begin(a: RequestId, id: KeyId, requestHash: nat)
    | TakeLock(a: RequestId)
    | Read(a: RequestId)
    | Write(a: RequestId)
    | Commit(a: RequestId)
    | Complete(a: RequestId, response: Response)
    | Fail(a: RequestId)
    | Abandon(a: RequestId) // the request ends without marking its key
    | Purge(expired: set<KeyId>)

  ghost predicate HasHolder(s: Protocol, id: KeyId) {
    exists a :: a in s.pcs && s.pcs[a] == Holder(id)
  }

  function Release(s: Protocol, lock: int): map<int, RequestId> {
    s.locks - {lock}
  }

  // One step under lock hash `h`, which may send different keys to the same lock.
  ghost function ProtocolNext(h: KeyId -> int, s: Protocol, step: ProtocolStep): Protocol {
    match step
    case Begin(a, id, hash) =>
      if PcOf(s, a).Idle? then s.(pcs := s.pcs[a := Waiting(id, hash)]) else s
    case TakeLock(a) =>
      (match PcOf(s, a)
       case Waiting(id, hash) =>
         if h(id) in s.locks then s
         else s.(locks := s.locks[h(id) := a], pcs := s.pcs[a := Locked(id, hash)])
       case _ => s)
    case Read(a) =>
      (match PcOf(s, a)
       case Locked(id, hash) => s.(pcs := s.pcs[a := HasRead(id, hash, if id in s.keys then Some(s.keys[id]) else None)])
       case _ => s)
    case Write(a) => WriteStep(h, s, a)
    case Commit(a) =>
      (match PcOf(s, a)
       case Inserted(id, hash) =>
         Protocol(s.keys[id := Record(hash, Processing, NO_RESPONSE)], Release(s, h(id)), s.pcs[a := Holder(id)])
       case _ => s)
    case Complete(a, response) =>
      (match PcOf(s, a)
       case Holder(id) => s.(keys := AfterComplete(s.keys, id, response), pcs := s.pcs[a := Finished(id)])
       case _ => s)
    case Fail(a) =>
      (match PcOf(s, a)
       case Holder(id) => s.(keys := AfterFail(s.keys, id), pcs := s.pcs[a := Finished(id)])
       case _ => s)
    case Abandon(a) =>
      (match PcOf(s, a)
       case Holder(id) => s.(pcs := s.pcs[a := Finished(id)])
       case _ => s)
    case Purge(expired) =>
      s.(keys := map id | id in s.keys && !(id in expired && s.keys[id].status != Completed && !HasHolder(s, id)) :: s.keys[id])
  }

  // Acts on what was read: replay and conflict end the transaction; a failed key is deleted
  // before the insert; an insert without a preceding delete still yields to a stored row.
  function WriteStep(h: KeyId -> int, s: Protocol, a: RequestId): Protocol {
    match PcOf(s, a)
    case HasRead(id, hash, Some(r)) =>
      (match r.status
       case Completed => s.(locks := Release(s, h(id)), pcs := s.pcs[a := Replayed(id, r.response)])
       case Processing => s.(locks := Release(s, h(id)), pcs := s.pcs[a := Rejected(id)])
       case Failed => s.(pcs := s.pcs[a := Inserted(id, hash)]))
    case HasRead(id, hash, None) =>
      if id in s.keys then s.(locks := Release(s, h(id)), pcs := s.pcs[a := Rejected(id)])
      else s.(pcs := s.pcs[a := Inserted(id, hash)])
    case _ => s
  }

  ghost function ProtocolRun(h: KeyId -> int, s: Protocol, steps: seq<ProtocolStep>): Protocol {
    if steps == [] then s else ProtocolNext(h, ProtocolRun(h, s, steps[..|steps| - 1]), steps[|steps| - 1])
  }

  // ---------------------------------------------------------------- invariant

  ghost predicate Free(s: Protocol, id: KeyId) {
    !HasHolder(s, id) && (id in s.keys ==> s.keys[id].status == Failed)
  }

  ghost predicate RequestInv(h: KeyId -> int, s: Protocol, a: RequestId) {
    match PcOf(s, a)
    case Locked(id, _) => h(id) in s.locks && s.locks[h(id)] == a
    case HasRead(id, _, seen) =>
      && h(id) in s.locks && s.locks[h(id)] == a
      && (seen.None? || seen.value.status == Failed ==> Free(s, id))
      && (seen.Some? && seen.value.status == Completed ==> id in s.keys && s.keys[id] == seen.value)
    case Inserted(id, _) => h(id) in s.locks && s.locks[h(id)] == a && Free(s, id)
    case Holder(id) => id in s.keys && s.keys[id].status == Processing
    case Replayed(id, response) => id in s.keys && s.keys[id].status == Completed && s.keys[id].response == response
    case _ => true
  }

  ghost predicate ProtocolInv(h: KeyId -> int, s: Protocol) {
    && (forall a :: a in s.pcs ==> RequestInv(h, s, a))
    && (forall a, b :: a in s.pcs && b in s.pcs && s.pcs[a].Holder? && s.pcs[b] == s.pcs[a] ==> a == b)
  }

  // Two requests past the lock on the same key are the same request.
  predicate InsideLock(pc: Pc, id: KeyId) {
    (pc.Locked? || pc.HasRead? || pc.Inserted?) && pc.id == id
  }

  lemma LockExcludes(h: KeyId -> int, s: Protocol, a: RequestId, b: RequestId, id: KeyId)
    requires ProtocolInv(h, s) && InsideLock(PcOf(s, a), id) && InsideLock(PcOf(s, b), id)
    ensures a == b
  {
    assert RequestInv(h, s, a) && RequestInv(h, s, b);
  }

  lemma PurgeKeepsInv(h: KeyId -> int, s: Protocol, expired: set<KeyId>)
    requires ProtocolInv(h, s)
    ensures ProtocolInv(h, ProtocolNext(h, s, Purge(expired)))
  {
    var s' := ProtocolNext(h, s, Purge(expired));
    assert forall id :: HasHolder(s', id) == HasHolder(s, id);
    forall a | a in s'.pcs ensures RequestInv(h, s', a) {
      assert RequestInv(h, s, a);
    }
  }

  lemma CommitKeepsInv(h: KeyId -> int, s: Protocol, a: RequestId)
    requires ProtocolInv(h, s) && PcOf(s, a).Inserted?
    ensures ProtocolInv(h, ProtocolNext(h, s, Commit(a)))
  {
    var s' := ProtocolNext(h, s, Commit(a));
    var id := PcOf(s, a).id;
    assert RequestInv(h, s, a);
    forall b | b in s'.pcs ensures RequestInv(h, s', b) {
      assert b != a ==> RequestInv(h, s, b);
      if b != a {
        if InsideLock(PcOf(s, b), id) { LockExcludes(h, s, a, b, id); }
        forall k ensures k != id ==> (HasHolder(s', k) <==> HasHolder(s, k)) {
          if k != id { HolderFrame(s, s', a, k); }
        }
      }
    }
  }

  // A request's own move to or from Holder(id) says nothing about holders of other keys.
  lemma HolderFrame(s: Protocol, s': Protocol, a: RequestId, k: KeyId)
    requires a in s'.pcs && s'.pcs == s.pcs[a := s'.pcs[a]]
    requires PcOf(s, a) != Holder(k) && s'.pcs[a] != Holder(k)
    ensures HasHolder(s', k) <==> HasHolder(s, k)
  {
    if HasHolder(s, k) {
      var b :| b in s.pcs && s.pcs[b] == Holder(k);
      assert b in s'.pcs && s'.pcs[b] == Holder(k);
    }
  }

  lemma EndKeepsInv(h: KeyId -> int, s: Protocol, a: RequestId, step: ProtocolStep)
    requires ProtocolInv(h, s) && PcOf(s, a).Holder?
    requires step == Fail(a) || step == Abandon(a) || (step.Complete? && step.a == a)
    ensures ProtocolInv(h, ProtocolNext(h, s, step))
  {
    var s' := ProtocolNext(h, s, step);
    var id := PcOf(s, a).id;
    assert RequestInv(h, s, a) && HasHolder(s, id);
    forall b | b in s'.pcs ensures RequestInv(h, s', b) {
      if b != a {
        assert RequestInv(h, s, b);
        forall k ensures k != id ==> (HasHolder(s', k) <==> HasHolder(s, k)) {
          if k != id { HolderFrame(s, s', a, k); }
        }
      }
    }
  }

  lemma WriteKeepsInv(h: KeyId -> int, s: Protocol, a: RequestId)
    requires ProtocolInv(h, s) && PcOf(s, a).HasRead?
    ensures ProtocolInv(h, ProtocolNext(h, s, Write(a)))
  {
    var s' := ProtocolNext(h, s, Write(a));
    assert RequestInv(h, s, a);
    forall b | b in s'.pcs ensures RequestInv(h, s', b) {
      if b in s.pcs { assert RequestInv(h, s, b); }
      forall k ensures HasHolder(s', k) <==> HasHolder(s, k) {
        HolderFrame(s, s', a, k);
      }
    }
  }

  lemma QuietKeepsInv(h: KeyId -> int, s: Protocol, step: ProtocolStep)
    requires ProtocolInv(h, s) && (step.Begin? || step.TakeLock? || step.Read?)
    ensures ProtocolInv(h, ProtocolNext(h, s, step))
  {
    var s' := ProtocolNext(h, s, step);
    if s' != s {
      forall b | b in s'.pcs ensures RequestInv(h, s', b) {
        if b in s.pcs { assert RequestInv(h, s, b); }
        forall k ensures HasHolder(s', k) <==> HasHolder(s, k) {
          HolderFrame(s, s', step.a, k);
        }
        if step.Read? && b == step.a && PcOf(s, b).id in s.keys && s.keys[PcOf(s, b).id].status == Failed {
          FailedHasNoHolder(h, s, PcOf(s, b).id);
        }
        if step.Read? && b == step.a && PcOf(s, b).id !in s.keys {
          FailedHasNoHolder(h, s, PcOf(s, b).id);
        }
      }
    }
  }

  lemma FailedHasNoHolder(h: KeyId -> int, s: Protocol, id: KeyId)
    requires ProtocolInv(h, s) && (id in s.keys ==> s.keys[id].status != Processing)
    ensures !HasHolder(s, id)
  {
    forall a | a in s.pcs ensures s.pcs[a] != Holder(id) {
      assert RequestInv(h, s, a);
    }
  }

  lemma StepKeepsProtocolInv(h: KeyId -> int, s: Protocol, step: ProtocolStep)
    requires ProtocolInv(h, s)
    ensures ProtocolInv(h, ProtocolNext(h, s, step))
  {
    if ProtocolNext(h, s, step) != s {
      match step
      case Purge(expired) => PurgeKeepsInv(h, s, expired);
      case Commit(a) => CommitKeepsInv(h, s, a);
      case Write(a) => WriteKeepsInv(h, s, a);
      case Complete(a, _) => EndKeepsInv(h, s, a, step);
      case Fail(a) => EndKeepsInv(h, s, a, step);
      case Abandon(a) => EndKeepsInv(h, s, a, step);
      case _ => QuietKeepsInv(h, s, step);
    }
  }

  const IDLE_PROTOCOL: Protocol := Protocol(map[], map[], map[])

  lemma {:induction false} ProtocolInvAlways(h: KeyId -> int, steps: seq<ProtocolStep>)
    ensures ProtocolInv(h, ProtocolRun(h, IDLE_PROTOCOL, steps))
    decreases |steps|
  {
    if steps != [] {
      ProtocolInvAlways(h, steps[..|steps| - 1]);
      StepKeepsProtocolInv(h, ProtocolRun(h, IDLE_PROTOCOL, steps[..|steps| - 1]), steps[|steps| - 1]);
    }
  }

  // ---------------------------------------------------------------- theorems

  // For every lock hash and every interleaving: one live holder per key at most, and while it
  // lives its key is PROCESSING.
  lemma HoldersExcludeEachOther(h: KeyId -> int, steps: seq<ProtocolStep>, a: RequestId, b: RequestId, id: KeyId)
    requires var s := ProtocolRun(h, IDLE_PROTOCOL, steps);
             PcOf(s, a) == Holder(id) && PcOf(s, b) == Holder(id)
    ensures a == b
    ensures var s := ProtocolRun(h, IDLE_PROTOCOL, steps);
            id in s.keys && s.keys[id].status == Processing
  {
    var s := ProtocolRun(h, IDLE_PROTOCOL, steps);
    ProtocolInvAlways(h, steps);
    assert RequestInv(h, s, a) && RequestInv(h, s, b);
  }

  // A request that has not yet read a completed key, or read it completed.
  predicate WillReplay(pc: Pc, id: KeyId, r: Record) {
    match pc
    case Idle | Waiting(_, _) | Locked(_, _) => true
    case HasRead(i, _, seen) => i == id ==> seen == Some(r)
    case Replayed(i, response) => i == id ==> response == r.response
    case Inserted(i, _) => i != id
    case Holder(i) => i != id
    case Rejected(i) => i != id
    case Finished(i) => i != id
  }

  lemma CompletedStepStable(h: KeyId -> int, s: Protocol, step: ProtocolStep, id: KeyId, a: RequestId)
    requires ProtocolInv(h, s) && id in s.keys && s.keys[id].status == Completed
    ensures var s' := ProtocolNext(h, s, step);
            && id in s'.keys && s'.keys[id] == s.keys[id]
            && (WillReplay(PcOf(s, a), id, s.keys[id]) ==> WillReplay(PcOf(s', a), id, s.keys[id]))
  {
    if !step.Purge? {
      if step.a in s.pcs { assert RequestInv(h, s, step.a); }
    }
  }

  // Once COMPLETED, a key keeps its response for good, and every request that had not read the
  // key by then and gets an answer gets that response; none of them acquires the key.
  lemma {:induction false} CompletedIsForever(h: KeyId -> int, s: Protocol, steps: seq<ProtocolStep>, id: KeyId, a: RequestId)
    requires ProtocolInv(h, s) && id in s.keys && s.keys[id].status == Completed
    requires WillReplay(PcOf(s, a), id, s.keys[id])
    ensures var s' := ProtocolRun(h, s, steps);
            && ProtocolInv(h, s') && id in s'.keys && s'.keys[id] == s.keys[id]
            && WillReplay(PcOf(s', a), id, s.keys[id])
    decreases |steps|
  {
    if steps != [] {
      CompletedIsForever(h, s, steps[..|steps| - 1], id, a);
      var mid := ProtocolRun(h, s, steps[..|steps| - 1]);
      CompletedStepStable(h, mid, steps[|steps| - 1], id, a);
      StepKeepsProtocolInv(h, mid, steps[|steps| - 1]);
    }
  }

  // Steps of requests for other keys, in particular of other merchants, never touch the record,
  // even when their keys hash to the same lock.
  lemma OtherKeysUntouched(h: KeyId -> int, s: Protocol, step: ProtocolStep, id: KeyId)
    requires step.Purge? || PcOf(s, step.a).Idle? || PcOf(s, step.a).id != id
    ensures var s' := ProtocolNext(h, s, step);
            && (id in s'.keys ==> id in s.keys && s'.keys[id] == s.keys[id])
            && (!step.Purge? ==> (id in s.keys <==> id in s'.keys))
            && (step.Purge? && id in s.keys ==>
                  (id !in s'.keys <==> id in step.expired && s.keys[id].status != Completed && !HasHolder(s, id)))
  {
  }

  // ---------------------------------------------------------------- protocol and service agree

  // A holder's end leaves what the service's marking methods leave, and nobody else's steps do.
  lemma HolderEnds(h: KeyId -> int, s: Protocol, a: RequestId, id: KeyId, response: Response)
    requires PcOf(s, a) == Holder(id) && id in s.keys
    ensures var r := s.keys[id];
            && ProtocolNext(h, s, Complete(a, response)).keys == s.keys[id := Record(r.requestHash, Completed, response)]
            && ProtocolNext(h, s, Fail(a)).keys == s.keys[id := Record(r.requestHash, Failed, r.response)]
            && ProtocolNext(h, s, Abandon(a)).keys == s.keys
  {
  }

  // A request whose steps run without anyone in between does what AcquireOrReturn does.
  lemma UninterruptedAcquire(h: KeyId -> int, s: Protocol, a: RequestId, id: KeyId, hash: nat)
    requires PcOf(s, a).Idle? && h(id) !in s.locks
    ensures var s1 := ProtocolNext(h, s, Begin(a, id, hash));
            var s2 := ProtocolNext(h, s1, TakeLock(a));
            var s3 := ProtocolNext(h, s2, Read(a));
            var s4 := ProtocolNext(h, s3, Write(a));
            var s5 := ProtocolNext(h, s4, Commit(a));
            && s5.keys == AfterAcquire(s.keys, id, hash)
            && s5.locks == s.locks
            && PcOf(s5, a) == (match Acquire(s.keys, id)
                               case NewRequest => Holder(id)
                               case Replay(response) => Replayed(id, response)
                               case Conflict => Rejected(id))
  {
    UninterruptedRead(h, s, a, id, hash);
    UninterruptedWrite(h, s, a, id, hash);
  }

  lemma UninterruptedWrite(h: KeyId -> int, s: Protocol, a: RequestId, id: KeyId, hash: nat)
    requires h(id) !in s.locks
    ensures var seen := if id in s.keys then Some(s.keys[id]) else None;
            var s3 := Protocol(s.keys, s.locks[h(id) := a], s.pcs[a := HasRead(id, hash, seen)]);
            var s5 := ProtocolNext(h, ProtocolNext(h, s3, Write(a)), Commit(a));
            && s5.keys == AfterAcquire(s.keys, id, hash)
            && s5.locks == s.locks
            && PcOf(s5, a) == (match Acquire(s.keys, id)
                               case NewRequest => Holder(id)
                               case Replay(response) => Replayed(id, response)
                               case Conflict => Rejected(id))
  {
    assert s.locks[h(id) := a] - {h(id)} == s.locks;
  }

  lemma UninterruptedRead(h: KeyId -> int, s: Protocol, a: RequestId, id: KeyId, hash: nat)
    requires PcOf(s, a).Idle? && h(id) !in s.locks
    ensures var s1 := ProtocolNext(h, s, Begin(a, id, hash));
            var s2 := ProtocolNext(h, s1, TakeLock(a));
            ProtocolNext(h, s2, Read(a))
            == Protocol(s.keys, s.locks[h(id) := a],
                        s.pcs[a := HasRead(id, hash, if id in s.keys then Some(s.keys[id]) else None)])
  {
    assert s.pcs[a := Waiting(id, hash)][a := Locked(id, hash)] == s.pcs[a := Locked(id, hash)];
  }
}
