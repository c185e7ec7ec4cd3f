// advanceTransaction(): the multi-step walk to CAPTURED that webhooks and the browser-return
// handler share, alone and with any number of walks running against each other.
module CaptureWalks {
  import opened Wrappers
  import opened StateGraph
  import opened TransactionStore

  const AUTO_CAPTURE_CHAIN: seq<State> := [AuthInitiated, Authorised, CaptureInitiated, Captured]

  // pathTo(): the direct edge, or for CAPTURED the rest of the auto-capture chain.
  function PathTo(from: State, to: State): Option<seq<State>> {
    if CanTransition(from, to) then Some([to])
    else if to == Captured then
      match from
      case AuthInitiated => Some(AUTO_CAPTURE_CHAIN[1..])
      case Authorised => Some(AUTO_CAPTURE_CHAIN[2..])
      case CaptureInitiated => Some(AUTO_CAPTURE_CHAIN[3..])
      case _ => None
    else None
  }

  // A path found is a chain of map edges from where it starts to the target, and pathTo only
  // gives up when the target is neither one edge away nor further along the chain.
  lemma PathIsWalkable(from: State, to: State)
    ensures PathTo(from, to).Some? ==>
              var p := PathTo(from, to).value;
              && p != [] && p[|p| - 1] == to && CanTransition(from, p[0])
              && (forall i :: 0 < i < |p| ==> CanTransition(p[i - 1], p[i]))
    ensures PathTo(from, to).None? <==>
            !CanTransition(from, to) && !(to == Captured && from in {AuthInitiated, Authorised})
    ensures PathTo(from, to).Some? ==>
              PathTo(from, to).value == if (from, to) == (AuthInitiated, Captured) then [Authorised, CaptureInitiated, Captured]
                                        else if (from, to) == (Authorised, Captured) then [CaptureInitiated, Captured]
                                        else [to]
  {
    assert AUTO_CAPTURE_CHAIN[3] == Captured && CanTransition(CaptureInitiated, Captured);
  }

  // ---------------------------------------------------------------- one walk

  // Applies the steps in order; stops, unsuccessfully, at the first rejected one.
  function Walk(t: Txn, path: seq<State>): (r: (Txn, bool))
    decreases |path|
  {
    if path == [] then (t, true)
    else if t.Moved(path[0]).None? then (t, false)
    else Walk(t.Moved(path[0]).value, path[1..])
  }

  // The whole call: Some(true) applied, Some(false) target unreachable, None an exception.
  function Advanced(t: Txn, stale: State, to: State): (Txn, Option<bool>) {
    match PathTo(stale, to)
    case None => (t, Some(false))
    case Some(path) =>
      var (t', done) := Walk(t, path);
      if !done then (t', None)
      else (if to == Captured then t'.(capturedPaise := t'.amountPaise) else t', Some(true))
  }

  lemma {:induction false} WalkSplits(t: Txn, path: seq<State>, k: nat)
    requires k <= |path|
    ensures Walk(t, path) == if Walk(t, path[..k]).1 then Walk(Walk(t, path[..k]).0, path[k..]) else Walk(t, path[..k])
    decreases k
  {
    if k == 0 {
      assert path[0..] == path;
    } else if t.Moved(path[0]).Some? {
      WalkSplits(t.Moved(path[0]).value, path[1..], k - 1);
      assert path[..k][1..] == path[1..][..k - 1] && path[1..][k - 1..] == path[k..];
    }
  }

  lemma {:induction false} WalkKeeps(t: Txn, path: seq<State>)
    requires t.Valid()
    ensures var (t', done) := Walk(t, path);
            && t'.Valid() && t.log <= t'.log
            && t'.amountPaise == t.amountPaise && t'.capturedPaise == t.capturedPaise && t'.refundedPaise == t.refundedPaise
            && (done && path != [] ==> t'.state == path[|path| - 1])
    decreases |path|
  {
    if path != [] && t.Moved(path[0]).Some? {
      var next := t.Moved(path[0]).value;
      MovedKeepsValid(t, path[0]);
      assert next.Valid() && t.log <= next.log && next.state == path[0];
      WalkKeeps(next, path[1..]);
    }
  }

  // A walk interrupted after any number of steps and re-run from the stored state leaves the
  // same log as the uninterrupted walk, also when it had started from a stale state, as long
  // as it got one step in or the state it started from was the stored one.
  lemma CutWalkResumes(t: Txn, stale: State, k: nat)
    requires t.Valid() && PathTo(stale, Captured).Some?
    requires k <= |PathTo(stale, Captured).value| && (k == 0 ==> stale == t.state)
    requires Walk(t, PathTo(stale, Captured).value).1
    ensures var path := PathTo(stale, Captured).value;
            var cut := Walk(t, path[..k]).0;
            Advanced(cut, cut.state, Captured).0.log == Advanced(t, stale, Captured).0.log
  {
    var path := PathTo(stale, Captured).value;
    var cut := Walk(t, path[..k]).0;
    WalkSplits(t, path, k);
    if k < |path| {
      RestOfPath(t, stale, path, k);
    } else {
      FinishedWalkStays(t, stale, path);
    }
  }

  // After the last transition there is nowhere left to go: a re-run does nothing.
  lemma FinishedWalkStays(t: Txn, stale: State, path: seq<State>)
    requires t.Valid() && PathTo(stale, Captured) == Some(path) && Walk(t, path).1
    ensures path[..|path|] == path
    ensures var done := Walk(t, path).0;
            && done.state == Captured && done.capturedPaise == t.capturedPaise && done.amountPaise == t.amountPaise
            && Advanced(done, done.state, Captured) == (done, Some(false))
            && Advanced(t, stale, Captured).0.log == done.log
  {
    PathEndsAtTarget(stale, path);
    WalkKeeps(t, path);
  }

  lemma PathEndsAtTarget(stale: State, path: seq<State>)
    requires PathTo(stale, Captured) == Some(path)
    ensures path != [] && path[|path| - 1] == Captured && PathTo(Captured, Captured).None?
  {
    PathIsWalkable(stale, Captured);
    TerminalMeansNoWayOut(Captured);
  }

  // What is left of a path is the path from where it has got to.
  lemma PathsNest(stale: State, path: seq<State>, k: nat)
    requires PathTo(stale, Captured) == Some(path) && 0 < k < |path|
    ensures PathTo(path[k - 1], Captured) == Some(path[k..])
  {
    assert path == AUTO_CAPTURE_CHAIN[4 - |path|..];
    assert path[k..] == AUTO_CAPTURE_CHAIN[4 - |path| + k..];
    assert AUTO_CAPTURE_CHAIN[3..] == [Captured];
  }

  // The captured amount is not covered by that: it is recorded by the re-run exactly when the
  // interruption came before the last transition. Cut after it, the payment stays CAPTURED
  // with nothing recorded as captured.
  lemma CutWalkRecordsAmount(t: Txn, k: nat)
    requires t.Valid() && PathTo(t.state, Captured).Some? && t.capturedPaise != t.amountPaise
    requires k <= |PathTo(t.state, Captured).value|
    ensures var path := PathTo(t.state, Captured).value;
            var cut := Walk(t, path[..k]).0;
            var again := Advanced(cut, cut.state, Captured);
            && again.0.state == Captured
            && (again.0.capturedPaise == t.amountPaise <==> k < |path|)
            && (again.1 == Some(true) <==> k < |path|)
  {
    var path := PathTo(t.state, Captured).value;
    var cut := Walk(t, path[..k]).0;
    WalkAlongEdges(t, path, k);
    if k == |path| {
      FinishedWalkStays(t, t.state, path);
    } else {
      RestOfPath(t, t.state, path, k);
      WalkKeeps(t, path[..k]);
      WalkToTheEnd(cut, path[k..]);
    }
  }

  // From the stored state the whole call succeeds and records the amount.
  lemma WalkToTheEnd(t: Txn, path: seq<State>)
    requires t.Valid() && PathTo(t.state, Captured) == Some(path)
    ensures var (t', applied) := Advanced(t, t.state, Captured);
            t'.state == Captured && t'.capturedPaise == t.amountPaise && applied == Some(true)
  {
    WalkAlongEdges(t, path, 0);
    WalkKeeps(t, path);
    PathIsWalkable(t.state, Captured);
  }

  lemma RestOfPath(t: Txn, stale: State, path: seq<State>, k: nat)
    requires t.Valid() && PathTo(stale, Captured) == Some(path) && k < |path| && Walk(t, path[..k]).1
    requires k == 0 ==> stale == t.state
    ensures PathTo(Walk(t, path[..k]).0.state, Captured) == Some(path[k..])
    ensures path[k..] != [] && path[k..][|path[k..]| - 1] == Captured
  {
    PathIsWalkable(stale, Captured);
    WalkKeeps(t, path[..k]);
    if k == 0 {
      assert path[k..] == path;
    } else {
      PathsNest(stale, path, k);
      assert path[..k][k - 1] == path[k - 1];
    }
  }

  // From the stored state itself no step of the path is ever rejected.
  lemma WalkAlongEdges(t: Txn, path: seq<State>, k: nat)
    requires PathTo(t.state, Captured) == Some(path) && k <= |path|
    ensures Walk(t, path[..k]).1 && Walk(t, path).1
  {
    PathIsWalkable(t.state, Captured);
    WalkChain(t, path);
    WalkSplits(t, path, k);
  }

  lemma {:induction false} WalkChain(t: Txn, path: seq<State>)
    requires path != [] ==> CanTransition(t.state, path[0])
    requires forall i :: 0 < i < |path| ==> CanTransition(path[i - 1], path[i])
    ensures Walk(t, path).1
    decreases |path|
  {
    if |path| > 1 {
      TerminalMeansNoWayOut(t.state);
      assert CanTransition(path[1 - 1], path[1]);
      forall i | 0 < i < |path[1..]| ensures CanTransition(path[1..][i - 1], path[1..][i]) {
        assert CanTransition(path[i + 1 - 1], path[i + 1]);
      }
      WalkChain(t.Moved(path[0]).value, path[1..]);
    }
  }

  // What a walk leaves of the tables: every other transaction as it was, the log only extended,
  // and the gateway reference replaced exactly if the walk moved the transaction.
  ghost predicate WalkedOnly(t: Tables, t': Tables, id: TxnId, reference: Option<Reference>)
    requires id in t.rows
  {
    && t'.rows.Keys == t.rows.Keys && t.log <= t'.log
    && (forall other :: other in t.rows && other != id ==> View(t', other) == View(t, other) && t'.rows[other] == t.rows[other])
    && t'.rows[id].gatewayReference == (if reference.Some? && t'.log != t.log then reference else t.rows[id].gatewayReference)
    && t'.rows[id].amountPaise == t.rows[id].amountPaise && t'.rows[id].refundedPaise == t.rows[id].refundedPaise
    && t'.rows[id].gateway == t.rows[id].gateway
  }

  // From the stored state a walk logs exactly its path, one entry a step.
  lemma {:induction false} WalkLogsItsPath(t: Txn, path: seq<State>)
    requires path != [] ==> CanTransition(t.state, path[0])
    requires forall i :: 0 < i < |path| ==> CanTransition(path[i - 1], path[i])
    ensures var log := Walk(t, path).0.log;
            && |log| == |t.log| + |path| && t.log <= log
            && forall j :: |t.log| <= j < |log| ==>
                             log[j] == Edge(if j == |t.log| then t.state else path[j - |t.log| - 1], path[j - |t.log|])
    decreases |path|
  {
    if path != [] {
      TerminalMeansNoWayOut(t.state);
      var next := t.Moved(path[0]).value;
      forall i | 0 < i < |path[1..]| ensures CanTransition(path[1..][i - 1], path[1..][i]) {
        assert CanTransition(path[i + 1 - 1], path[i + 1]);
      }
      if |path| > 1 { assert CanTransition(path[1 - 1], path[1]); }
      WalkLogsItsPath(next, path[1..]);
      assert next.log[|t.log|] == Edge(t.state, path[0]);
    }
  }

  // One pass of the loop: the transition on the tables is the next step of the walk, and
  // no other transaction notices.
  lemma WalkOneStep(start: Tables, now: Tables, id: TxnId, rest: seq<State>, reference: Option<Reference>)
    requires id in start.rows && WalkedOnly(start, now, id, reference) && rest != []
    ensures var next := After(now, id, rest[0], reference);
            && WalkedOnly(start, next, id, reference)
            && next.rows[id].capturedPaise == now.rows[id].capturedPaise
            && Walk(View(now, id), rest)
               == (if Transitioned(now, id, rest[0], reference).Ok? then Walk(View(next, id), rest[1..]) else (View(next, id), false))
  {
    TransitionIsMove(now, id, rest[0], reference, id);
    forall other | other in now.rows && other != id
      ensures View(After(now, id, rest[0], reference), other) == View(now, other)
    {
      TransitionIsMove(now, id, rest[0], reference, other);
    }
  }

  // ---------------------------------------------------------------- the method

  class WebhookProcessor {
    const stateMachine: TransactionStateMachine

    constructor (stateMachine: TransactionStateMachine)
      ensures this.stateMachine == stateMachine
    {
      this.stateMachine := stateMachine;
    }

    // `stale` is the state the caller read before the walk; the row itself may have moved on.
    // Rows are never deleted, so a row once read is still there.
    method AdvanceTransaction(id: TxnId, stale: State, to: State, reference: Option<Reference>)
      returns (r: Result<bool, TransitionError>)
      requires id in stateMachine.rows
      modifies stateMachine
      ensures id in stateMachine.rows && old(stateMachine.rows).Keys == stateMachine.rows.Keys
      ensures View(stateMachine.Contents(), id) == Advanced(old(View(stateMachine.Contents(), id)), stale, to).0
      ensures (match Advanced(old(View(stateMachine.Contents(), id)), stale, to).1
               case None => r.Err?
               case Some(applied) => r == Ok(applied))
      ensures WalkedOnly(old(stateMachine.Contents()), stateMachine.Contents(), id, reference)
      ensures r == Ok(true) ==> stateMachine.rows[id].state == to
      ensures r == Ok(false) <==> !CanTransition(stale, to) && !(to == Captured && stale in {AuthInitiated, Authorised})
      ensures r == Ok(false) ==> stateMachine.Contents() == old(stateMachine.Contents())
      ensures stateMachine.rows[id].capturedPaise
           == if r == Ok(true) && to == Captured then old(stateMachine.rows)[id].amountPaise else old(stateMachine.rows)[id].capturedPaise
    {
      var path := PathTo(stale, to);
      PathIsWalkable(stale, to);
      if path.None? {
        return Ok(false);
      }
      var walked := WalkPath(id, path.value, reference);
      if walked.Err? {
        return Err(walked.error);
      }
      if to == Captured {
        stateMachine.SetCapturedPaise(id, stateMachine.rows[id].amountPaise);
      }
      return Ok(true);
    }

    // The loop over the path.
    method WalkPath(id: TxnId, path: seq<State>, reference: Option<Reference>) returns (r: Result<(), TransitionError>)
      requires id in stateMachine.rows
      modifies stateMachine
      ensures WalkedOnly(old(stateMachine.Contents()), stateMachine.Contents(), id, reference)
      ensures (View(stateMachine.Contents(), id), r.Ok?) == Walk(old(View(stateMachine.Contents(), id)), path)
      ensures stateMachine.rows[id].capturedPaise == old(stateMachine.rows)[id].capturedPaise
      ensures r.Ok? && path != [] ==> stateMachine.rows[id].state == path[|path| - 1]
    {
      ghost var before := View(stateMachine.Contents(), id);
      var i := 0;
      while i < |path|
        invariant 0 <= i <= |path|
        invariant WalkedOnly(old(stateMachine.Contents()), stateMachine.Contents(), id, reference)
        invariant stateMachine.rows[id].capturedPaise == old(stateMachine.rows)[id].capturedPaise
        invariant i > 0 ==> stateMachine.rows[id].state == path[i - 1]
        invariant Walk(before, path) == Walk(View(stateMachine.Contents(), id), path[i..])
      {
        var step := path[i];
        WalkOneStep(old(stateMachine.Contents()), stateMachine.Contents(), id, path[i..], reference);
        var moved := stateMachine.Transition(id, step, reference);
        if moved.Err? {
          return Err(moved.error);
        }
        assert path[i..][1..] == path[i + 1..];
        i := i + 1;
      }
      return Ok(());
    }
  }

  // ---------------------------------------------------------------- many walks at once

  datatype Walker =
    | Walking(rest: seq<State>) // transitions still to apply
    | Recording // about to write capturedPaise
    | Returned(applied: bool)
    | Threw

  // One transaction and every walk ever started on it.
  datatype World = World(txn: Txn, walks: map<nat, Walker>)

  datatype WalkStep =
    | Start(w: nat, stale: State) // a walk begins from any earlier read
    | Advance(w: nat)
    | Record(w: nat)
    | Others(to: State) // any transition by the API, reconciliation or another webhook

  function NextWorld(s: World, step: WalkStep): World {
    match step
    case Start(w, stale) =>
      if w in s.walks then s
      else
        (match PathTo(stale, Captured)
         case None => s.(walks := s.walks[w := Returned(false)])
         case Some(path) => s.(walks := s.walks[w := Walking(path)]))
    case Advance(w) =>
      if w in s.walks && s.walks[w].Walking? && s.walks[w].rest != [] then
        var rest := s.walks[w].rest;
        match s.txn.Moved(rest[0])
        case None => s.(walks := s.walks[w := Threw])
        case Some(txn) => World(txn, s.walks[w := if |rest| == 1 then Recording else Walking(rest[1..])])
      else s
    case Record(w) =>
      if w in s.walks && s.walks[w].Recording? then
        World(s.txn.(capturedPaise := s.txn.amountPaise), s.walks[w := Returned(true)])
      else s
    case Others(to) => s.(txn := s.txn.MovedOrSame(to))
  }

  function RunWorld(s: World, steps: seq<WalkStep>): World {
    if steps == [] then s else NextWorld(RunWorld(s, steps[..|steps| - 1]), steps[|steps| - 1])
  }

  function FreshWorld(amountPaise: int): World {
    World(Txn(Created, [], amountPaise, 0, 0), map[])
  }

  ghost predicate SomeWalkApplied(s: World) {
    exists w :: w in s.walks && s.walks[w] == Returned(true)
  }

  ghost predicate WalksAgree(s: World) {
    && s.txn.Valid()
    && (forall w :: w in s.walks && s.walks[w].Walking? ==> s.walks[w].rest != [] && s.walks[w].rest[|s.walks[w].rest| - 1] == Captured)
    && (forall w :: w in s.walks && (s.walks[w].Recording? || s.walks[w] == Returned(true)) ==> Entries(s.txn.log, Captured) == 1)
    && s.txn.capturedPaise == (if SomeWalkApplied(s) then s.txn.amountPaise else 0)
  }

  lemma EntriesAppend(log: seq<Edge>, e: Edge, s: State)
    ensures Entries(log + [e], s) == Entries(log, s) + if e.to == s then 1 else 0
  {
    assert (log + [e])[..|log|] == log;
  }

  // A state entered once stays entered once through any move.
  lemma MoveKeepsEntry(t: Txn, to: State, s: State)
    requires t.Valid() && s in {Authorised, Captured, Settled} && Entries(t.log, s) == 1
    ensures Entries(t.MovedOrSame(to).log, s) == 1
  {
    var t' := t.MovedOrSame(to);
    MovedKeepsValid(t, to);
    EnteredAtMostOnce(t'.log, t'.state, s);
    EntriesAppend(t.log, Edge(t.state, to), s);
  }

  // A move to CAPTURED that is not rejected, even as a duplicate, leaves exactly one entry.
  lemma MoveEntersCaptured(t: Txn)
    requires t.Valid() && t.Moved(Captured).Some?
    ensures Entries(t.MovedOrSame(Captured).log, Captured) == 1
  {
    var t' := t.MovedOrSame(Captured);
    MovedKeepsValid(t, Captured);
    EnteredAtMostOnce(t'.log, Captured, Captured);
    assert t'.log[|t'.log| - 1].to == Captured;
  }

  lemma SameApplied(s: World, s': World, w: nat)
    requires w in s'.walks && s'.walks == s.walks[w := s'.walks[w]] && s'.walks[w] != Returned(true)
    requires w in s.walks ==> s.walks[w] != Returned(true)
    ensures SomeWalkApplied(s') <==> SomeWalkApplied(s)
  {
    if SomeWalkApplied(s) {
      var v :| v in s.walks && s.walks[v] == Returned(true);
      assert v in s'.walks && s'.walks[v] == Returned(true);
    }
  }

  // What any transition keeps of one transaction.
  ghost predicate TxnStep(t: Txn, t': Txn) {
    && t'.Valid()
    && t'.capturedPaise == t.capturedPaise && t'.amountPaise == t.amountPaise
    && (Entries(t.log, Captured) == 1 ==> Entries(t'.log, Captured) == 1)
  }

  lemma MoveIsTxnStep(t: Txn, to: State)
    requires t.Valid()
    ensures TxnStep(t, t.MovedOrSame(to))
  {
    MovedKeepsValid(t, to);
    if Entries(t.log, Captured) == 1 {
      MoveKeepsEntry(t, to, Captured);
    }
  }

  lemma WalkerKeepsWalksAgree(s: World, w: nat, txn: Txn, walker: Walker)
    requires WalksAgree(s) && w in s.walks && s.walks[w].Walking? && TxnStep(s.txn, txn)
    requires walker.Walking? ==> walker.rest != [] && walker.rest[|walker.rest| - 1] == Captured
    requires walker.Recording? ==> Entries(txn.log, Captured) == 1
    requires !walker.Returned?
    ensures WalksAgree(World(txn, s.walks[w := walker]))
  {
    SameApplied(s, World(txn, s.walks[w := walker]), w);
  }

  lemma AdvanceKeepsWalksAgree(s: World, w: nat)
    requires WalksAgree(s) && w in s.walks && s.walks[w].Walking?
    ensures WalksAgree(NextWorld(s, Advance(w)))
  {
    var rest := s.walks[w].rest;
    MoveIsTxnStep(s.txn, rest[0]);
    if s.txn.Moved(rest[0]).None? {
      WalkerKeepsWalksAgree(s, w, s.txn, Threw);
    } else if |rest| == 1 {
      MoveEntersCaptured(s.txn);
      WalkerKeepsWalksAgree(s, w, s.txn.MovedOrSame(rest[0]), Recording);
    } else {
      WalkerKeepsWalksAgree(s, w, s.txn.MovedOrSame(rest[0]), Walking(rest[1..]));
    }
  }

  lemma StartKeepsWalksAgree(s: World, w: nat, stale: State)
    requires WalksAgree(s) && w !in s.walks
    ensures WalksAgree(NextWorld(s, Start(w, stale)))
  {
    var s' := NextWorld(s, Start(w, stale));
    PathIsWalkable(stale, Captured);
    SameApplied(s, s', w);
  }

  lemma RecordKeepsWalksAgree(s: World, w: nat)
    requires WalksAgree(s) && w in s.walks && s.walks[w].Recording?
    ensures WalksAgree(NextWorld(s, Record(w)))
  {
    assert NextWorld(s, Record(w)).walks[w] == Returned(true);
  }

  lemma OthersKeepWalksAgree(s: World, to: State)
    requires WalksAgree(s)
    ensures WalksAgree(NextWorld(s, Others(to)))
  {
    MoveIsTxnStep(s.txn, to);
    assert SomeWalkApplied(NextWorld(s, Others(to))) == SomeWalkApplied(s);
  }

  lemma StepKeepsWalksAgree(s: World, step: WalkStep)
    requires WalksAgree(s)
    ensures WalksAgree(NextWorld(s, step))
    ensures NextWorld(s, step).txn.amountPaise == s.txn.amountPaise
  {
    if NextWorld(s, step) != s {
      match step
      case Start(w, stale) => StartKeepsWalksAgree(s, w, stale);
      case Advance(w) => AdvanceKeepsWalksAgree(s, w);
      case Record(w) => RecordKeepsWalksAgree(s, w);
      case Others(to) => OthersKeepWalksAgree(s, to);
    }
  }

  lemma {:induction false} WalksAlwaysAgree(amountPaise: int, steps: seq<WalkStep>)
    ensures WalksAgree(RunWorld(FreshWorld(amountPaise), steps))
    ensures RunWorld(FreshWorld(amountPaise), steps).txn.amountPaise == amountPaise
    decreases |steps|
  {
    if steps != [] {
      WalksAlwaysAgree(amountPaise, steps[..|steps| - 1]);
      StepKeepsWalksAgree(RunWorld(FreshWorld(amountPaise), steps[..|steps| - 1]), steps[|steps| - 1]);
    }
  }

  // Any number of walks from stale reads, interleaved with any other transitions: the log
  // enters CAPTURED at most once, exactly once when some walk has returned true, and the
  // captured amount is the full amount exactly from the first walk that returned true.
  lemma ConcurrentWalksAgree(amountPaise: int, steps: seq<WalkStep>, w: nat)
    requires amountPaise > 0
    ensures var s := RunWorld(FreshWorld(amountPaise), steps);
            && Entries(s.txn.log, Captured) <= 1
            && (w in s.walks && s.walks[w] == Returned(true) ==>
                  Entries(s.txn.log, Captured) == 1 && s.txn.capturedPaise == amountPaise)
            && s.txn.capturedPaise in {0, amountPaise}
            && (s.txn.capturedPaise == amountPaise <==> SomeWalkApplied(s))
  {
    WalksAlwaysAgree(amountPaise, steps);
    var s := RunWorld(FreshWorld(amountPaise), steps);
    EnteredAtMostOnce(s.txn.log, s.txn.state, Captured);
  }

  // So a CAPTURED row can read as zero captured: reconciliation moves the state without
  // recording the amount, and a walk read before that then finds no path.
  lemma CapturedWithoutAmount(amountPaise: int) returns (steps: seq<WalkStep>)
    requires amountPaise > 0
    ensures var s := RunWorld(FreshWorld(amountPaise), steps);
            s.txn.state == Captured && s.txn.capturedPaise == 0 && s.walks == map[0 := Returned(false)]
  {
    var s := FreshWorld(amountPaise);
    steps := [];
    steps := RunAppend(s, steps, Others(RouteSelected));
    steps := RunAppend(s, steps, Others(AuthInitiated));
    steps := RunAppend(s, steps, Others(Authorised));
    steps := RunAppend(s, steps, Others(CaptureInitiated));
    steps := RunAppend(s, steps, Others(Captured));
    steps := RunAppend(s, steps, Start(0, Captured));
  }

  lemma RunAppend(s: World, steps: seq<WalkStep>, step: WalkStep) returns (longer: seq<WalkStep>)
    ensures longer == steps + [step] && RunWorld(s, longer) == NextWorld(RunWorld(s, steps), step)
  {
    longer := steps + [step];
    assert longer[..|steps|] == steps;
  }

  // ---------------------------------------------------------------- machine and method agree

  function Solo(w: nat, n: nat): seq<WalkStep> {
    if n == 0 then [] else [Advance(w)] + Solo(w, n - 1)
  }

  // Left to itself, a walk of the machine does what Walk says.
  lemma {:induction false} SoloWalk(s: World, w: nat, path: seq<State>)
    requires path != [] && w in s.walks && s.walks[w] == Walking(path)
    ensures var s' := RunForward(s, Solo(w, |path|));
            && s'.txn == Walk(s.txn, path).0
            && s'.walks == s.walks[w := if Walk(s.txn, path).1 then Recording else Threw]
    decreases |path|
  {
    var s1 := NextWorld(s, Advance(w));
    assert Solo(w, |path|)[1..] == Solo(w, |path| - 1);
    if s.txn.Moved(path[0]).None? {
      DoneWalkIdles(s1, w, |path| - 1);
    } else if |path| > 1 {
      SoloWalk(s1, w, path[1..]);
    }
  }

  lemma {:induction false} DoneWalkIdles(s: World, w: nat, n: nat)
    requires w in s.walks && s.walks[w] == Threw
    ensures RunForward(s, Solo(w, n)) == s
  {
    if n > 0 {
      assert Solo(w, n)[1..] == Solo(w, n - 1);
      DoneWalkIdles(s, w, n - 1);
    }
  }

  function RunForward(s: World, steps: seq<WalkStep>): World
    decreases |steps|
  {
    if steps == [] then s else RunForward(NextWorld(s, steps[0]), steps[1..])
  }

  // ---------------------------------------------------------------- browser return

  datatype StatusAnswer = StatusAnswer(status: GatewayStatus, amountPaise: int)

  // The answer the retry loop settles on: the first that is not "authorised", else the last asked for.
  function SettledAnswer(answers: seq<StatusAnswer>, attempts: nat): (r: StatusAnswer)
    requires 0 < attempts <= |answers|
  {
    if attempts == 1 || answers[0].status != StatusAuthorised then answers[0]
    else SettledAnswer(answers[1..], attempts - 1)
  }

  // That is: the first answer that is not "authorised", if it is asked for, and else the last one.
  lemma {:induction false} SettledAnswerIsFirst(answers: seq<StatusAnswer>, attempts: nat) returns (k: nat)
    requires 0 < attempts <= |answers|
    ensures k < attempts && SettledAnswer(answers, attempts) == answers[k]
    ensures forall j :: 0 <= j < k ==> answers[j].status == StatusAuthorised
    ensures answers[k].status == StatusAuthorised ==> k == attempts - 1
    decreases attempts
  {
    if attempts == 1 || answers[0].status != StatusAuthorised {
      k := 0;
    } else {
      k := SettledAnswerIsFirst(answers[1..], attempts - 1);
      k := k + 1;
    }
  }

  // verifyAndAdvance() on a transaction already read as `stale`; Interswitch knows a payment by its
  // own id. `answers` are the successive
  // replies of the status API; when they run out the next call threw.
  method VerifyAndAdvance(processor: WebhookProcessor, id: TxnId, stale: Row, isInterswitch: bool,
                          answers: seq<StatusAnswer>, attempts: nat)
    returns (submitted: bool)
    requires id in processor.stateMachine.rows && 0 < attempts
    modifies processor.stateMachine
    ensures id in processor.stateMachine.rows
    ensures submitted <==> isInterswitch && stale.state == AuthInitiated && answers != []
                           && SettledAnswer(answers, if attempts <= |answers| then attempts else |answers|)
                              == StatusAnswer(StatusCaptured, stale.amountPaise)
    ensures View(processor.stateMachine.Contents(), id)
            == if submitted then Advanced(old(View(processor.stateMachine.Contents(), id)), AuthInitiated, Captured).0
               else old(View(processor.stateMachine.Contents(), id))
    ensures WalkedOnly(old(processor.stateMachine.Contents()), processor.stateMachine.Contents(), id, Some(id))
    ensures !submitted ==> processor.stateMachine.Contents() == old(processor.stateMachine.Contents())
    ensures var was, row := old(processor.stateMachine.rows)[id], processor.stateMachine.rows[id];
            row.capturedPaise == was.capturedPaise || (submitted && row.state == Captured && row.capturedPaise == was.amountPaise)
  {
    submitted := false;
    if !isInterswitch || stale.state != AuthInitiated || |answers| == 0 {
      return;
    }
    var status := answers[0];
    var attempt := 1;
    while attempt < attempts && status.status == StatusAuthorised
      invariant 1 <= attempt <= attempts && attempt <= |answers|
      invariant status == answers[attempt - 1]
      invariant forall n :: attempt <= n <= |answers| && n <= attempts ==>
                              SettledAnswer(answers, n) == SettledAnswer(answers[attempt - 1..], n - attempt + 1)
    {
      if attempt == |answers| {
        return;
      }
      assert answers[attempt - 1..][1..] == answers[attempt..];
      status := answers[attempt];
      attempt := attempt + 1;
    }
    if status.status != StatusCaptured {
      return;
    }
    if status.amountPaise != stale.amountPaise {
      return;
    }
    submitted := true;
    var _ := processor.AdvanceTransaction(id, stale.state, Captured, Some(id));
  }
}
