// The 23-state life cycle of a transaction and the shape of every audit log that follows it.
module StateGraph {

  datatype State =
    | Created
    | RouteSelected
    | AuthInitiated
    | Authorised
    | AuthFailed
    | AuthTimeout
    | AuthExpired
    | CaptureInitiated
    | Captured
    | PartiallyCaptured
    | CaptureFailed
    | VoidInitiated
    | Voided
    | RefundInitiated
    | Refunded
    | PartiallyRefunded
    | RefundFailed
    | Settled
    | DisputeOpened
    | DisputeResolved
    | Abandoned
    | RouteFailed
    | Failed

  // VALID_TRANSITIONS
  function ValidTargets(s: State): set<State> {
    match s
    case Created => {RouteSelected, Abandoned}
    case RouteSelected => {AuthInitiated, RouteFailed}
    case AuthInitiated => {Authorised, AuthFailed, AuthTimeout, AuthExpired}
    case Authorised => {CaptureInitiated, VoidInitiated, AuthExpired}
    case AuthFailed => {RouteSelected, Failed}
    case AuthTimeout => {RouteSelected, Failed}
    case CaptureInitiated => {Captured, PartiallyCaptured, CaptureFailed}
    case Captured => {RefundInitiated, Settled, DisputeOpened}
    case PartiallyCaptured => {CaptureInitiated, RefundInitiated, Settled}
    case CaptureFailed => {CaptureInitiated, VoidInitiated}
    case VoidInitiated => {Voided, CaptureInitiated}
    case RefundInitiated => {Refunded, PartiallyRefunded, RefundFailed}
    case RefundFailed => {RefundInitiated}
    case Settled => {RefundInitiated, DisputeOpened}
    case DisputeOpened => {DisputeResolved}
    case Refunded => {}
    case PartiallyRefunded => {}
    case Voided => {}
    case Failed => {}
    case Abandoned => {}
    case RouteFailed => {}
    case AuthExpired => {}
    case DisputeResolved => {}
  }

  const TERMINAL_STATES: set<State> :=
    {Refunded, PartiallyRefunded, Voided, Failed, Abandoned, RouteFailed, AuthExpired, DisputeResolved}

  const RECONCILABLE_STATES: set<State> :=
    {AuthInitiated, CaptureInitiated, RefundInitiated, VoidInitiated}

  predicate CanTransition(from: State, to: State) {
    to in ValidTargets(from)
  }

  // The two guards of assertValidTransition agree: a state is listed as terminal exactly
  // when the map gives it no way out, and no state may move to itself.
  lemma TerminalMeansNoWayOut(s: State)
    ensures s in TERMINAL_STATES <==> ValidTargets(s) == {}
    ensures !CanTransition(s, s)
  {
  }

  // The arrows into each state, as docs/state-machine.md draws them.
  function DrawnInto(to: State): set<State> {
    match to
    case Created => {}
    case RouteSelected => {Created, AuthFailed, AuthTimeout}
    case AuthInitiated => {RouteSelected}
    case Authorised => {AuthInitiated}
    case AuthFailed => {AuthInitiated}
    case AuthTimeout => {AuthInitiated}
    case AuthExpired => {AuthInitiated, Authorised}
    case CaptureInitiated => {Authorised, CaptureFailed, PartiallyCaptured}
    case Captured => {CaptureInitiated}
    case PartiallyCaptured => {CaptureInitiated}
    case CaptureFailed => {CaptureInitiated}
    case VoidInitiated => {Authorised, CaptureFailed}
    case Voided => {VoidInitiated}
    case RefundInitiated => {Captured, PartiallyCaptured, Settled, RefundFailed}
    case Refunded => {RefundInitiated}
    case PartiallyRefunded => {RefundInitiated}
    case RefundFailed => {RefundInitiated}
    case Settled => {Captured, PartiallyCaptured}
    case DisputeOpened => {Captured, Settled}
    case DisputeResolved => {DisputeOpened}
    case Abandoned => {Created}
    case RouteFailed => {RouteSelected}
    case Failed => {AuthFailed, AuthTimeout}
  }

  // The documented diagram is the map, but for the one edge it lacks.
  lemma DiagramIsTheMap(from: State, to: State)
    ensures CanTransition(from, to) <==> from in DrawnInto(to) || (from == VoidInitiated && to == CaptureInitiated)
  {
    if CanTransition(from, to) { MapIsDrawn(from, to); }
    if from in DrawnInto(to) { DrawnIsMapped(from, to); }
  }

  lemma MapIsDrawn(from: State, to: State)
    requires CanTransition(from, to)
    ensures from in DrawnInto(to) || (from == VoidInitiated && to == CaptureInitiated)
  {
  }

  lemma DrawnIsMapped(from: State, to: State)
    requires from in DrawnInto(to)
    ensures CanTransition(from, to)
  {
  }

  // ---------------------------------------------------------------- logs

  datatype Edge = Edge(from: State, to: State)

  // A log is well formed for `current` when it is an unbroken chain of map edges, none of
  // them a self-edge, from Created to `current`.
  ghost predicate WellFormed(log: seq<Edge>, current: State) {
    && (log == [] ==> current == Created)
    && (log != [] ==> log[0].from == Created && log[|log| - 1].to == current)
    && (forall i :: 0 <= i < |log| ==> CanTransition(log[i].from, log[i].to) && log[i].from != log[i].to)
    && (forall i :: 0 < i < |log| ==> log[i - 1].to == log[i].from)
  }

  function Entries(log: seq<Edge>, s: State): nat {
    if log == [] then 0
    else Entries(log[..|log| - 1], s) + if log[|log| - 1].to == s then 1 else 0
  }

  // Position in the payment's life: never decreases along an edge of the map.
  function Phase(s: State): nat {
    match s
    case Created => 0
    case RouteSelected | AuthInitiated | AuthFailed | AuthTimeout => 1
    case Authorised => 2
    case CaptureInitiated | CaptureFailed | VoidInitiated | PartiallyCaptured => 3
    case Captured => 4
    case Settled => 5
    case RefundInitiated | RefundFailed => 6
    case Refunded | PartiallyRefunded | DisputeOpened | Voided => 7
    case DisputeResolved | AuthExpired | Failed | Abandoned | RouteFailed => 8
  }

  lemma WellFormedPrefix(log: seq<Edge>, current: State)
    requires WellFormed(log, current) && log != []
    ensures WellFormed(log[..|log| - 1], log[|log| - 1].from)
  {
    var init := log[..|log| - 1];
    if init != [] {
      assert init[|init| - 1] == log[|log| - 2];
    }
  }

  lemma WellFormedExtends(log: seq<Edge>, current: State, to: State)
    requires WellFormed(log, current) && CanTransition(current, to)
    ensures WellFormed(log + [Edge(current, to)], to)
  {
    TerminalMeansNoWayOut(current);
  }

  lemma PhaseNeverDropsOnEdge(from: State, to: State)
    requires CanTransition(from, to)
    ensures Phase(from) <= Phase(to)
    ensures to in {Authorised, Captured, Settled} ==> Phase(from) < Phase(to)
  {
    match from case _ =>
  }

  lemma {:induction false} PhaseNeverDrops(log: seq<Edge>, current: State, i: nat)
    requires WellFormed(log, current) && i < |log|
    ensures Phase(log[i].to) <= Phase(current)
    decreases |log|
  {
    if i < |log| - 1 {
      WellFormedPrefix(log, current);
      PhaseNeverDrops(log[..|log| - 1], log[|log| - 1].from, i);
      PhaseNeverDropsOnEdge(log[|log| - 1].from, current);
    }
  }

  lemma {:induction false} EntriesAbsent(log: seq<Edge>, s: State)
    requires forall i :: 0 <= i < |log| ==> log[i].to != s
    ensures Entries(log, s) == 0
    decreases |log|
  {
    if log != [] {
      EntriesAbsent(log[..|log| - 1], s);
    }
  }

  // Entries is positive exactly when some entry moved into the state.
  lemma {:induction false} EntriesPresent(log: seq<Edge>, s: State)
    ensures Entries(log, s) > 0 <==> exists i :: 0 <= i < |log| && log[i].to == s
    decreases |log|
  {
    if log != [] {
      var init := log[..|log| - 1];
      EntriesPresent(init, s);
      if Entries(init, s) > 0 {
        var i :| 0 <= i < |init| && init[i].to == s;
        assert log[i].to == s;
      } else if log[|log| - 1].to != s {
        forall i | 0 <= i < |log| ensures log[i].to != s {
          if i < |init| { assert init[i].to != s; }
        }
      }
    }
  }

  // AUTHORISED, CAPTURED and SETTLED are each entered at most once, whatever the actors did.
  lemma {:induction false} EnteredAtMostOnce(log: seq<Edge>, current: State, s: State)
    requires WellFormed(log, current)
    requires s in {Authorised, Captured, Settled}
    ensures Entries(log, s) <= 1
    decreases |log|
  {
    if log != [] {
      var init, last := log[..|log| - 1], log[|log| - 1];
      WellFormedPrefix(log, current);
      EnteredAtMostOnce(init, last.from, s);
      if last.to == s {
        PhaseNeverDropsOnEdge(last.from, last.to);
        forall i | 0 <= i < |init| ensures init[i].to != s {
          PhaseNeverDrops(init, last.from, i);
        }
        EntriesAbsent(init, s);
      }
    }
  }

  // States that only an authorised payment reaches, and states that only a captured one does.
  const AFTER_AUTHORISED: set<State> :=
    {CaptureInitiated, Captured, PartiallyCaptured, CaptureFailed, VoidInitiated, Voided, RefundInitiated,
     Refunded, PartiallyRefunded, RefundFailed, Settled, DisputeOpened, DisputeResolved}

  const AFTER_CAPTURE: set<State> :=
    {RefundInitiated, Refunded, PartiallyRefunded, RefundFailed, Settled, DisputeOpened, DisputeResolved}

  ghost predicate EnteredBefore(log: seq<Edge>, s: State, i: nat)
    requires i <= |log|
  {
    exists j :: 0 <= j < i && log[j].to == s
  }

  lemma PredecessorsOf(from: State, to: State)
    requires CanTransition(from, to)
    ensures to in AFTER_AUTHORISED ==> from == Authorised || from in AFTER_AUTHORISED
    ensures to in AFTER_CAPTURE ==> from in {Captured, PartiallyCaptured} || from in AFTER_CAPTURE
    ensures to in {Captured, PartiallyCaptured} ==> from == CaptureInitiated
    ensures to == Voided ==> from == VoidInitiated
  {
    match from case _ =>
  }

  // Every stage of the life cycle is preceded, in the same log, by the stages it depends on.
  lemma {:induction false} StagesInOrder(log: seq<Edge>, current: State, i: nat)
    requires WellFormed(log, current) && i < |log|
    ensures log[i].to in AFTER_AUTHORISED ==> EnteredBefore(log, Authorised, i)
    ensures log[i].to in AFTER_CAPTURE ==> EnteredBefore(log, Captured, i) || EnteredBefore(log, PartiallyCaptured, i)
    ensures log[i].to in {Captured, PartiallyCaptured} ==> EnteredBefore(log, CaptureInitiated, i)
    decreases i
  {
    PredecessorsOf(log[i].from, log[i].to);
    if i > 0 {
      assert log[i - 1].to == log[i].from;
      StagesInOrder(log, current, i - 1);
    }
  }

  // A refund presupposes a capture; a capture presupposes the authorisation and the capture request.
  lemma RefundPresupposesCapture(log: seq<Edge>, current: State, i: nat)
    requires WellFormed(log, current) && i < |log| && log[i].to == RefundInitiated
    ensures exists j :: 0 <= j < i && log[j].to in {Captured, PartiallyCaptured}
                        && EnteredBefore(log, Authorised, j) && EnteredBefore(log, CaptureInitiated, j)
  {
    StagesInOrder(log, current, i);
    var j :| 0 <= j < i && log[j].to in {Captured, PartiallyCaptured};
    StagesInOrder(log, current, j);
  }

  lemma TerminalEntryIsLast(log: seq<Edge>, current: State, i: nat)
    requires WellFormed(log, current) && i < |log|
    ensures i < |log| - 1 ==> log[i].to !in TERMINAL_STATES
  {
    if i + 1 < |log| {
      TerminalMeansNoWayOut(log[i].to);
      assert CanTransition(log[i + 1].from, log[i + 1].to);
    }
  }

  // A voided payment was never fully captured, settled or sent for refund, before or after.
  lemma VoidExcludesCapture(log: seq<Edge>, current: State, i: nat, j: nat)
    requires WellFormed(log, current) && i < |log| && j < |log| && log[i].to == Voided
    ensures i == |log| - 1
    ensures log[j].to !in {Captured, Settled, RefundInitiated}
  {
    TerminalEntryIsLast(log, current, i);
    if j < i {
      PredecessorsOf(log[i].from, Voided);
      WellFormedPrefix(log, current);
      PhaseNeverDrops(log[..i], log[i].from, j);
    }
  }

  // The exclusion stops at full captures: a partial capture can still end in VOIDED.
  lemma PartialCaptureCanEndVoided() returns (log: seq<Edge>)
    ensures WellFormed(log, Voided) && Entries(log, PartiallyCaptured) == 1 && Entries(log, Voided) == 1
  {
    log := [Edge(Created, RouteSelected), Edge(RouteSelected, AuthInitiated), Edge(AuthInitiated, Authorised),
            Edge(Authorised, CaptureInitiated), Edge(CaptureInitiated, PartiallyCaptured),
            Edge(PartiallyCaptured, CaptureInitiated), Edge(CaptureInitiated, CaptureFailed),
            Edge(CaptureFailed, VoidInitiated), Edge(VoidInitiated, Voided)];
    assert forall i :: 0 <= i < |log| ==> CanTransition(log[i].from, log[i].to);
    EntriesOnce(log, PartiallyCaptured, 4);
    EntriesOnce(log, Voided, 8);
  }

  lemma {:induction false} EntriesOnce(log: seq<Edge>, s: State, i: nat)
    requires i < |log|
    requires forall j :: 0 <= j < |log| ==> (log[j].to == s <==> j == i)
    ensures Entries(log, s) == 1
    decreases |log|
  {
    if i == |log| - 1 {
      EntriesAbsent(log[..i], s);
    } else {
      EntriesOnce(log[..|log| - 1], s, i);
    }
  }
}
