// The circuit breaker: a timed state machine per (gateway, payment method), and the history of
// events it stands for.
module CircuitBreaker {
  import opened Wrappers

  type Gateway = nat
  type PaymentMethod = nat

  datatype Key = Key(gateway: Gateway, paymentMethod: PaymentMethod)

  datatype BreakerState = Closed | Open | HalfOpen

  datatype Entry = Entry(
    state: BreakerState,
    failureCount: nat,
    lastFailureAt: Option<int>,
    openedAt: Option<int>,
    halfOpenAt: Option<int>,
    successCountInHalfOpen: nat)

  datatype Config = Config(failureThreshold: int, timeoutMs: int, halfOpenRequests: int)

  const FRESH_ENTRY: Entry := Entry(Closed, 0, None, None, None, 0)
  const DEFAULT_CONFIG: Config := Config(5, 30_000, 1)

  // ---------------------------------------------------------------- specification

  datatype EventKind = Guard | Success | Failure

  datatype Event = Event(kind: EventKind, at: int)

  predicate Admits(e: Entry, config: Config, now: int) {
    match e.state
    case Closed => true
    case Open => now - (if e.openedAt.Some? then e.openedAt.value else 0) >= config.timeoutMs
    case HalfOpen => e.successCountInHalfOpen == 0
  }

  function OnEvent(e: Entry, config: Config, event: Event): Entry {
    match event.kind
    case Guard =>
      if e.state == Open && Admits(e, config, event.at) then
        e.(state := HalfOpen, halfOpenAt := Some(event.at), successCountInHalfOpen := 0)
      else e
    case Success =>
      if e.state == HalfOpen then
        if e.successCountInHalfOpen + 1 >= config.halfOpenRequests then FRESH_ENTRY.(lastFailureAt := e.lastFailureAt)
        else e.(successCountInHalfOpen := e.successCountInHalfOpen + 1)
      else if e.state == Closed then e.(failureCount := 0)
      else e
    case Failure =>
      var counted := e.(failureCount := e.failureCount + 1, lastFailureAt := Some(event.at));
      if e.state == HalfOpen || (e.state == Closed && counted.failureCount >= config.failureThreshold) then
        counted.(state := Open, openedAt := Some(event.at), successCountInHalfOpen := 0)
      else counted
  }

  function EntryOf(store: map<Key, Entry>, k: Key): Entry {
    if k in store then store[k] else FRESH_ENTRY
  }

  function ConfigOf(configs: map<Gateway, Config>, g: Gateway): Config {
    if g in configs then configs[g] else DEFAULT_CONFIG
  }

  // ---------------------------------------------------------------- the service

  class CircuitBreakerService {
    var store: map<Key, Entry>
    var configs: map<Gateway, Config>

    constructor ()
      ensures store == map[] && configs == map[]
    {
      store, configs := map[], map[];
    }

    // Throws GatewayUnavailableException when it returns false.
    method GuardRequest(gateway: Gateway, paymentMethod: PaymentMethod, now: int) returns (admitted: bool)
      modifies `store
      ensures var k := Key(gateway, paymentMethod);
              var e := EntryOf(old(store), k);
              && admitted == Admits(e, ConfigOf(configs, gateway), now)
              && store == old(store)[k := OnEvent(e, ConfigOf(configs, gateway), Event(Guard, now))]
              && store[k] == if e.state == Open && admitted
                             then Entry(HalfOpen, e.failureCount, e.lastFailureAt, e.openedAt, Some(now), 0) else e
    {
      var entry := GetOrCreateEntry(gateway, paymentMethod);
      var config := ConfigOf(configs, gateway);
      var k := Key(gateway, paymentMethod);
      match entry.state {
        case Closed =>
          return true;
        case Open =>
          var elapsed := now - (if entry.openedAt.Some? then entry.openedAt.value else 0);
          if elapsed >= config.timeoutMs {
            TransitionTo(k, HalfOpen, now);
            return true;
          }
          return false;
        case HalfOpen =>
          return entry.successCountInHalfOpen == 0;
      }
    }

    method RecordSuccess(gateway: Gateway, paymentMethod: PaymentMethod, now: int)
      modifies `store
      ensures var k := Key(gateway, paymentMethod);
              var e := EntryOf(old(store), k);
              && store == old(store)[k := OnEvent(e, ConfigOf(configs, gateway), Event(Success, now))]
              && store[k].lastFailureAt == e.lastFailureAt
              && (store[k].state == Closed && e.state != Open ==> store[k].failureCount == 0 && (e.state == HalfOpen ==> store[k].halfOpenAt == None))
    {
      var entry := GetOrCreateEntry(gateway, paymentMethod);
      var k := Key(gateway, paymentMethod);
      if entry.state == HalfOpen {
        var successes := entry.successCountInHalfOpen + 1;
        store := store[k := entry.(successCountInHalfOpen := successes)];
        if successes >= ConfigOf(configs, gateway).halfOpenRequests {
          TransitionTo(k, Closed, now);
        }
        return;
      }
      if entry.state == Closed {
        store := store[k := entry.(failureCount := 0)];
      }
    }

    method RecordFailure(gateway: Gateway, paymentMethod: PaymentMethod, now: int)
      modifies `store
      ensures var k := Key(gateway, paymentMethod);
              var e := EntryOf(old(store), k);
              && store == old(store)[k := OnEvent(e, ConfigOf(configs, gateway), Event(Failure, now))]
              && store[k].lastFailureAt == Some(now) && store[k].failureCount == e.failureCount + 1 && store[k].halfOpenAt == e.halfOpenAt
    {
      var entry := GetOrCreateEntry(gateway, paymentMethod);
      var config := ConfigOf(configs, gateway);
      var k := Key(gateway, paymentMethod);
      entry := entry.(failureCount := entry.failureCount + 1, lastFailureAt := Some(now));
      store := store[k := entry];
      if entry.state == HalfOpen {
        TransitionTo(k, Open, now);
        return;
      }
      if entry.state == Closed && entry.failureCount >= config.failureThreshold {
        TransitionTo(k, Open, now);
      }
    }

    method GetState(gateway: Gateway, paymentMethod: PaymentMethod) returns (state: BreakerState)
      modifies `store
      ensures state == EntryOf(old(store), Key(gateway, paymentMethod)).state
      ensures forall k :: EntryOf(store, k) == EntryOf(old(store), k)
    {
      var entry := GetOrCreateEntry(gateway, paymentMethod);
      state := entry.state;
    }

    method GetOrCreateEntry(gateway: Gateway, paymentMethod: PaymentMethod) returns (entry: Entry)
      modifies `store
      ensures var k := Key(gateway, paymentMethod);
              && entry == EntryOf(old(store), k)
              && store == old(store)[k := entry]
    {
      var k := Key(gateway, paymentMethod);
      if k !in store {
        store := store[k := FRESH_ENTRY];
      }
      entry := store[k];
    }

    method TransitionTo(k: Key, newState: BreakerState, now: int)
      requires k in store
      modifies `store
      ensures store == old(store)[k := (
                match newState
                case Open => old(store)[k].(state := Open, openedAt := Some(now), successCountInHalfOpen := 0)
                case HalfOpen => old(store)[k].(state := HalfOpen, halfOpenAt := Some(now), successCountInHalfOpen := 0)
                case Closed => FRESH_ENTRY.(lastFailureAt := old(store)[k].lastFailureAt))]
    {
      var entry := store[k].(state := newState);
      if newState == Open {
        entry := entry.(openedAt := Some(now), successCountInHalfOpen := 0);
      }
      if newState == HalfOpen {
        entry := entry.(halfOpenAt := Some(now), successCountInHalfOpen := 0);
      }
      if newState == Closed {
        entry := entry.(failureCount := 0, openedAt := None, halfOpenAt := None, successCountInHalfOpen := 0);
      }
      store := store[k := entry];
    }
  }

  // ---------------------------------------------------------------- what a history means

  function EntryAfter(config: Config, h: seq<Event>): Entry {
    if h == [] then FRESH_ENTRY else OnEvent(EntryAfter(config, h[..|h| - 1]), config, h[|h| - 1])
  }

  // The number of failures since the last success, guards not counting.
  function FailureRun(h: seq<Event>): nat {
    if h == [] then 0
    else
      match h[|h| - 1].kind
      case Guard => FailureRun(h[..|h| - 1])
      case Success => 0
      case Failure => FailureRun(h[..|h| - 1]) + 1
  }

  datatype Trip = Trip(index: nat, at: int)

  // A guard since the trip came after the timeout: the breaker is being probed.
  ghost predicate Probed(config: Config, h: seq<Event>, trip: Trip) {
    exists j :: trip.index < j < |h| && h[j].kind == Guard && h[j].at - trip.at >= config.timeoutMs
  }

  // The successes reported since the breaker was first probed after the trip.
  ghost function ProbeSuccesses(config: Config, h: seq<Event>, trip: Trip): nat {
    if |h| <= trip.index + 1 then 0
    else
      var init := h[..|h| - 1];
      ProbeSuccesses(config, init, trip) + if h[|h| - 1].kind == Success && Probed(config, init, trip) then 1 else 0
  }

  // The trip in force after a history, if it has not been closed since. A breaker trips on the
  // failure that makes the run reach the threshold and on a failed probe; as many successes as
  // the config asks for, from the first probe on, close it; nothing else matters while it is
  // tripped.
  ghost function TripInForce(config: Config, h: seq<Event>): Option<Trip> {
    if h == [] then None
    else
      var init, last := h[..|h| - 1], h[|h| - 1];
      var before := TripInForce(config, init);
      match last.kind
      case Guard => before
      case Success =>
        if before.Some? && Probed(config, init, before.value) && ProbeSuccesses(config, init, before.value) + 1 >= config.halfOpenRequests
        then None else before
      case Failure =>
        if (if before.Some? then Probed(config, init, before.value) else FailureRun(h) >= config.failureThreshold)
        then Some(Trip(|h| - 1, last.at)) else before
  }

  ghost predicate ClockRuns(h: seq<Event>) {
    forall i, j :: 0 <= i < j < |h| ==> h[i].at <= h[j].at
  }

  // The entry the history stands for.
  ghost predicate Means(config: Config, h: seq<Event>, e: Entry) {
    var trip := TripInForce(config, h);
    && (e.state == Closed <==> trip.None?)
    && (e.state == HalfOpen <==> trip.Some? && Probed(config, h, trip.value))
    && (trip.Some? ==> e.openedAt == Some(trip.value.at) && trip.value.index < |h| && trip.value.at == h[trip.value.index].at)
    && (e.state == Closed ==> e.failureCount == FailureRun(h) && (e.failureCount == 0 || e.failureCount < config.failureThreshold))
    && e.successCountInHalfOpen == (if trip.Some? then ProbeSuccesses(config, h, trip.value) else 0)
    && (e.state != HalfOpen ==> e.successCountInHalfOpen == 0)
    && (e.successCountInHalfOpen == 0 || e.successCountInHalfOpen < config.halfOpenRequests)
  }

  lemma ProbedExtends(config: Config, h: seq<Event>, event: Event, trip: Trip)
    requires trip.index < |h|
    ensures Probed(config, h + [event], trip) <==>
            Probed(config, h, trip) || (event.kind == Guard && event.at - trip.at >= config.timeoutMs)
  {
    var h' := h + [event];
    if Probed(config, h, trip) {
      var j :| trip.index < j < |h| && h[j].kind == Guard && h[j].at - trip.at >= config.timeoutMs;
      assert h'[j] == h[j];
    }
    if event.kind == Guard && event.at - trip.at >= config.timeoutMs {
      assert h'[|h|] == event;
    }
  }

  lemma EventKeepsMeaning(config: Config, h: seq<Event>, event: Event)
    requires Means(config, h, EntryAfter(config, h))
    ensures Means(config, h + [event], EntryAfter(config, h + [event]))
  {
    var h' := h + [event];
    assert h'[..|h|] == h && h'[|h|] == event;
    var trip := TripInForce(config, h);
    if trip.Some? {
      ProbedExtends(config, h, event, trip.value);
    }
    var trip' := TripInForce(config, h');
    if trip'.Some? && trip' != trip {
      assert !Probed(config, h', trip'.value);
    }
  }

  lemma {:induction false} BreakerRefinesHistory(config: Config, h: seq<Event>)
    ensures Means(config, h, EntryAfter(config, h))
    decreases |h|
  {
    if h != [] {
      BreakerRefinesHistory(config, h[..|h| - 1]);
      EventKeepsMeaning(config, h[..|h| - 1], h[|h| - 1]);
      assert h == h[..|h| - 1] + [h[|h| - 1]];
    }
  }

  // On a clock that does not go back, a guard is rejected exactly when the trip in force is less
  // than the timeout old, or has been probed with some but not enough successes.
  lemma GuardRejectsExactly(config: Config, h: seq<Event>, now: int)
    requires ClockRuns(h + [Event(Guard, now)])
    ensures var trip := TripInForce(config, h);
            !Admits(EntryAfter(config, h), config, now) <==>
            trip.Some? && (now - trip.value.at < config.timeoutMs || ProbeSuccesses(config, h, trip.value) > 0)
    ensures var trip := TripInForce(config, h);
            trip.Some? && ProbeSuccesses(config, h, trip.value) > 0 ==> ProbeSuccesses(config, h, trip.value) < config.halfOpenRequests
  {
    BreakerRefinesHistory(config, h);
    var trip := TripInForce(config, h);
    var h' := h + [Event(Guard, now)];
    if trip.Some? && Probed(config, h, trip.value) {
      var j :| trip.value.index < j < |h| && h[j].kind == Guard && h[j].at - trip.value.at >= config.timeoutMs;
      assert h'[j] == h[j] && h'[|h|].at == now && h'[j].at <= h'[|h|].at;
    }
  }

  // Without a stored config a breaker trips on the fifth failure in a row, not the fourth, admits a
  // probe 30 seconds later, not sooner, and closes on the first success of it.
  lemma DefaultConfigInNumbers(g: Gateway, at: int, now: int)
    ensures var config := ConfigOf(map[], g);
            var four := EntryAfter(config, [Event(Failure, at), Event(Failure, at), Event(Failure, at), Event(Failure, at)]);
            var five := OnEvent(four, config, Event(Failure, at));
            && four.state == Closed && five.state == Open
            && (Admits(five, config, now) <==> now - at >= 30_000)
            && (now - at >= 30_000 ==>
                  OnEvent(OnEvent(five, config, Event(Guard, now)), config, Event(Success, now)).state == Closed)
  {
    var f := Event(Failure, at);
    var config := ConfigOf(map[], g);
    assert [f, f, f, f][..3] == [f, f, f] && [f, f, f][..2] == [f, f] && [f, f][..1] == [f] && [f][..0] == [];
    assert EntryAfter(config, [f]) == OnEvent(FRESH_ENTRY, config, f);
    assert EntryAfter(config, [f, f]) == OnEvent(EntryAfter(config, [f]), config, f);
    assert EntryAfter(config, [f, f, f]) == OnEvent(EntryAfter(config, [f, f]), config, f);
  }

  // openedAt does not move while the breaker is open, whatever happens and however many probes
  // the config asks for.
  lemma OpenedAtStands(config: Config, e: Entry, event: Event)
    requires e.state == Open
    ensures OnEvent(e, config, event).openedAt == e.openedAt && OnEvent(e, config, event).state != Closed
  {
  }

  // Only a guard leads out of OPEN: without one, no sequence of reports ever does.
  lemma {:induction false} OpenWithoutGuards(config: Config, e: Entry, events: seq<Event>)
    requires e.state == Open && forall i :: 0 <= i < |events| ==> events[i].kind != Guard
    ensures EventsOn(e, config, events).state == Open && EventsOn(e, config, events).openedAt == e.openedAt
    decreases |events|
  {
    if events != [] {
      OpenWithoutGuards(config, e, events[..|events| - 1]);
      OpenedAtStands(config, EventsOn(e, config, events[..|events| - 1]), events[|events| - 1]);
    }
  }

  // So from a breaker that is never guarded, HALF_OPEN is not reachable at all.
  lemma {:induction false} UnguardedNeverHalfOpen(config: Config, h: seq<Event>)
    requires forall i :: 0 <= i < |h| ==> h[i].kind != Guard
    ensures EntryAfter(config, h).state != HalfOpen
    decreases |h|
  {
    if h != [] { UnguardedNeverHalfOpen(config, h[..|h| - 1]); }
  }

  // With two or more probes required, one success in HALF_OPEN blocks every later guard, at any
  // time: only reports about requests already let through can move the breaker again.
  lemma {:induction false} HalfOpenWedges(config: Config, e: Entry, guards: seq<Event>)
    requires e.state == HalfOpen && e.successCountInHalfOpen == 0
    requires forall i :: 0 <= i < |guards| ==> guards[i].kind == Guard
    ensures var probed := OnEvent(e, config, Event(Success, 0));
            var later := EventsOn(probed, config, guards);
            if config.halfOpenRequests <= 1 then probed.state == Closed
            else later == probed && forall now :: !Admits(later, config, now)
    decreases |guards|
  {
    if guards != [] {
      HalfOpenWedges(config, e, guards[..|guards| - 1]);
    }
  }

  function EventsOn(e: Entry, config: Config, events: seq<Event>): Entry {
    if events == [] then e else OnEvent(EventsOn(e, config, events[..|events| - 1]), config, events[|events| - 1])
  }

  // ---------------------------------------------------------------- keys are independent

  datatype KeyedEvent = KeyedEvent(key: Key, event: Event)

  function StoreAfter(configs: map<Gateway, Config>, events: seq<KeyedEvent>): map<Key, Entry> {
    if events == [] then map[]
    else
      var store, last := StoreAfter(configs, events[..|events| - 1]), events[|events| - 1];
      store[last.key := OnEvent(EntryOf(store, last.key), ConfigOf(configs, last.key.gateway), last.event)]
  }

  function HistoryOf(events: seq<KeyedEvent>, k: Key): seq<Event> {
    if events == [] then []
    else
      var init, last := events[..|events| - 1], events[|events| - 1];
      if last.key == k then HistoryOf(init, k) + [last.event] else HistoryOf(init, k)
  }

  // What the store holds about a key is determined by that key's own events.
  lemma {:induction false} KeysAreIndependent(configs: map<Gateway, Config>, events: seq<KeyedEvent>, k: Key)
    ensures EntryOf(StoreAfter(configs, events), k) == EntryAfter(ConfigOf(configs, k.gateway), HistoryOf(events, k))
    decreases |events|
  {
    if events != [] {
      var init, last := events[..|events| - 1], events[|events| - 1];
      KeysAreIndependent(configs, init, k);
      if last.key == k {
        var h := HistoryOf(init, k);
        assert (h + [last.event])[..|h|] == h;
      }
    }
  }

  // getHealthScore()
  function HealthScore(state: BreakerState): real {
    match state
    case Closed => 1.0
    case HalfOpen => 0.5
    case Open => 0.0
  }
}
