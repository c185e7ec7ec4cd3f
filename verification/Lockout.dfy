// Login lockout: how many password guesses an account answers.
module Lockout {
  import opened Wrappers

  const MAX_FAILED_LOGIN_ATTEMPTS: nat := 5
  const LOCKOUT_MS: nat := 15 * 60_000

  // The length of n lockouts.
  function Lockouts(n: int): int {
    n * 900_000
  }

  // How many whole lockouts fit into a time.
  function LockoutsIn(time: nat): nat {
    time / 900_000
  }

  datatype User = User(failedLoginCount: nat, lockedUntil: Option<int>, disabled: bool)

  const NEW_USER: User := User(0, None, false)

  datatype LoginOutcome = LoggedIn | WrongPassword | LockedOut | AccountDisabled

  predicate IsLocked(u: User, now: int) {
    u.lockedUntil.Some? && u.lockedUntil.value > now
  }

  // ---------------------------------------------------------------- specification

  // A login that looks at the account at `checkedAt` and has verified the password at `decidedAt`.
  function Outcome(u: User, checkedAt: int, passwordValid: bool): LoginOutcome {
    if u.disabled then AccountDisabled
    else if IsLocked(u, checkedAt) then LockedOut
    else if passwordValid then LoggedIn
    else WrongPassword
  }

  function AfterLogin(u: User, checkedAt: int, decidedAt: int, passwordValid: bool): User {
    match Outcome(u, checkedAt, passwordValid)
    case LoggedIn => u.(failedLoginCount := 0, lockedUntil := None)
    case WrongPassword =>
      u.(failedLoginCount := u.failedLoginCount + 1,
      lockedUntil := if u.failedLoginCount + 1 >= MAX_FAILED_LOGIN_ATTEMPTS then Some(decidedAt + LOCKOUT_MS) else None)
    case _ => u
  }

  // ---------------------------------------------------------------- the service

  class LoginService {
    var user: User

    constructor ()
      ensures user == NEW_USER
    {
      user := NEW_USER;
    }

    method Login(checkedAt: int, decidedAt: int, passwordValid: bool) returns (r: LoginOutcome)
      modifies this
      ensures r == Outcome(old(user), checkedAt, passwordValid)
      ensures user == AfterLogin(old(user), checkedAt, decidedAt, passwordValid)
      ensures r == AccountDisabled <==> old(user).disabled
      ensures r == LockedOut <==> !old(user).disabled && old(user).lockedUntil.Some? && old(user).lockedUntil.value > checkedAt
      ensures r == LoggedIn ==> passwordValid && user == User(0, None, false)
      ensures r == WrongPassword ==>
                && !passwordValid && user.failedLoginCount == old(user).failedLoginCount + 1 && !user.disabled
                && user.lockedUntil == (if user.failedLoginCount >= 5 then Some(decidedAt + 900_000) else None)
      ensures r == AccountDisabled || r == LockedOut ==> user == old(user)
    {
      if user.disabled {
        return AccountDisabled;
      }
      if user.lockedUntil.Some? && user.lockedUntil.value > checkedAt {
        return LockedOut;
      }
      if !passwordValid {
        var failedCount := user.failedLoginCount + 1;
        var lockedUntil := if failedCount >= MAX_FAILED_LOGIN_ATTEMPTS then Some(decidedAt + LOCKOUT_MS) else None;
        RecordLoginFailure(failedCount, lockedUntil);
        return WrongPassword;
      }
      RecordLoginSuccess();
      return LoggedIn;
    }

    method RecordLoginSuccess()
      modifies this
      ensures user == old(user).(failedLoginCount := 0, lockedUntil := None)
    {
      user := user.(failedLoginCount := 0, lockedUntil := None);
    }

    method RecordLoginFailure(failedLoginCount: nat, lockedUntil: Option<int>)
      modifies this
      ensures user == old(user).(failedLoginCount := failedLoginCount, lockedUntil := lockedUntil)
    {
      user := user.(failedLoginCount := failedLoginCount, lockedUntil := lockedUntil);
    }
  }

  // ---------------------------------------------------------------- runs

  datatype AccountEvent =
    | LoginAttempt(checkedAt: int, decidedAt: int, passwordValid: bool)
    | AdminActivate(at: int)
    | AdminPasswordReset(at: int)
    | AdminDisable(at: int)

  // The account, when its counter was last reset, the time of every failed password check
  // since, and the latest time seen.
  datatype Run = Run(user: User, resetAt: int, failures: seq<int>, clock: int)

  function StartsAt(e: AccountEvent): int {
    if e.LoginAttempt? then e.checkedAt else e.at
  }

  // Logins do not overlap and the clock does not go back.
  predicate InOrder(r: Run, e: AccountEvent) {
    r.clock <= StartsAt(e) && (e.LoginAttempt? ==> e.checkedAt <= e.decidedAt)
  }

  function RunNext(r: Run, e: AccountEvent): Run {
    match e
    case LoginAttempt(checkedAt, decidedAt, valid) =>
      var user := AfterLogin(r.user, checkedAt, decidedAt, valid);
      (match Outcome(r.user, checkedAt, valid)
       case LoggedIn => Run(user, decidedAt, [], decidedAt)
       case WrongPassword => Run(user, r.resetAt, r.failures + [decidedAt], decidedAt)
       case _ => r.(clock := decidedAt))
    case AdminActivate(at) => Run(NEW_USER, at, [], at)
    case AdminPasswordReset(at) => Run(r.user.(failedLoginCount := 0, lockedUntil := None), at, [], at)
    case AdminDisable(at) => r.(user := r.user.(disabled := true), clock := at)
  }

  function RunOf(createdAt: int, events: seq<AccountEvent>): Run {
    if events == [] then Run(NEW_USER, createdAt, [], createdAt)
    else RunNext(RunOf(createdAt, events[..|events| - 1]), events[|events| - 1])
  }

  ghost predicate AllInOrder(createdAt: int, events: seq<AccountEvent>) {
    events != [] ==>
      var init := events[..|events| - 1];
      AllInOrder(createdAt, init) && InOrder(RunOf(createdAt, init), events[|events| - 1])
  }

  function CountWithin(times: seq<int>, deadline: int): nat {
    if times == [] then 0
    else CountWithin(times[..|times| - 1], deadline) + if times[|times| - 1] <= deadline then 1 else 0
  }

  // The (k+1)-th failure comes no sooner than k - 4 lockouts after the reset.
  ghost predicate RunInv(r: Run) {
    && r.user.failedLoginCount == |r.failures|
    && (forall k :: 0 <= k < |r.failures| ==> r.resetAt <= r.failures[k] <= r.clock)
    && (forall k :: 4 <= k < |r.failures| ==> r.failures[k] >= r.resetAt + Lockouts(k - 4))
    && r.resetAt <= r.clock
    && (|r.failures| >= MAX_FAILED_LOGIN_ATTEMPTS ==> r.user.lockedUntil == Some(r.failures[|r.failures| - 1] + LOCKOUT_MS))
  }

  lemma EventKeepsRunInv(r: Run, e: AccountEvent)
    requires RunInv(r) && InOrder(r, e)
    ensures RunInv(RunNext(r, e))
  {
    var n := |r.failures|;
    if n >= 5 {
      assert r.failures[n - 1] >= r.resetAt + Lockouts(n - 5);
      assert Lockouts(n - 5) + LOCKOUT_MS == Lockouts(n - 4);
    }
  }

  lemma {:induction false} RunInvAlways(createdAt: int, events: seq<AccountEvent>)
    requires AllInOrder(createdAt, events)
    ensures RunInv(RunOf(createdAt, events))
    decreases |events|
  {
    if events != [] {
      var init := events[..|events| - 1];
      RunInvAlways(createdAt, init);
      EventKeepsRunInv(RunOf(createdAt, init), events[|events| - 1]);
    }
  }

  lemma {:induction false} CountIsAtMost(times: seq<int>, deadline: int, m: nat)
    requires forall k :: 0 <= k < |times| && times[k] <= deadline ==> k < m
    ensures CountWithin(times, deadline) <= m
    ensures CountWithin(times, deadline) <= |times|
    decreases |times|
  {
    if times != [] {
      var n := |times| - 1;
      CountIsAtMost(times[..n], deadline, m);
      if times[n] <= deadline {
        assert n < m;
      }
    }
  }

  // Admin actions: activating and resetting the password clear the counter and the lock, disabling
  // does not touch them and shuts the account until it is activated.
  lemma AdminActions(r: Run, at: int, later: int, passwordValid: bool)
    ensures RunNext(r, AdminActivate(at)).user == User(0, None, false)
    ensures RunNext(r, AdminPasswordReset(at)).user == User(0, None, r.user.disabled)
    ensures var u := RunNext(r, AdminDisable(at)).user;
            && u.failedLoginCount == r.user.failedLoginCount && u.lockedUntil == r.user.lockedUntil
            && Outcome(u, later, passwordValid) == AccountDisabled
  {
  }

  // Over any run: within a time T of the last success or reset, at most 5 + floor(T / 15 min)
  // wrong passwords are checked.
  lemma GuessesAreBounded(createdAt: int, events: seq<AccountEvent>, T: nat)
    requires AllInOrder(createdAt, events)
    ensures var r := RunOf(createdAt, events);
            CountWithin(r.failures, r.resetAt + T) <= MAX_FAILED_LOGIN_ATTEMPTS + LockoutsIn(T)
  {
    RunInvAlways(createdAt, events);
    SpacingBounds(RunOf(createdAt, events), T);
  }

  lemma SpacingBounds(r: Run, T: nat)
    requires RunInv(r)
    ensures CountWithin(r.failures, r.resetAt + T) <= MAX_FAILED_LOGIN_ATTEMPTS + LockoutsIn(T)
  {
    forall k | 0 <= k < |r.failures| && r.failures[k] <= r.resetAt + T ensures k < MAX_FAILED_LOGIN_ATTEMPTS + LockoutsIn(T) {
      if k >= 5 {
        DivisionBound(k - 4, T);
      }
    }
    CountIsAtMost(r.failures, r.resetAt + T, MAX_FAILED_LOGIN_ATTEMPTS + LockoutsIn(T));
  }

  lemma DivisionBound(q: nat, T: nat)
    requires Lockouts(q) <= T
    ensures q <= LockoutsIn(T)
  {
  }

  // The bound is met: guessing five times at once and then at the end of every lockout.
  function PatientGuesser(n: nat): seq<AccountEvent> {
    if n < 5 then seq(n + 1, i => LoginAttempt(0, 0, false))
    else PatientGuesser(n - 1) + [LoginAttempt(Lockouts(n - 4), Lockouts(n - 4), false)]
  }

  // A guess at the moment the lockout after the n-th ends is checked and starts the next one.
  lemma GuessAgain(r: Run, n: nat)
    requires RunInv(r) && n >= 5 && |r.failures| == n && !r.user.disabled
    requires r.resetAt == 0 && r.clock == r.failures[n - 1] == Lockouts(n - 5)
    ensures var at := Lockouts(n - 4);
            var e := LoginAttempt(at, at, false);
            var r' := RunNext(r, e);
            && InOrder(r, e) && !r'.user.disabled && r'.resetAt == 0
            && r'.failures == r.failures + [at] && r'.clock == at
  {
    assert r.user.lockedUntil == Some(Lockouts(n - 4));
  }

  // After n + 1 failures, the last of them at the end of the lockout before it.
  ghost predicate Patient(r: Run, n: nat) {
    && RunInv(r) && r.resetAt == 0 && !r.user.disabled && n >= 4
    && |r.failures| == n + 1 && r.clock == r.failures[n] == Lockouts(n - 4)
  }

  lemma PatientStart()
    ensures AllInOrder(0, PatientGuesser(4)) && Patient(RunOf(0, PatientGuesser(4)), 4)
  {
    FiveAtOnce(5);
    RunInvAlways(0, PatientGuesser(4));
  }

  lemma PatientStep(events: seq<AccountEvent>, n: nat)
    requires n > 4 && AllInOrder(0, events) && Patient(RunOf(0, events), n - 1)
    ensures var longer := events + [LoginAttempt(Lockouts(n - 4), Lockouts(n - 4), false)];
            AllInOrder(0, longer) && Patient(RunOf(0, longer), n)
  {
    var next := LoginAttempt(Lockouts(n - 4), Lockouts(n - 4), false);
    assert (events + [next])[..|events|] == events;
    GuessAgain(RunOf(0, events), n);
    EventKeepsRunInv(RunOf(0, events), next);
  }

  lemma {:induction false} PatientRun(n: nat)
    requires n >= 4
    ensures AllInOrder(0, PatientGuesser(n)) && Patient(RunOf(0, PatientGuesser(n)), n)
    decreases n
  {
    if n == 4 {
      PatientStart();
    } else {
      PatientRun(n - 1);
      PatientStep(PatientGuesser(n - 1), n);
    }
  }

  lemma BoundIsMet(n: nat)
    requires n >= 4
    ensures AllInOrder(0, PatientGuesser(n))
    ensures MeetsBound(RunOf(0, PatientGuesser(n)), Lockouts(n - 4))
  {
    PatientRun(n);
    AllWithin(RunOf(0, PatientGuesser(n)), n);
  }

  ghost predicate MeetsBound(r: Run, T: int) {
    T >= 0 && CountWithin(r.failures, r.resetAt + T) == MAX_FAILED_LOGIN_ATTEMPTS + LockoutsIn(T)
  }

  lemma AllWithin(r: Run, n: nat)
    requires Patient(r, n)
    ensures MeetsBound(r, Lockouts(n - 4))
  {
    ExactDivision(n - 4);
    AllCount(r.failures, Lockouts(n - 4));
  }

  lemma ExactDivision(q: nat)
    ensures Lockouts(q) >= 0 && LockoutsIn(Lockouts(q)) == q
  {
  }

  lemma {:induction false} FiveAtOnce(n: nat)
    requires n <= 5
    ensures var events := seq(n, i => LoginAttempt(0, 0, false));
            && AllInOrder(0, events)
            && RunOf(0, events) == Run(User(n, if n == 5 then Some(LOCKOUT_MS) else None, false), 0, seq(n, i => 0), 0)
    decreases n
  {
    var events := seq(n, i => LoginAttempt(0, 0, false));
    if n > 0 {
      var init := seq(n - 1, i => LoginAttempt(0, 0, false));
      FiveAtOnce(n - 1);
      assert events[..n - 1] == init;
      assert seq(n - 1, i => 0) + [0] == seq(n, i => 0);
    }
  }

  lemma {:induction false} AllCount(times: seq<int>, deadline: int)
    requires forall k :: 0 <= k < |times| ==> times[k] <= deadline
    ensures CountWithin(times, deadline) == |times|
    decreases |times|
  {
    if times != [] { AllCount(times[..|times| - 1], deadline); }
  }
}
