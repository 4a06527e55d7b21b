/**
 * Retry chains end. A failed connect and a counted drop put a timer to sleep; when it fires it may
 * start another connect, whose failure puts the next timer to sleep. This module bounds how many
 * retry connects one chain can start, whoever began it, with any retry entry and any queue. Module
 * `RetryOverrun` shows when the bound fails.
 */
module RetryChain {
  import opened Wrappers
  import opened Lifecycle
  import opened Reconciliation
  import opened LifecycleRuns
  import Backoff

  /** The machine, the timers that are asleep, and the connect workers that have not reported back. */
  datatype Sys = Sys(core: State, asleep: multiset<Timer>, inFlight: multiset<ProfileId>)

  /** A timer fires only if it is asleep, and only once. */
  ghost predicate SysWellformed(y: Sys, e: Event) {
    Wellformed(y.core, e) && (e.TimerFires? ==> e.timer in y.asleep)
  }

  function Awake(y: Sys, e: Event): multiset<Timer> {
    if e.TimerFires? then y.asleep - multiset{e.timer} else y.asleep
  }

  function Unreported(y: Sys, e: Event): multiset<ProfileId> {
    if e.ConnectResult? then y.inFlight - multiset{e.profile} else y.inFlight
  }

  ghost function SysStep(c: Config, y: Sys, e: Event): Sys
    requires SysWellformed(y, e)
  {
    var core := Step(c, y.core, e);
    Sys(core, Awake(y, e) + (core.scheduled - y.core.scheduled), Unreported(y, e) + (core.workers - y.core.workers))
  }

  predicate IsConnected(s: State, a: ProfileId) {
    a in s.registry && s.registry[a].Connected?
  }

  predicate IsConnecting(s: State, a: ProfileId) {
    a in s.registry && s.registry[a].Connecting?
  }

  /** The queue holds a connect of `a`. */
  predicate Queued(c: Config, s: State, a: ProfileId) {
    s.pending.Some? && s.pending.value < |c.profiles| && c.profiles[s.pending.value].name == a
  }

  /** A step within a chain: no user command and no network change. */
  ghost predicate ChainStep(c: Config, y: Sys, e: Event, z: Sys) {
    SysWellformed(y, e) && !e.User? && !e.NetworkChange? && z == SysStep(c, y, e)
  }

  /** A run inside one chain of `a`, which ends at the latest when `a` is Connected. */
  ghost predicate ChainRun(c: Config, ys: seq<Sys>, es: seq<Event>, a: ProfileId) {
    |ys| == |es| + 1 &&
    (forall i {:trigger es[i]} :: 0 <= i < |es| ==> ChainStep(c, ys[i], es[i], ys[i + 1])) &&
    (forall i :: 0 <= i < |ys| ==> !IsConnected(ys[i].core, a))
  }

  lemma StepOfChain(c: Config, ys: seq<Sys>, es: seq<Event>, a: ProfileId, i: nat)
    requires ChainRun(c, ys, es, a) && i < |es|
    ensures ChainStep(c, ys[i], es[i], ys[i + 1])
    ensures !IsConnected(ys[i].core, a) && !IsConnected(ys[i + 1].core, a)
  {
    assert es[i] == es[i];
  }

  /** Connects of `a` that the step from `y` to `z` on `e` started on behalf of a timer. */
  function RetryConnects(y: Sys, e: Event, z: Sys, a: ProfileId): nat {
    if e.TimerFires? && z.core.workers[a] > y.core.workers[a] then z.core.workers[a] - y.core.workers[a] else 0
  }

  function RetryTotal(ys: seq<Sys>, es: seq<Event>, a: ProfileId, n: nat): nat
    requires |ys| == |es| + 1 && n <= |es|
  {
    if n == 0 then 0 else RetryTotal(ys, es, a, n - 1) + RetryConnects(ys[n - 1], es[n - 1], ys[n], a)
  }

  // ---------------------------------------------------------------------- scheduling one attempt

  /**
   * A failed connect schedules the next attempt and remembers whether the chain is automatic, or, out
   * of budget or with a switch queued, ends the chain and empties the queue. The delay is the exact
   * exponential one for exactly the inputs for which the backoff itself is.
   */
  lemma FailureSchedulesNextAttempt(c: Config, s: State, name: ProfileId, error: Option<string>)
    requires InCatalog(c, name) && c.retryMaxDelay <= Backoff.U64_MAX
    ensures var t := ConnectFailed(c, s, name, error);
            var idx, attempt := Position(c.profiles, name).value, RetryAttempt(s, name, 0) + 1;
            var automatic := name in s.retry && s.retry[name].autoReconnect;
            var delay := Backoff.RetryDelay(c.retryBaseDelay, c.retryMaxDelay, attempt);
            if attempt <= c.maxRetries && s.pending.None? then
              && t.retry == s.retry[name := RetryState(attempt, idx, automatic)] && t.pending.None?
              && t.scheduled == s.scheduled + multiset{Timer(idx, attempt, delay)}
              && (delay == Backoff.IdealDelay(c.retryBaseDelay, c.retryMaxDelay, attempt) <==>
                    attempt <= 64 || c.retryBaseDelay != 1 || c.retryMaxDelay <= 0x8000_0000_0000_0000)
            else
              t.retry == s.retry - {name} && t.pending.None? && t.scheduled == s.scheduled
  {
    hide Backoff.RetryDelay, Backoff.IdealDelay, Position;
    Backoff.ExactDelayIff(c.retryBaseDelay, c.retryMaxDelay, RetryAttempt(s, name, 0) + 1);
  }

  // ---------------------------------------------------------------------- what leaves a chain alone

  /** A timer that could match a live retry entry of `a`. */
  predicate Aims(c: Config, timer: Timer, a: ProfileId) {
    Position(c.profiles, a) == Some(timer.idx) && 1 <= timer.attempt <= Budget(c)
  }

  predicate EntryKept(s: State, t: State, a: ProfileId) {
    (a in s.registry <==> a in t.registry) && (a in s.registry ==> s.registry[a] == t.registry[a])
  }

  predicate RetryKept(s: State, t: State, a: ProfileId) {
    (a in s.retry <==> a in t.retry) && (a in s.retry ==> s.retry[a] == t.retry[a])
  }

  /** At most the queue is emptied, unless it is emptied into a connect of `a`. */
  predicate EntryTouched(c: Config, s: State, t: State, a: ProfileId) {
    (EntryKept(s, t, a) && (t.pending == s.pending || t.pending.None?)) ||
    (IsConnecting(t, a) && t.pending.None? && Queued(c, s, a))
  }

  /** Retry entry and timers of `a` stay; its registry entry too, unless a queued connect of it fires. */
  ghost predicate Touch(c: Config, s: State, t: State, a: ProfileId) {
    && RetryKept(s, t, a) && EntryTouched(c, s, t, a)
    && s.scheduled <= t.scheduled
    && (forall m :: Aims(c, m, a) ==> t.scheduled[m] == s.scheduled[m])
  }

  lemma TouchTwice(c: Config, s: State, t: State, u: State, a: ProfileId)
    requires Touch(c, s, t, a) && Touch(c, t, u, a)
    ensures Touch(c, s, u, a)
  {
  }

  lemma GrowthOnly<T>(m: multiset<T>, d: multiset<T>)
    ensures (m + d) - m == d
  {
  }

  lemma DropTouches(c: Config, s: State, name: ProfileId, wasConnected: bool, a: ProfileId)
    requires name != a
    ensures Touch(c, s, HandleDrop(c, s, name, wasConnected), a)
  {
    var at := Position(c.profiles, name);
    assert at.Some? ==> c.profiles[at.value].name != a;
  }

  lemma DrainTouches(c: Config, env: Env, s: State, name: ProfileId, a: ProfileId)
    requires name != a
    ensures Touch(c, s, CompleteDisconnect(c, env, s, name), a)
  {
  }

  /** The walk's arms for other entries, and its arms for `a` while it is coming up or failed. */
  lemma ArmTouches(c: Config, env: Env, s: State, name: ProfileId, snap: Connection, seen: Option<Session>, a: ProfileId)
    requires name != a || snap.Connecting? || snap.Disconnected?
    ensures Touch(c, s, ScanArm(c, env, s, name, snap, seen), a)
  {
    if name != a {
      DropTouches(c, s, name, true, a);
      DropTouches(c, s, name, false, a);
      DrainTouches(c, env, s, name, a);
    }
  }

  predicate Idle(r: Registry, a: ProfileId) {
    a in r ==> r[a].Connecting? || r[a].Disconnected?
  }

  lemma {:induction false} WalkTouches(c: Config, env: Env, s: State, snaps: Registry, order: seq<ProfileId>, sessions: seq<Session>, a: ProfileId)
    requires (forall id :: id in order ==> id in snaps) && Idle(snaps, a)
    ensures Touch(c, s, ReconcileAll(c, env, s, snaps, order, sessions), a)
  {
    if order != [] {
      var init, last := order[..|order| - 1], order[|order| - 1];
      var t := ReconcileAll(c, env, s, snaps, init, sessions);
      WalkTouches(c, env, s, snaps, init, sessions, a);
      ArmTouches(c, env, t, last, snaps[last], FirstNamed(sessions, last), a);
      TouchTwice(c, s, t, ScanArm(c, env, t, last, snaps[last], FirstNamed(sessions, last)), a);
    }
  }

  lemma AdoptionTouches(c: Config, env: Env, s: State, handled: set<ProfileId>, sessions: seq<Session>, a: ProfileId)
    requires !IsConnected(AdoptAll(c, env, s, handled, sessions), a) || a in handled
    ensures Touch(c, s, AdoptAll(c, env, s, handled, sessions), a)
  {
    AdoptIsPointwise(c, env, s, handled, sessions);
  }

  /** A scan that does not adopt `a` leaves its chain alone, whatever it does to the rest. */
  lemma ScanTouches(c: Config, env: Env, s: State, order: seq<ProfileId>, sessions: seq<Session>, a: ProfileId)
    requires Enumerates(order, s.registry) && Idle(s.registry, a)
    requires !IsConnected(ScanTick(c, env, s, order, sessions), a)
    ensures Touch(c, s, ScanTick(c, env, s, order, sessions), a)
  {
    var t := ReconcileAll(c, env, s, s.registry, order, sessions);
    WalkTouches(c, env, s, s.registry, order, sessions, a);
    AdoptionTouches(c, env, t, s.registry.Keys, sessions, a);
    TouchTwice(c, s, t, ScanTick(c, env, s, order, sessions), a);
  }

  lemma FailureTouches(c: Config, s: State, name: ProfileId, error: Option<string>, a: ProfileId)
    requires name != a
    ensures Touch(c, s, ConnectFailed(c, s, name, error), a)
  {
    var timer := FailureTimer(c, s, name);
    assert timer.Some? ==> c.profiles[timer.value.idx].name != a;
  }

  lemma TimerTouches(c: Config, env: Env, s: State, timer: Timer, a: ProfileId)
    requires Inv(c, s)
    requires !(RetryMatches(c, s, timer.idx, timer.attempt) && MatchesName(c, timer, a))
    ensures Touch(c, s, RetryConnect(c, env, s, timer.idx, timer.attempt), a)
    ensures RetryConnect(c, env, s, timer.idx, timer.attempt).workers[a] == s.workers[a]
  {
  }

  // ---------------------------------------------------------------------- the potential

  /** Retry connects still to come after attempt `attempt`. */
  function Remaining(c: Config, attempt: nat): nat {
    if attempt < c.maxRetries then c.maxRetries - attempt else 0
  }

  ghost predicate HasTimer(c: Config, y: Sys, a: ProfileId) {
    exists t :: t in y.asleep && Aims(c, t, a)
  }

  /** A sleeping timer that matches the retry entry of `a` as it stands. */
  predicate Live(c: Config, y: Sys, t: Timer, a: ProfileId) {
    t in y.asleep && Aims(c, t, a) && a in y.core.retry && t.attempt == y.core.retry[a].attempt
  }

  ghost predicate HasLive(c: Config, y: Sys, a: ProfileId) {
    exists t :: Live(c, y, t, a)
  }

  /** No timer is ahead of the retry entry, and at most one matches it. */
  ghost predicate InStep(c: Config, y: Sys, a: ProfileId) {
    && (forall t :: t in y.asleep && Aims(c, t, a) && a in y.core.retry ==> t.attempt <= y.core.retry[a].attempt)
    && (forall t :: Live(c, y, t, a) ==> y.asleep[t] == 1)
    && (forall t, u :: Live(c, y, t, a) && Live(c, y, u, a) ==> t == u)
  }

  /** No timer of an earlier attempt is left. */
  ghost predicate NoDead(c: Config, y: Sys, a: ProfileId) {
    forall t :: t in y.asleep && Aims(c, t, a) ==> Live(c, y, t, a)
  }

  /** Where the retry entry may yet be thrown away and the count begin again. */
  ghost predicate MayRestart(c: Config, y: Sys, a: ProfileId) {
    if IsConnecting(y.core, a) then HasLive(c, y, a) || a !in y.core.retry else Queued(c, y.core, a)
  }

  ghost predicate ChainOk(c: Config, y: Sys, a: ProfileId) {
    Inv(c, y.core) && Idle(y.core.registry, a) && InStep(c, y, a) && (MayRestart(c, y, a) ==> NoDead(c, y, a))
  }

  /** An upper bound on the retry connects the chain can still start. */
  ghost function Potential(c: Config, y: Sys, a: ProfileId): nat {
    var rest := Remaining(c, RetryAttempt(y.core, a, 0));
    if IsConnecting(y.core, a) then if HasLive(c, y, a) then c.maxRetries else rest
    else if HasLive(c, y, a) then if Queued(c, y.core, a) && c.maxRetries > 1 + rest then c.maxRetries else 1 + rest
    else if Queued(c, y.core, a) then rest else 0
  }

  /** The core is touched, and of the timers aimed at `a` none is new. */
  ghost predicate SysTouch(c: Config, y: Sys, z: Sys, a: ProfileId) {
    && RetryKept(y.core, z.core, a) && EntryTouched(c, y.core, z.core, a)
    && (forall t :: Aims(c, t, a) ==> z.asleep[t] <= y.asleep[t])
  }

  lemma TouchKeepsChain(c: Config, y: Sys, z: Sys, a: ProfileId)
    requires ChainOk(c, y, a) && SysTouch(c, y, z, a) && Inv(c, z.core)
    ensures ChainOk(c, z, a) && Potential(c, z, a) <= Potential(c, y, a)
  {
    assert forall t :: t in z.asleep && Aims(c, t, a) ==> t in y.asleep;
    assert forall t :: Live(c, z, t, a) ==> Live(c, y, t, a);
    assert forall t :: Live(c, y, t, a) && t in z.asleep ==> Live(c, z, t, a);
  }

  lemma TouchOfSys(c: Config, y: Sys, e: Event, a: ProfileId)
    requires SysWellformed(y, e) && Touch(c, y.core, Step(c, y.core, e), a)
    ensures SysTouch(c, y, SysStep(c, y, e), a)
  {
  }

  // ---------------------------------------------------------------------- one step

  function Timers(timer: Option<Timer>): multiset<Timer> {
    if timer.Some? then multiset{timer.value} else multiset{}
  }

  lemma FailureSchedules(c: Config, s: State, name: ProfileId, error: Option<string>)
    ensures ConnectFailed(c, s, name, error).scheduled - s.scheduled == Timers(FailureTimer(c, s, name))
  {
    GrowthOnly(s.scheduled, Timers(FailureTimer(c, s, name)));
  }

  lemma FailureMovesChain(c: Config, y: Sys, z: Sys, error: Option<string>, a: ProfileId)
    requires ChainOk(c, y, a) && IsConnecting(y.core, a) && Inv(c, z.core)
    requires z.core == ConnectFailed(c, y.core, a, error)
    requires z.asleep == y.asleep + Timers(FailureTimer(c, y.core, a))
    ensures ChainOk(c, z, a) && Potential(c, z, a) <= Potential(c, y, a)
  {
    if FailureTimer(c, y.core, a).Some? {
      NextAttempt(c, y, z, error, a);
    } else {
      assert forall t :: !Live(c, z, t, a);
    }
  }

  lemma NextAttempt(c: Config, y: Sys, z: Sys, error: Option<string>, a: ProfileId)
    requires ChainOk(c, y, a) && IsConnecting(y.core, a) && Inv(c, z.core)
    requires z.core == ConnectFailed(c, y.core, a, error) && FailureTimer(c, y.core, a).Some?
    requires z.asleep == y.asleep + multiset{FailureTimer(c, y.core, a).value}
    ensures ChainOk(c, z, a) && Potential(c, z, a) <= Potential(c, y, a)
  {
    var timer := FailureTimer(c, y.core, a).value;
    NoneAhead(c, y, a);
    assert z.core.retry[a].attempt == RetryAttempt(y.core, a, 0) + 1;
    assert timer !in y.asleep;
    assert forall t :: Live(c, z, t, a) <==> t == timer;
  }

  lemma NoneAhead(c: Config, y: Sys, a: ProfileId)
    requires ChainOk(c, y, a) && IsConnecting(y.core, a)
    ensures forall t :: t in y.asleep && Aims(c, t, a) ==> t.attempt <= RetryAttempt(y.core, a, 0)
  {
    assert a !in y.core.retry ==> forall t :: !Live(c, y, t, a);
  }

  /** A matching timer fires: either it connects, or the entry is thrown away because a tunnel is active. */
  lemma OwnTimerMovesChain(c: Config, y: Sys, env: Env, timer: Timer, z: Sys, a: ProfileId)
    requires ChainOk(c, y, a) && timer in y.asleep
    requires RetryMatches(c, y.core, timer.idx, timer.attempt) && MatchesName(c, timer, a)
    requires z.core == RetryConnect(c, env, y.core, timer.idx, timer.attempt) && z.asleep == y.asleep - multiset{timer}
    requires Inv(c, z.core)
    ensures ChainOk(c, z, a)
    ensures Potential(c, z, a) + RetryConnects(y, TimerFires(env, timer), z, a) <= Potential(c, y, a)
  {
    assert RetryEntryOk(c, a, y.core.retry[a]);
    assert Live(c, y, timer, a);
    assert forall t :: t in z.asleep ==> t in y.asleep;
    assert timer !in z.asleep;
    assert forall t :: Live(c, z, t, a) ==> Live(c, y, t, a);
    assert !HasLive(c, z, a);
    if AnyActive(y.core.registry) {
      ThrownAway(c, y, timer, z, a);
    } else if ConnectAllowed(c, env, y.core, timer.idx, false) {
      assert !IsConnecting(y.core, a);
      assert z.core == StartConnect(env, y.core, a);
    }
  }

  lemma ThrownAway(c: Config, y: Sys, timer: Timer, z: Sys, a: ProfileId)
    requires ChainOk(c, y, a) && Live(c, y, timer, a) && Inv(c, z.core)
    requires z.core == y.core.(retry := y.core.retry - {a}) && z.asleep == y.asleep - multiset{timer}
    ensures ChainOk(c, z, a) && Potential(c, z, a) <= Potential(c, y, a)
  {
    if MayRestart(c, z, a) {
      assert MayRestart(c, y, a);
      assert forall t :: t in z.asleep && Aims(c, t, a) ==> Live(c, y, t, a) && t == timer;
    }
    assert forall t :: !Live(c, z, t, a);
  }

  lemma OtherTimerKeepsChain(c: Config, y: Sys, env: Env, timer: Timer, z: Sys, a: ProfileId)
    requires ChainOk(c, y, a) && ChainStep(c, y, TimerFires(env, timer), z) && Inv(c, z.core)
    requires !(RetryMatches(c, y.core, timer.idx, timer.attempt) && MatchesName(c, timer, a))
    ensures ChainOk(c, z, a) && Potential(c, z, a) <= Potential(c, y, a)
    ensures RetryConnects(y, TimerFires(env, timer), z, a) == 0
  {
    ChainOkParts(c, y, a);
    hide ChainOk, Potential, Inv, RetryMatches;
    TimerTouches(c, env, y.core, timer, a);
    TouchOfSys(c, y, TimerFires(env, timer), a);
    TouchKeepsChain(c, y, z, a);
  }

  lemma FiredTimer(c: Config, y: Sys, env: Env, timer: Timer, z: Sys)
    requires ChainStep(c, y, TimerFires(env, timer), z)
    ensures z.core == RetryConnect(c, env, y.core, timer.idx, timer.attempt) && z.asleep == y.asleep - multiset{timer}
  {
    GrowthOnly(y.core.scheduled, multiset{});
  }

  lemma TimerKeepsChain(c: Config, y: Sys, env: Env, timer: Timer, z: Sys, a: ProfileId)
    requires ChainOk(c, y, a) && ChainStep(c, y, TimerFires(env, timer), z) && Inv(c, z.core)
    ensures ChainOk(c, z, a)
    ensures Potential(c, z, a) + RetryConnects(y, TimerFires(env, timer), z, a) <= Potential(c, y, a)
  {
    hide ChainOk, Potential, Inv, SysStep, RetryMatches;
    if RetryMatches(c, y.core, timer.idx, timer.attempt) && MatchesName(c, timer, a) {
      FiredTimer(c, y, env, timer, z);
      OwnTimerMovesChain(c, y, env, timer, z, a);
    } else {
      OtherTimerKeepsChain(c, y, env, timer, z, a);
    }
  }

  predicate MatchesName(c: Config, timer: Timer, a: ProfileId) {
    timer.idx < |c.profiles| && c.profiles[timer.idx].name == a
  }

  lemma TimeoutEndsChain(c: Config, y: Sys, z: Sys, a: ProfileId)
    requires ChainOk(c, y, a) && ChainStep(c, y, Timeout(a), z)
    ensures ChainOk(c, z, a) && Potential(c, z, a) == 0
  {
    StepKeepsInv(c, y.core, Timeout(a));
    assert forall t :: !Live(c, z, t, a);
  }

  lemma PollTouches(c: Config, env: Env, s: State, recv: Recv, order: seq<ProfileId>, a: ProfileId)
    requires Enumerates(order, s.registry) && Idle(s.registry, a)
    requires !IsConnected(PollScanner(c, env, s, recv, order), a)
    ensures Touch(c, s, PollScanner(c, env, s, recv, order), a)
  {
    hide ScanTick;
    if s.scannerRx.Some? && recv.Ready? {
      ScanTouches(c, env, s.(scannerRx := None), order, recv.sessions, a);
    }
  }

  lemma ResultTouches(c: Config, s: State, e: Event, a: ProfileId)
    requires e.ConnectResult? && Wellformed(s, e)
    requires e.profile == a ==> !IsConnecting(s, a) && Idle(s.registry, a)
    ensures Touch(c, s, Step(c, s, e), a)
  {
    if e.profile != a {
      FailureTouches(c, s, e.profile, e.error, a);
    }
  }

  /** The step touches `a` at most, unless it is a failure, a matching timer or a timeout of `a` itself. */
  lemma StepTouches(c: Config, y: Sys, e: Event, z: Sys, a: ProfileId)
    requires Idle(y.core.registry, a) && ChainStep(c, y, e, z) && !IsConnected(z.core, a)
    requires e.ConnectResult? && e.profile == a ==> !IsConnecting(y.core, a)
    requires e.Timeout? ==> e.profile != a
    requires !e.TimerFires?
    ensures Touch(c, y.core, z.core, a)
  {
    hide ScanTick, PollScanner, ConnectFailed;
    match e
    case Scan(env, order, sessions) => ScanTouches(c, env, y.core, order, sessions, a);
    case Poll(env, recv, order) => PollTouches(c, env, y.core, recv, order, a);
    case ConnectResult(_, _, _, _, _, _) => ResultTouches(c, y.core, e, a);
    case DisconnectResult(_, _) =>
    case Timeout(_) =>
  }

  lemma StepKeepsChain(c: Config, y: Sys, e: Event, z: Sys, a: ProfileId)
    requires ChainOk(c, y, a) && ChainStep(c, y, e, z) && !IsConnected(z.core, a)
    ensures ChainOk(c, z, a) && Potential(c, z, a) + RetryConnects(y, e, z, a) <= Potential(c, y, a)
  {
    hide ChainOk, Potential, Step, Inv;
    ChainOkParts(c, y, a);
    StepKeepsInv(c, y.core, e);
    if e.TimerFires? {
      TimerKeepsChain(c, y, e.env, e.timer, z, a);
    } else if e == Timeout(a) {
      TimeoutEndsChain(c, y, z, a);
    } else if e.ConnectResult? && e.profile == a && IsConnecting(y.core, a) {
      OwnResultMovesChain(c, y, e, z, a);
    } else {
      StepTouches(c, y, e, z, a);
      TouchOfSys(c, y, e, a);
      TouchKeepsChain(c, y, z, a);
    }
  }

  lemma OwnResultMovesChain(c: Config, y: Sys, e: Event, z: Sys, a: ProfileId)
    requires ChainOk(c, y, a) && ChainStep(c, y, e, z) && !IsConnected(z.core, a)
    requires e.ConnectResult? && e.profile == a && IsConnecting(y.core, a)
    ensures ChainOk(c, z, a) && Potential(c, z, a) <= Potential(c, y, a)
  {
    StepKeepsInv(c, y.core, e);
    ChainOkParts(c, y, a);
    hide ChainOk, Potential, Inv;
    assert z.core == ConnectFailed(c, y.core, a, e.error);
    FailureSchedules(c, y.core, a, e.error);
    FailureMovesChain(c, y, z, e.error, a);
  }

  lemma ChainOkParts(c: Config, y: Sys, a: ProfileId)
    requires ChainOk(c, y, a)
    ensures Inv(c, y.core) && Idle(y.core.registry, a) && (IsConnecting(y.core, a) ==> InCatalog(c, a))
  {
  }

  /** The step keeps the chain in shape and pays for its retry connects out of the potential. */
  ghost predicate Advances(c: Config, y: Sys, e: Event, z: Sys, a: ProfileId) {
    ChainOk(c, y, a) ==> ChainOk(c, z, a) && Potential(c, z, a) + RetryConnects(y, e, z, a) <= Potential(c, y, a)
  }

  lemma {:induction false} PotentialPays(c: Config, ys: seq<Sys>, es: seq<Event>, a: ProfileId, n: nat)
    requires |ys| == |es| + 1 && n <= |es| && ChainOk(c, ys[0], a)
    requires forall i {:trigger es[i]} :: 0 <= i < |es| ==> Advances(c, ys[i], es[i], ys[i + 1], a)
    ensures ChainOk(c, ys[n], a)
    ensures RetryTotal(ys, es, a, n) + Potential(c, ys[n], a) <= Potential(c, ys[0], a)
  {
    if n > 0 {
      PotentialPays(c, ys, es, a, n - 1);
      assert Advances(c, ys[n - 1], es[n - 1], ys[n], a);
    }
  }

  lemma RunKeepsChain(c: Config, ys: seq<Sys>, es: seq<Event>, a: ProfileId)
    requires ChainRun(c, ys, es, a) && ChainOk(c, ys[0], a)
    ensures RetryTotal(ys, es, a, |es|) <= Potential(c, ys[0], a)
  {
    forall i {:trigger es[i]} | 0 <= i < |es| ensures Advances(c, ys[i], es[i], ys[i + 1], a) {
      StepOfChain(c, ys, es, a, i);
      if ChainOk(c, ys[i], a) {
        StepKeepsChain(c, ys[i], es[i], ys[i + 1], a);
      }
    }
    PotentialPays(c, ys, es, a, |es|);
  }

  /** In a run, a retry connect comes of a timer that matches the live entry, with no tunnel active. */
  lemma RetryConnectsAreGuarded(c: Config, ys: seq<Sys>, es: seq<Event>, a: ProfileId, i: nat)
    requires ChainRun(c, ys, es, a) && i < |es| && Inv(c, ys[0].core)
    requires RetryConnects(ys[i], es[i], ys[i + 1], a) > 0
    ensures RetryConnects(ys[i], es[i], ys[i + 1], a) == 1
    ensures es[i].TimerFires? && Live(c, ys[i], es[i].timer, a) && !AnyActive(ys[i].core.registry)
    ensures ys[i + 1].core.registry == ys[i].core.registry[a := Connecting(es[i].env.now, es[i].timer.attempt)]
  {
    StepOfChain(c, ys, es, a, i);
    ChainKeepsInv(c, ys, es, a, i);
    var s, timer := ys[i].core, es[i].timer;
    if !(RetryMatches(c, s, timer.idx, timer.attempt) && MatchesName(c, timer, a)) {
      TimerTouches(c, es[i].env, s, timer, a);
    }
    assert RetryEntryOk(c, a, s.retry[a]);
  }

  ghost predicate SysKeepsInv(c: Config, y: Sys, e: Event, z: Sys) {
    Inv(c, y.core) ==> Inv(c, z.core)
  }

  lemma {:induction false} SysInvAdds(c: Config, ys: seq<Sys>, es: seq<Event>, n: nat)
    requires |ys| == |es| + 1 && n <= |es| && Inv(c, ys[0].core)
    requires forall i {:trigger es[i]} :: 0 <= i < |es| ==> SysKeepsInv(c, ys[i], es[i], ys[i + 1])
    ensures Inv(c, ys[n].core)
  {
    if n > 0 {
      SysInvAdds(c, ys, es, n - 1);
      assert SysKeepsInv(c, ys[n - 1], es[n - 1], ys[n]);
    }
  }

  lemma ChainKeepsInv(c: Config, ys: seq<Sys>, es: seq<Event>, a: ProfileId, n: nat)
    requires ChainRun(c, ys, es, a) && n <= |es| && Inv(c, ys[0].core)
    ensures Inv(c, ys[n].core)
  {
    forall i {:trigger es[i]} | 0 <= i < |es| ensures SysKeepsInv(c, ys[i], es[i], ys[i + 1]) {
      StepOfChain(c, ys, es, a, i);
      if Inv(c, ys[i].core) {
        ChainStepKeepsInv(c, ys[i], es[i], ys[i + 1]);
      }
    }
    SysInvAdds(c, ys, es, n);
  }

  lemma ChainStepKeepsInv(c: Config, y: Sys, e: Event, z: Sys)
    requires Inv(c, y.core) && ChainStep(c, y, e, z)
    ensures Inv(c, z.core)
  {
    StepKeepsInv(c, y.core, e);
  }

  // ---------------------------------------------------------------------- chains begun by a connect

  /** Workers are only ever added, and a profile that comes up has a worker of its own. */
  predicate Starts(s: State, t: State, a: ProfileId) {
    s.workers <= t.workers && (IsConnecting(t, a) ==> IsConnecting(s, a) || t.workers[a] > s.workers[a])
  }

  lemma {:induction false} WalkStarts(c: Config, env: Env, s: State, snaps: Registry, order: seq<ProfileId>, sessions: seq<Session>, a: ProfileId)
    requires forall id :: id in order ==> id in snaps
    ensures Starts(s, ReconcileAll(c, env, s, snaps, order, sessions), a)
  {
    if order != [] {
      var init, last := order[..|order| - 1], order[|order| - 1];
      WalkStarts(c, env, s, snaps, init, sessions, a);
      ArmStarts(c, env, ReconcileAll(c, env, s, snaps, init, sessions), last, snaps[last], FirstNamed(sessions, last), a);
    }
  }

  lemma ScanStarts(c: Config, env: Env, s: State, order: seq<ProfileId>, sessions: seq<Session>, a: ProfileId)
    requires Enumerates(order, s.registry)
    ensures Starts(s, ScanTick(c, env, s, order, sessions), a)
  {
    WalkStarts(c, env, s, s.registry, order, sessions, a);
    AdoptIsPointwise(c, env, ReconcileAll(c, env, s, s.registry, order, sessions), s.registry.Keys, sessions);
  }

  lemma {:induction false} DisconnectAllStarts(c: Config, env: Env, s: State, names: seq<ProfileId>, a: ProfileId)
    ensures Starts(s, DisconnectAll(c, env, s, names), a)
    decreases |names|
  {
    if names != [] {
      DisconnectAllStarts(c, env, DisconnectSpecific(c, env, s, names[0]), names[1..], a);
    }
  }

  lemma {:induction false} RearmStarts(c: Config, s: State, entries: seq<RetryState>, a: ProfileId)
    ensures Starts(s, RearmAll(c, s, entries), a)
  {
    if entries != [] {
      RearmStarts(c, s, entries[..|entries| - 1], a);
    }
  }

  lemma ToggleStarts(c: Config, env: Env, s: State, view: View, idx: nat, a: ProfileId)
    ensures Starts(s, ToggleConnection(c, env, s, view, idx), a)
  {
    hide ConnectAllowed, Position, InCatalog;
  }

  lemma ArmStarts(c: Config, env: Env, s: State, name: ProfileId, snap: Connection, seen: Option<Session>, a: ProfileId)
    ensures Starts(s, ScanArm(c, env, s, name, snap, seen), a)
  {
    hide ConnectAllowed, Position, InCatalog;
  }

  lemma CommandStarts(c: Config, env: Env, s: State, view: View, command: Command, a: ProfileId)
    ensures Starts(s, RunCommand(c, env, s, view, command), a)
  {
    hide ConnectAllowed, Position, InCatalog, Reconnect, ToggleConnection, DisconnectAll, ForceDisconnect, DisconnectCurrent;
    match command
    case DisconnectOrForce => CurrentStarts(c, env, s, view, a);
    case SwitchExclusive(idx) => CurrentStarts(c, env, s.(pending := Some(idx)), view, a);
    case DisconnectEvery(names) => DisconnectAllStarts(c, env, s, names, a);
    case Toggle(idx) => ToggleStarts(c, env, s, view, idx, a);
    case Selected(idx) => ToggleStarts(c, env, s, view, idx, a);
    case ReconnectLast => ReconnectStarts(c, env, s, view, a);
    case _ =>
  }

  lemma CurrentStarts(c: Config, env: Env, s: State, view: View, a: ProfileId)
    ensures Starts(s, DisconnectCurrent(c, env, s, view), a) && Starts(s, ForceDisconnect(c, env, s, view), a)
  {
  }

  lemma ReconnectStarts(c: Config, env: Env, s: State, view: View, a: ProfileId)
    ensures Starts(s, Reconnect(c, env, s, view), a)
  {
    hide ConnectAllowed, Position;
  }

  lemma StepStarts(c: Config, s: State, e: Event, a: ProfileId)
    requires Wellformed(s, e)
    ensures Starts(s, Step(c, s, e), a)
  {
    hide RunCommand, ScanTick, RearmAll;
    match e
    case Scan(env, order, sessions) => ScanStarts(c, env, s, order, sessions, a);
    case Poll(env, recv, order) =>
      if s.scannerRx.Some? && recv.Ready? {
        ScanStarts(c, env, s.(scannerRx := None), order, recv.sessions, a);
      }
    case ConnectResult(_, _, _, _, _, _) =>
    case DisconnectResult(_, _) =>
    case TimerFires(_, _) =>
    case NetworkChange(_, entries) => RearmStarts(c, s, entries, a);
    case Timeout(_) =>
    case User(env, view, command) => CommandStarts(c, env, s, view, command, a);
  }

  /** A connect of `a` is in progress and its worker has yet to report, whatever the retry entry and the queue. */
  ghost predicate ConnectStarted(c: Config, y: Sys, a: ProfileId) {
    Inv(c, y.core) && IsConnecting(y.core, a) && a in y.inFlight
  }

  /** Whatever brings `a` up begins a chain: any command, a queued connect, a timer. */
  lemma EveryConnectStartsChain(c: Config, y: Sys, e: Event, a: ProfileId)
    requires Inv(c, y.core) && SysWellformed(y, e)
    requires !IsConnecting(y.core, a) && IsConnecting(Step(c, y.core, e), a)
    ensures ConnectStarted(c, SysStep(c, y, e), a)
  {
    StepKeepsInv(c, y.core, e);
    StepStarts(c, y.core, e, a);
  }

  /**
   * A connect in progress on attempt r, with no timer of an earlier chain asleep, leads to at most
   * `maxRetries` - r retry connects, with any queue; a user's own connect has r = 0 or takes up the
   * attempt of the retry entry it found.
   */
  lemma ConnectChainBound(c: Config, ys: seq<Sys>, es: seq<Event>, a: ProfileId)
    requires ChainRun(c, ys, es, a) && Inv(c, ys[0].core) && IsConnecting(ys[0].core, a)
    requires !HasTimer(c, ys[0], a)
    ensures RetryTotal(ys, es, a, |es|) <= Remaining(c, RetryAttempt(ys[0].core, a, 0)) <= c.maxRetries
  {
    assert forall t :: !Live(c, ys[0], t, a);
    RunKeepsChain(c, ys, es, a);
  }

  // ---------------------------------------------------------------------- chains begun by a drop

  /** What a tick that drops `a` does to it: re-armed or not, and gone unless a queued connect brings it back up. */
  ghost predicate DropLeaves(c: Config, s: State, t: State, a: ProfileId) {
    && InCatalog(c, a) && s.scheduled <= t.scheduled
    && (if c.autoReconnect then a in t.retry && t.retry[a] == RetryAfterDrop(c, a) else RetryKept(s, t, a))
    && (forall m :: Aims(c, m, a) ==>
          t.scheduled[m] == s.scheduled[m] + if c.autoReconnect && m == DropTimer(c, a) then 1 else 0)
    && ((a !in t.registry && (t.pending == s.pending || t.pending.None?)) ||
        (IsConnecting(t, a) && t.pending.None? && Queued(c, s, a)))
  }

  lemma DropLeavesNow(c: Config, s: State, t: State, a: ProfileId)
    requires InCatalog(c, a) && Touch(c, s, t, a)
    ensures DropLeaves(c, s, HandleDrop(c, t, a, true), a)
  {
  }

  lemma DropLeavesStill(c: Config, s: State, t: State, u: State, a: ProfileId)
    requires DropLeaves(c, s, t, a) && Touch(c, t, u, a)
    ensures DropLeaves(c, s, u, a)
  {
  }

  lemma {:induction false} WalkDrops(c: Config, env: Env, s: State, order: seq<ProfileId>, sessions: seq<Session>, a: ProfileId)
    requires forall id :: id in order ==> id in s.registry
    requires forall i, j :: 0 <= i < j < |order| ==> order[i] != order[j]
    requires InCatalog(c, a) && a in Dropped(s.registry, sessions)
    ensures var t := ReconcileAll(c, env, s, s.registry, order, sessions);
            if a in order then DropLeaves(c, s, t, a) else Touch(c, s, t, a)
  {
    if order != [] {
      var init, last := order[..|order| - 1], order[|order| - 1];
      assert order == init + [last];
      var t := ReconcileAll(c, env, s, s.registry, init, sessions);
      WalkDrops(c, env, s, init, sessions, a);
      if last == a {
        DropLeavesNow(c, s, t, a);
      } else {
        var u := ScanArm(c, env, t, last, s.registry[last], FirstNamed(sessions, last));
        ArmTouches(c, env, t, last, s.registry[last], FirstNamed(sessions, last), a);
        if a in order {
          DropLeavesStill(c, s, t, u, a);
        } else {
          TouchTwice(c, s, t, u, a);
        }
      }
    }
  }

  lemma ScanDrops(c: Config, env: Env, s: State, order: seq<ProfileId>, sessions: seq<Session>, a: ProfileId)
    requires Enumerates(order, s.registry) && InCatalog(c, a) && a in Dropped(s.registry, sessions)
    ensures DropLeaves(c, s, ScanTick(c, env, s, order, sessions), a)
  {
    var t := ReconcileAll(c, env, s, s.registry, order, sessions);
    WalkDrops(c, env, s, order, sessions, a);
    AdoptionTouches(c, env, t, s.registry.Keys, sessions, a);
    DropLeavesStill(c, s, t, ScanTick(c, env, s, order, sessions), a);
  }

  /** The scan event `e` counts a drop of `a`. */
  ghost predicate DropCounted(c: Config, y: Sys, e: Event, a: ProfileId) {
    Inv(c, y.core) && SysWellformed(y, e) && a in DroppedBy(y.core, e)
  }

  lemma StepDrops(c: Config, y: Sys, e: Event, a: ProfileId)
    requires DropCounted(c, y, e, a)
    ensures DropLeaves(c, y.core, Step(c, y.core, e), a)
  {
    match e
    case Scan(env, order, sessions) => ScanDrops(c, env, y.core, order, sessions, a);
    case Poll(env, recv, order) => ScanDrops(c, env, y.core.(scannerRx := None), order, recv.sessions, a);
  }

  lemma DropTimers1(c: Config, y: Sys, e: Event, a: ProfileId, m: Timer)
    requires DropCounted(c, y, e, a) && Aims(c, m, a)
    ensures SysStep(c, y, e).asleep[m] == y.asleep[m] + if c.autoReconnect && m == DropTimer(c, a) then 1 else 0
  {
    StepDrops(c, y, e, a);
  }

  /** What a drop may lead to: its own chain, or that of the connect of `a` which was queued behind it. */
  ghost function DropBudget(c: Config, s: State, a: ProfileId): nat {
    if c.autoReconnect then Budget(c)
    else if Queued(c, s, a) then Remaining(c, RetryAttempt(s, a, 0))
    else 0
  }

  /** After the drop at most its own timer is asleep, and it matches the entry. */
  lemma DropTimersAsleep(c: Config, y: Sys, e: Event, a: ProfileId)
    requires DropCounted(c, y, e, a) && !HasTimer(c, y, a)
    ensures var z := SysStep(c, y, e);
            forall t :: t in z.asleep && Aims(c, t, a) <==> c.autoReconnect && t == DropTimer(c, a)
    ensures c.autoReconnect ==> SysStep(c, y, e).asleep[DropTimer(c, a)] == 1
  {
    var z := SysStep(c, y, e);
    StepDrops(c, y, e, a);
    assert c.autoReconnect ==> Aims(c, DropTimer(c, a), a);
    forall t | Aims(c, t, a) ensures z.asleep[t] == if c.autoReconnect && t == DropTimer(c, a) then 1 else 0 {
      DropTimers1(c, y, e, a, t);
      assert t !in y.asleep;
    }
  }

  lemma ArmedDrop(c: Config, s: State, z: Sys, a: ProfileId)
    requires Inv(c, z.core) && DropLeaves(c, s, z.core, a) && c.autoReconnect
    requires forall t :: t in z.asleep && Aims(c, t, a) <==> t == DropTimer(c, a)
    requires z.asleep[DropTimer(c, a)] == 1
    ensures ChainOk(c, z, a) && Potential(c, z, a) <= Budget(c)
  {
    assert forall t :: Live(c, z, t, a) <==> t == DropTimer(c, a);
    assert RetryAttempt(z.core, a, 0) == 1;
  }

  lemma UnarmedDrop(c: Config, s: State, z: Sys, a: ProfileId)
    requires Inv(c, z.core) && DropLeaves(c, s, z.core, a) && !c.autoReconnect
    requires forall t :: t in z.asleep ==> !Aims(c, t, a)
    ensures ChainOk(c, z, a) && Potential(c, z, a) <= DropBudget(c, s, a)
  {
    assert forall t :: !Live(c, z, t, a);
  }

  lemma DropStartsChain(c: Config, y: Sys, e: Event, a: ProfileId)
    requires DropCounted(c, y, e, a) && !HasTimer(c, y, a)
    ensures var z := SysStep(c, y, e);
            ChainOk(c, z, a) && Potential(c, z, a) <= DropBudget(c, y.core, a)
  {
    hide Step, ChainOk, Potential, HasTimer;
    var z := SysStep(c, y, e);
    DropCountedParts(c, y, e, a);
    DropTimersAsleep(c, y, e, a);
    if c.autoReconnect {
      ArmedDrop(c, y.core, z, a);
    } else {
      UnarmedDrop(c, y.core, z, a);
    }
  }

  lemma DropCountedParts(c: Config, y: Sys, e: Event, a: ProfileId)
    requires DropCounted(c, y, e, a)
    ensures SysWellformed(y, e)
    ensures var z := SysStep(c, y, e); DropLeaves(c, y.core, z.core, a) && Inv(c, z.core) && z.core == Step(c, y.core, e)
  {
    StepDrops(c, y, e, a);
    StepKeepsInv(c, y.core, e);
  }

  /**
   * A chain begun by a counted drop, with any queue, starts at most `max(1, maxRetries)` retry
   * connects: the drop schedules its first attempt without looking at the budget. With automatic
   * reconnect off only a connect of `a` that was queued can lead to any.
   */
  lemma DropChainBound(c: Config, y: Sys, e: Event, ys: seq<Sys>, es: seq<Event>, a: ProfileId)
    requires DropCounted(c, y, e, a) && !HasTimer(c, y, a)
    requires ChainRun(c, ys, es, a) && ys[0] == SysStep(c, y, e)
    ensures RetryTotal(ys, es, a, |es|) <= DropBudget(c, y.core, a)
  {
    DropStartsChain(c, y, e, a);
    RunKeepsChain(c, ys, es, a);
  }
}
