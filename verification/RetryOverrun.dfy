/**
 * When a retry chain overruns its budget, exactly. A timer left over from an earlier chain may throw
 * the retry entry away while the connect it should have started is in flight; the count then begins
 * again.
 */
module RetryOverrun {
  import opened Wrappers
  import opened Lifecycle
  import opened Reconciliation
  import opened LifecycleRuns
  import opened RetryChain
  import opened RetryQueue
  import opened RetryClearing

  // ---------------------------------------------------------------------- round after round

  /** A connect of `a` is in flight on attempt `r` (0 for a fresh one) and nothing else is active or queued. */
  ghost predicate Spinning(c: Config, y: Sys, a: ProfileId, r: nat) {
    && Inv(c, y.core) && y.core.pending.None? && OthersInactive(y.core, a)
    && IsConnecting(y.core, a) && RetryAttempt(y.core, a, 0) == r && a in y.inFlight
  }

  const READY_NOW: nat := 0

  function Failure(a: ProfileId): Event {
    ConnectResult(Env(READY_NOW, {a}), a, false, None, None, None)
  }

  /** The connect fails and the next timer goes to sleep. */
  lemma FailureStep(c: Config, y: Sys, a: ProfileId, r: nat) returns (z: Sys, timer: Timer)
    requires Spinning(c, y, a, r) && r < c.maxRetries
    ensures ChainStep(c, y, Failure(a), z) && Feasible(y, Failure(a))
    ensures z == Sys(ConnectFailed(c, y.core, a, None), y.asleep + multiset{timer}, y.inFlight - multiset{a})
    ensures FailureTimer(c, y.core, a) == Some(timer) && timer.attempt == r + 1
  {
    assert InCatalog(c, a);
    timer := FailureTimer(c, y.core, a).value;
    FailureSchedules(c, y.core, a, None);
    z := Sys(ConnectFailed(c, y.core, a, None), y.asleep + multiset{timer}, y.inFlight - multiset{a});
    GrowthOnly(y.core.workers, multiset{});
  }

  /** The timer connects, since nothing else is active. */
  lemma TimerStep(c: Config, y: Sys, a: ProfileId, timer: Timer) returns (z: Sys)
    requires Inv(c, y.core) && OthersInactive(y.core, a) && IsGone(y.core, a)
    requires timer in y.asleep && Position(c.profiles, a) == Some(timer.idx)
    requires a in y.core.retry && y.core.retry[a].attempt == timer.attempt
    ensures var e := TimerFires(Env(READY_NOW, {a}), timer);
            ChainStep(c, y, e, z) && RetryConnects(y, e, z, a) == 1
    ensures z == Sys(StartConnect(Env(READY_NOW, {a}), y.core, a), y.asleep - multiset{timer}, y.inFlight + multiset{a})
  {
    assert RetryEntryOk(c, a, y.core.retry[a]);
    z := Sys(StartConnect(Env(READY_NOW, {a}), y.core, a), y.asleep - multiset{timer}, y.inFlight + multiset{a});
    OtherConnects(c, y, TimerFires(Env(READY_NOW, {a}), timer), a);
  }

  /** The timer of `a` fires while nothing else is active or queued: one retry connect. */
  lemma ConnectRound(c: Config, y0: Sys, y: Sys, a: ProfileId, n: nat, timer: Timer) returns (z: Sys)
    requires Leads(c, y0, y, a, n) && Inv(c, y.core) && OthersInactive(y.core, a) && IsGone(y.core, a)
    requires y.core.pending.None? && timer in y.asleep && Position(c.profiles, a) == Some(timer.idx)
    requires a in y.core.retry && y.core.retry[a].attempt == timer.attempt
    ensures Leads(c, y0, z, a, n + 1) && Spinning(c, z, a, timer.attempt) && z.asleep == y.asleep - multiset{timer}
  {
    hide Leads, Inv, SysStep;
    z := TimerStep(c, y, a, timer);
    ChainStepKeepsInv(c, y, TimerFires(Env(READY_NOW, {a}), timer), z);
    LeadsOn(c, y0, y, a, n, TimerFires(Env(READY_NOW, {a}), timer), z);
  }

  /** One failed connect and the retry it causes: one retry connect, the same sleepers. */
  lemma Round(c: Config, y0: Sys, y: Sys, a: ProfileId, n: nat, r: nat) returns (z: Sys)
    requires Leads(c, y0, y, a, n) && Spinning(c, y, a, r) && r < c.maxRetries
    ensures Leads(c, y0, z, a, n + 1) && Spinning(c, z, a, r + 1) && z.asleep == y.asleep
  {
    hide Leads, Inv, SysStep;
    var x, timer := FailureStep(c, y, a, r);
    ChainStepKeepsInv(c, y, Failure(a), x);
    LeadsOn(c, y0, y, a, n, Failure(a), x);
    z := ConnectRound(c, y0, x, a, n, timer);
    assert x.asleep - multiset{timer} == y.asleep;
  }

  /** From attempt `r`, failing until attempt `r + k`: `k` more retry connects, nothing left asleep. */
  lemma {:induction false} Spin(c: Config, y0: Sys, y: Sys, a: ProfileId, n: nat, r: nat, k: nat) returns (z: Sys)
    requires Leads(c, y0, y, a, n) && Spinning(c, y, a, r) && r + k <= c.maxRetries
    ensures Leads(c, y0, z, a, n + k) && Spinning(c, z, a, r + k) && z.asleep == y.asleep
  {
    z := y;
    if k > 0 {
      z := Spin(c, y0, y, a, n, r, k - 1);
      z := Round(c, y0, z, a, n + k - 1, r + k - 1);
    }
  }

  /** A left-over timer fires while its namesake's connect is in flight: the retry entry is thrown away. */
  lemma StaleFires(c: Config, y0: Sys, y: Sys, a: ProfileId, n: nat, stale: Timer) returns (z: Sys)
    requires Leads(c, y0, y, a, n) && Spinning(c, y, a, stale.attempt) && stale in y.asleep && Aims(c, stale, a)
    ensures Leads(c, y0, z, a, n) && Spinning(c, z, a, 0) && z.asleep == y.asleep - multiset{stale}
  {
    var e := TimerFires(Env(READY_NOW, {a}), stale);
    assert RetryEntryOk(c, a, y.core.retry[a]);
    assert RetryMatches(c, y.core, stale.idx, stale.attempt) && c.profiles[stale.idx].name == a;
    assert AnyActive(y.core.registry);
    hide Leads, Inv, SysStep, Step, RetryMatches;
    z := Sys(y.core.(retry := y.core.retry - {a}), y.asleep - multiset{stale}, y.inFlight);
    ThrownAwayStep(c, y, e, z, a);
    ChainStepKeepsInv(c, y, e, z);
    LeadsOn(c, y0, y, a, n, e, z);
  }

  lemma ThrownAwayStep(c: Config, y: Sys, e: Event, z: Sys, a: ProfileId)
    requires e.TimerFires? && e.timer in y.asleep && AnyActive(y.core.registry)
    requires RetryMatches(c, y.core, e.timer.idx, e.timer.attempt) && c.profiles[e.timer.idx].name == a
    requires z == Sys(y.core.(retry := y.core.retry - {a}), y.asleep - multiset{e.timer}, y.inFlight)
    ensures ChainStep(c, y, e, z)
  {
    GrowthOnly(y.core.scheduled, multiset{});
    GrowthOnly(y.core.workers, multiset{});
  }

  /** The count begins again: on the left-over timer's attempt, another `maxRetries` retry connects follow. */
  lemma CountRestarts(c: Config, y0: Sys, y: Sys, a: ProfileId, n: nat, stale: Timer) returns (z: Sys)
    requires Leads(c, y0, y, a, n) && Spinning(c, y, a, stale.attempt) && stale in y.asleep && Aims(c, stale, a)
    ensures Leads(c, y0, z, a, n + c.maxRetries)
  {
    z := StaleFires(c, y0, y, a, n, stale);
    z := Spin(c, y0, z, a, n, 0, c.maxRetries);
  }

  // ---------------------------------------------------------------------- chains begun by a connect

  function Without(y: Sys, t: Timer): Sys {
    y.(asleep := y.asleep - multiset{t})
  }

  /** A left-over timer is ahead of the retry entry, or matches it with another one behind it. */
  ghost predicate LeftOver(c: Config, y: Sys, a: ProfileId) {
    exists t :: t in y.asleep && Aims(c, t, a) && RetryAttempt(y.core, a, 0) <= t.attempt &&
      (RetryAttempt(y.core, a, 0) == t.attempt ==> HasTimer(c, Without(y, t), a))
  }

  lemma NothingLeftOver(c: Config, y: Sys, a: ProfileId)
    requires Inv(c, y.core) && IsConnecting(y.core, a) && !LeftOver(c, y, a)
    ensures ChainOk(c, y, a) && Potential(c, y, a) <= c.maxRetries
  {
    var r := RetryAttempt(y.core, a, 0);
    forall t | t in y.asleep && Aims(c, t, a)
      ensures t.attempt <= r && (t.attempt == r ==> !HasTimer(c, Without(y, t), a))
    {
    }
    assert a !in y.core.retry ==> !HasTimer(c, y, a);
    forall t, u | Live(c, y, t, a) && u in y.asleep && Aims(c, u, a) ensures u == t && y.asleep[t] == 1 {
      assert u !in Without(y, t).asleep && t !in Without(y, t).asleep;
    }
    if MayRestart(c, y, a) && a in y.core.retry {
      var t :| Live(c, y, t, a);
      assert NoDead(c, y, a);
    }
  }

  lemma AheadOverruns(c: Config, y: Sys, x: Sys, a: ProfileId, r: nat, t: Timer) returns (n: nat, z: Sys)
    requires Leads(c, y, x, a, 0) && Spinning(c, x, a, r) && t in x.asleep && Aims(c, t, a) && r < t.attempt && c.maxRetries >= 1
    ensures Leads(c, y, z, a, n) && n > c.maxRetries
  {
    hide Leads, Spinning;
    n := t.attempt - r + c.maxRetries;
    z := Spin(c, y, x, a, 0, r, t.attempt - r);
    z := CountRestarts(c, y, z, a, t.attempt - r, t);
  }

  lemma BehindOverruns(c: Config, y: Sys, x: Sys, a: ProfileId, t: Timer, u: Timer) returns (n: nat, z: Sys)
    requires Leads(c, y, x, a, 0) && Spinning(c, x, a, t.attempt) && t in x.asleep && Aims(c, t, a)
    requires u in x.asleep - multiset{t} && Aims(c, u, a) && c.maxRetries >= 1
    ensures Leads(c, y, z, a, n) && n > c.maxRetries
  {
    hide Leads, Spinning;
    n := u.attempt + c.maxRetries;
    z := StaleFires(c, y, x, a, 0, t);
    z := Spin(c, y, z, a, 0, 0, u.attempt);
    z := CountRestarts(c, y, z, a, u.attempt, u);
  }

  /** A left-over timer overruns the budget, whatever the retry entry, unless the queue is stuck. */
  lemma LeftOverOverruns(c: Config, y: Sys, a: ProfileId) returns (n: nat, z: Sys)
    requires ConnectStarted(c, y, a) && LeftOver(c, y, a) && c.maxRetries >= 1 && !StuckUp(c, y, a)
    ensures Leads(c, y, z, a, n) && n > c.maxRetries
  {
    hide Leads, StuckUp, Inv;
    var r := RetryAttempt(y.core, a, 0);
    LeadsNowhere(c, y, a);
    var x := FreeWhileUp(c, y, y, a, 0);
    assert Spinning(c, x, a, r);
    var t :| t in y.asleep && Aims(c, t, a) && r <= t.attempt && (r == t.attempt ==> HasTimer(c, Without(y, t), a));
    assert x.asleep[t] == y.asleep[t];
    if r < t.attempt {
      n, z := AheadOverruns(c, y, x, a, r, t);
    } else {
      var u :| u in Without(y, t).asleep && Aims(c, u, a);
      assert x.asleep[u] == y.asleep[u];
      n, z := BehindOverruns(c, y, x, a, t, u);
    }
  }

  /**
   * The budget binds a chain begun by a connect, with any retry entry and any queue, exactly when it is
   * zero, or no left-over timer can make the count begin again, or the queue is stuck.
   */
  lemma ConnectChainBoundIff(c: Config, y: Sys, a: ProfileId)
    requires ConnectStarted(c, y, a)
    ensures WithinBudget(c, y, a) <==> c.maxRetries == 0 || !LeftOver(c, y, a) || StuckUp(c, y, a)
  {
    if c.maxRetries == 0 || StuckUp(c, y, a) {
      forall ys: seq<Sys>, es: seq<Event> | FeasibleRun(c, ys, es, a) && ys[0] == y
        ensures RetryTotal(ys, es, a, |es|) <= c.maxRetries
      {
        QueueBound(c, ys, es, a);
      }
    } else if LeftOver(c, y, a) {
      var n, z := LeftOverOverruns(c, y, a);
      Overrun(c, y, z, a, n);
    } else {
      NothingLeftOver(c, y, a);
      forall ys: seq<Sys>, es: seq<Event> | FeasibleRun(c, ys, es, a) && ys[0] == y
        ensures RetryTotal(ys, es, a, |es|) <= c.maxRetries
      {
        RunKeepsChain(c, ys, es, a);
      }
    }
  }

  // ---------------------------------------------------------------------- chains begun by a drop

  /** The drop has been counted and re-armed, and `a` is down. */
  lemma DropIsDown(c: Config, y: Sys, e: Event, z: Sys, a: ProfileId)
    requires DropCounted(c, y, e, a) && c.autoReconnect && z == SysStep(c, y, e) && !IsConnecting(z.core, a)
    ensures IsGone(z.core, a) && Inv(c, z.core) && a in z.core.retry && z.core.retry[a] == RetryAfterDrop(c, a)
    ensures DropTimer(c, a) in z.asleep && Position(c.profiles, a) == Some(DropTimer(c, a).idx)
  {
    DropCountedParts(c, y, e, a);
    assert Aims(c, DropTimer(c, a), a);
    DropTimers1(c, y, e, a, DropTimer(c, a));
  }

  /** The drop's own timer connects, whatever the budget. */
  lemma DropConnects(c: Config, z: Sys, a: ProfileId) returns (x: Sys)
    requires Inv(c, z.core) && IsGone(z.core, a) && InCatalog(c, a) && DropTimer(c, a) in z.asleep
    requires a in z.core.retry && z.core.retry[a] == RetryAfterDrop(c, a)
    ensures Leads(c, z, x, a, 1)
  {
    hide Leads, Inv, SysStep, QueueAsBefore;
    var timer := DropTimer(c, a);
    LeadsNowhere(c, z, a);
    var w := ClearOthers(c, z, z, a, 0);
    assert Aims(c, timer, a) && w.asleep[timer] == z.asleep[timer];
    x := TimerStep(c, w, a, timer);
    LeadsOn(c, z, w, a, 0, TimerFires(Env(READY_NOW, {a}), timer), x);
  }

  lemma LeftOverOverrunsDrop(c: Config, z: Sys, a: ProfileId, stale: Timer) returns (n: nat, x: Sys)
    requires Inv(c, z.core) && IsGone(z.core, a) && InCatalog(c, a) && c.autoReconnect && c.maxRetries >= 1
    requires a in z.core.retry && z.core.retry[a] == RetryAfterDrop(c, a)
    requires DropTimer(c, a) in z.asleep && stale in Without(z, DropTimer(c, a)).asleep && Aims(c, stale, a)
    requires !StuckDown(c, z, a)
    ensures Leads(c, z, x, a, n) && n > c.maxRetries
  {
    hide Leads, StuckDown, Inv;
    var timer := DropTimer(c, a);
    LeadsNowhere(c, z, a);
    x := FreeWhileDown(c, z, z, a, 0);
    assert Aims(c, timer, a) && x.asleep[timer] == z.asleep[timer] && x.asleep[stale] == z.asleep[stale];
    x := ConnectRound(c, z, x, a, 0, timer);
    x := Spin(c, z, x, a, 1, 1, stale.attempt - 1);
    n := stale.attempt + c.maxRetries;
    x := CountRestarts(c, z, x, a, stale.attempt, stale);
  }

  /** A timer left over from before the drop is still asleep beside the drop's own. */
  lemma LeftOverSurvives(c: Config, y: Sys, e: Event, z: Sys, a: ProfileId) returns (stale: Timer)
    requires DropCounted(c, y, e, a) && c.autoReconnect && z == SysStep(c, y, e) && HasTimer(c, y, a)
    ensures stale in Without(z, DropTimer(c, a)).asleep && Aims(c, stale, a)
  {
    DropCountedParts(c, y, e, a);
    assert InCatalog(c, a);
    hide DropCounted, SysStep, Step, Aims, DropLeaves;
    stale :| stale in y.asleep && Aims(c, stale, a);
    DropTimers1(c, y, e, a, stale);
    assert z.asleep[stale] > if stale == DropTimer(c, a) then 1 else 0;
  }

  /** Beside the timer of attempt 1 that the entry waits for, any other is left over. */
  lemma LeftOverBeside(c: Config, z: Sys, a: ProfileId, timer: Timer)
    requires RetryAttempt(z.core, a, 0) == 1 == timer.attempt && timer in z.asleep && Aims(c, timer, a)
    ensures LeftOver(c, z, a) <==> HasTimer(c, Without(z, timer), a)
  {
    if t :| t in z.asleep && Aims(c, t, a) && t != timer {
      assert t in Without(z, timer).asleep;
    }
  }

  lemma OnlyTheDropAdds(c: Config, y: Sys, e: Event, z: Sys, a: ProfileId)
    requires DropCounted(c, y, e, a) && c.autoReconnect && z == SysStep(c, y, e)
    ensures HasTimer(c, Without(z, DropTimer(c, a)), a) <==> HasTimer(c, y, a)
  {
    DropCountedParts(c, y, e, a);
    if HasTimer(c, y, a) {
      var stale := LeftOverSurvives(c, y, e, z, a);
    } else {
      DropTimersAsleep(c, y, e, a);
    }
  }

  /** Where the tick also fires the queued connect of `a`, its chain is that of a connect. */
  lemma DrainedDrop(c: Config, y: Sys, e: Event, z: Sys, a: ProfileId)
    requires DropCounted(c, y, e, a) && c.autoReconnect && z == SysStep(c, y, e) && IsConnecting(z.core, a)
    ensures ConnectStarted(c, z, a) && !StuckUp(c, z, a)
    ensures LeftOver(c, z, a) <==> HasTimer(c, y, a)
  {
    DropCountedParts(c, y, e, a);
    var timer := DropTimer(c, a);
    assert Aims(c, timer, a);
    DropTimers1(c, y, e, a, timer);
    WasConnected(y.core, e, a);
    EveryConnectStartsChain(c, y, e, a);
    hide SysStep, Step, DropCounted, Inv, HasTimer, Aims;
    LeftOverBeside(c, z, a, timer);
    OnlyTheDropAdds(c, y, e, z, a);
  }

  lemma WasConnected(s: State, e: Event, a: ProfileId)
    requires a in DroppedBy(s, e)
    ensures IsConnected(s, a) && !IsConnecting(s, a)
  {
  }

  /**
   * The budget binds the chain of a re-armed drop, with any queue, exactly when no timer is left over
   * from an earlier chain and, unless the tick has already fired a queued connect of `a`, the budget is
   * not zero, which the drop does not look at; a stuck queue lets no more than one retry connect through.
   */
  lemma DropChainBoundIff(c: Config, y: Sys, e: Event, a: ProfileId)
    requires DropCounted(c, y, e, a) && c.autoReconnect
    ensures var z := SysStep(c, y, e);
            WithinBudget(c, z, a) <==>
              if IsConnecting(z.core, a) then c.maxRetries == 0 || !HasTimer(c, y, a)
              else c.maxRetries >= 1 && (!HasTimer(c, y, a) || StuckDown(c, z, a))
  {
    var z := SysStep(c, y, e);
    DropCountedParts(c, y, e, a);
    if IsConnecting(z.core, a) {
      DrainedDrop(c, y, e, z, a);
      ConnectChainBoundIff(c, z, a);
    } else {
      DropIsDown(c, y, e, z, a);
      if c.maxRetries == 0 {
        var x := DropConnects(c, z, a);
        Overrun(c, z, x, a, 1);
      } else if StuckDown(c, z, a) {
        forall ys: seq<Sys>, es: seq<Event> | FeasibleRun(c, ys, es, a) && ys[0] == z
          ensures RetryTotal(ys, es, a, |es|) <= c.maxRetries
        {
          QueueBound(c, ys, es, a);
        }
      } else if HasTimer(c, y, a) {
        var stale := LeftOverSurvives(c, y, e, z, a);
        var n, x := LeftOverOverrunsDrop(c, z, a, stale);
        Overrun(c, z, x, a, n);
      } else {
        forall ys: seq<Sys>, es: seq<Event> | FeasibleRun(c, ys, es, a) && ys[0] == z
          ensures RetryTotal(ys, es, a, |es|) <= c.maxRetries
        {
          DropChainBound(c, y, e, ys, es, a);
        }
      }
    }
  }

  // ---------------------------------------------------------------------- it happens

  function Press(env: Env, idx: nat): Event {
    User(env, ViewDisconnected, Toggle(idx))
  }

  lemma PressConnects(c: Config, env: Env, y: Sys, idx: nat)
    requires idx < |c.profiles| && c.profiles[idx].name in env.ready && !AnyActive(y.core.registry)
    ensures var a := c.profiles[idx].name;
            SysStep(c, y, Press(env, idx)) ==
            Sys(StartConnect(env, y.core.(retry := y.core.retry - {a}), a), y.asleep, y.inFlight + multiset{a})
  {
    var a := c.profiles[idx].name;
    var core := StartConnect(env, y.core.(retry := y.core.retry - {a}), a);
    assert !Conflicts(c, y.core.registry, idx);
    assert Step(c, y.core, Press(env, idx)) == core;
    GrowthOnly(y.core.scheduled, multiset{});
    GrowthOnly(y.core.workers, multiset{a});
    assert y.asleep + multiset{} == y.asleep;
  }

  /** The first connect, from the initial state. */
  lemma FirstConnect(c: Config, env: Env, idx: nat)
    requires idx < |c.profiles| && c.profiles[idx].name in env.ready && InCatalog(c, c.profiles[idx].name)
    ensures var a := c.profiles[idx].name;
            var y := SysStep(c, Sys(INITIAL, multiset{}, multiset{}), Press(env, idx));
            Spinning(c, y, a, 0) && y.core.registry.Keys == {a}
  {
    PressConnects(c, env, Sys(INITIAL, multiset{}, multiset{}), idx);
    FreshConnectSpins(c, env, SysStep(c, Sys(INITIAL, multiset{}, multiset{}), Press(env, idx)), c.profiles[idx].name);
  }

  /** It fails, and its retry timer goes to sleep. */
  lemma FirstFailure(c: Config, y: Sys, a: ProfileId) returns (timer: Timer)
    requires Spinning(c, y, a, 0) && y.core.registry.Keys == {a} && c.maxRetries >= 1
    ensures Feasible(y, Failure(a)) && SysWellformed(y, Failure(a))
    ensures var z := SysStep(c, y, Failure(a));
            && Inv(c, z.core) && !AnyActive(z.core.registry) && z.core.pending.None?
            && timer in z.asleep && Aims(c, timer, a)
  {
    assert InCatalog(c, a);
    FailedIsDown(c, y.core, a);
    hide ConnectFailed, FailureTimer, Step, SysStep, Inv;
    var z;
    z, timer := FailureStep(c, y, a, 0);
    ChainStepKeepsInv(c, y, Failure(a), z);
    IsStep(c, y, Failure(a), z);
  }

  lemma IsStep(c: Config, y: Sys, e: Event, z: Sys)
    requires ChainStep(c, y, e, z)
    ensures SysWellformed(y, e) && z == SysStep(c, y, e)
  {
  }

  /**
   * From the initial state: the user connects, the connect fails, and the user connects again before
   * the retry timer fires. That chain overruns its budget. Nothing is active when the user presses, so
   * the view is the one assumed.
   */
  lemma LeftOverTimerArises(c: Config, env: Env, idx: nat)
    requires idx < |c.profiles| && c.maxRetries >= 1 && c.profiles[idx].name in env.ready
    requires Position(c.profiles, c.profiles[idx].name) == Some(idx)
    ensures var a := c.profiles[idx].name;
            var y1 := SysStep(c, Sys(INITIAL, multiset{}, multiset{}), Press(env, idx));
            var y2 := SysStep(c, y1, Failure(a));
            var y3 := SysStep(c, y2, Press(env, idx));
            && Feasible(y1, Failure(a)) && !AnyActive(y2.core.registry)
            && ConnectStarted(c, y3, a) && !WithinBudget(c, y3, a)
  {
    hide Step, SysStep, Inv, WithinBudget, LeftOver, StuckUp, Spinning;
    var a := c.profiles[idx].name;
    FirstConnect(c, env, idx);
    var y1 := SysStep(c, Sys(INITIAL, multiset{}, multiset{}), Press(env, idx));
    var timer := FirstFailure(c, y1, a);
    var y2 := SysStep(c, y1, Failure(a));
    PressConnects(c, env, y2, idx);
    var y3 := SysStep(c, y2, Press(env, idx));
    SecondConnect(c, env, y2, y3, a, timer);
    ConnectChainBoundIff(c, y3, a);
  }

  lemma FailedIsDown(c: Config, s: State, a: ProfileId)
    requires s.registry.Keys == {a} && InCatalog(c, a)
    ensures !AnyActive(ConnectFailed(c, s, a, None).registry) && ConnectFailed(c, s, a, None).pending.None?
    ensures FailureTimer(c, s, a).Some? ==> Position(c.profiles, a) == Some(FailureTimer(c, s, a).value.idx)
  {
  }

  /** A fresh connect beside a timer that is still asleep. */
  lemma SecondConnect(c: Config, env: Env, y: Sys, z: Sys, a: ProfileId, timer: Timer)
    requires Inv(c, y.core) && InCatalog(c, a) && y.core.pending.None?
    requires z == Sys(StartConnect(env, y.core.(retry := y.core.retry - {a}), a), y.asleep, y.inFlight + multiset{a})
    requires timer in y.asleep && Aims(c, timer, a)
    ensures ConnectStarted(c, z, a) && LeftOver(c, z, a) && !StuckUp(c, z, a)
  {
    assert RetryAttempt(z.core, a, 0) == 0 <= timer.attempt;
  }

  lemma FreshConnectSpins(c: Config, env: Env, y: Sys, a: ProfileId)
    requires InCatalog(c, a) && y.core == StartConnect(env, INITIAL.(retry := INITIAL.retry - {a}), a) && a in y.inFlight
    ensures Spinning(c, y, a, 0)
  {
  }
}
