/**
 * What a filled queue does to a retry chain: a connect that fails while another is queued is not
 * retried, so a queue that nothing else can empty ends the chain at its first failure.
 */
module RetryQueue {
  import opened Wrappers
  import opened Lifecycle
  import opened Reconciliation
  import opened LifecycleRuns
  import opened RetryChain

  /** A tunnel that is coming up; the connection timeout is raised for no other. */
  predicate ComingUp(s: State, id: ProfileId) {
    id in s.registry && (s.registry[id].Connecting? || s.registry[id].Reconnecting? || s.registry[id].AwaitingUserInput?)
  }

  /** Results come from workers that have not reported yet, timeouts from tunnels coming up. */
  predicate Feasible(y: Sys, e: Event) {
    (e.ConnectResult? ==> e.profile in y.inFlight) && (e.Timeout? ==> ComingUp(y.core, e.profile))
  }

  ghost predicate FeasibleRun(c: Config, ys: seq<Sys>, es: seq<Event>, a: ProfileId) {
    ChainRun(c, ys, es, a) && forall i {:trigger es[i]} :: 0 <= i < |es| ==> Feasible(ys[i], es[i])
  }

  predicate IsDown(s: State, id: ProfileId) {
    id in s.registry && s.registry[id].Disconnected?
  }

  predicate IsGone(s: State, id: ProfileId) {
    id in s.registry ==> s.registry[id].Disconnected?
  }

  // ---------------------------------------------------------------------- a queue nothing can empty

  /** `b` is up or absent and owes no result, or its connect has failed: nothing it does empties the queue. */
  predicate Harmless(y: Sys, b: ProfileId) {
    IsDown(y.core, b) || (b !in y.inFlight && (b in y.core.registry ==> y.core.registry[b].Connected?))
  }

  /** `a` is coming up, a connect is queued, and only the failure of `a` itself can empty the queue. */
  ghost predicate StuckUp(c: Config, y: Sys, a: ProfileId) {
    IsConnecting(y.core, a) && y.core.pending.Some? && forall b :: b != a && InCatalog(c, b) ==> Harmless(y, b)
  }

  /** A sleeping timer whose retry connect of `b` would not be thrown away as stale. */
  ghost predicate Armed(c: Config, y: Sys, b: ProfileId) {
    exists t :: t in y.asleep && RetryMatches(c, y.core, t.idx, t.attempt) && MatchesName(c, t, b)
  }

  /** `a` is down, a connect is queued, and no other profile can ever become active. */
  ghost predicate StuckDown(c: Config, y: Sys, a: ProfileId) {
    && IsGone(y.core, a) && y.core.pending.Some?
    && forall b :: b != a && InCatalog(c, b) ==> IsDown(y.core, b) && !Armed(c, y, b)
  }

  /** The chain is over: no retry entry, and no queued connect of `a`. */
  predicate Over(c: Config, y: Sys, a: ProfileId) {
    IsGone(y.core, a) && a !in y.core.retry && !Queued(c, y.core, a)
  }

  /** No retry connect can come any more. */
  ghost predicate Doomed(c: Config, y: Sys, a: ProfileId) {
    Inv(c, y.core) && (Over(c, y, a) || (IsConnecting(y.core, a) && c.maxRetries == 0) || StuckUp(c, y, a))
  }

  // ---------------------------------------------------------------------- it stays so

  lemma OverStays(c: Config, y: Sys, e: Event, z: Sys, a: ProfileId)
    requires Inv(c, y.core) && Over(c, y, a) && ChainStep(c, y, e, z) && !IsConnected(z.core, a)
    ensures Over(c, z, a) && RetryConnects(y, e, z, a) == 0
  {
    hide Step, SysStep, RetryConnect;
    if e.TimerFires? {
      FiredTimer(c, y, e.env, e.timer, z);
      OverTimer(c, y.core, e.env, e.timer, a);
    } else if e == Timeout(a) {
      TimeoutCore(c, y, a, z);
    } else {
      StepTouches(c, y, e, z, a);
    }
  }

  lemma TimeoutCore(c: Config, y: Sys, a: ProfileId, z: Sys)
    requires ChainStep(c, y, Timeout(a), z)
    ensures z.core == ConnectionTimeout(y.core, a)
  {
  }

  lemma OverTimer(c: Config, s: State, env: Env, timer: Timer, a: ProfileId)
    requires Inv(c, s) && a !in s.retry
    ensures var t := RetryConnect(c, env, s, timer.idx, timer.attempt);
            Touch(c, s, t, a) && t.workers[a] == s.workers[a]
  {
    TimerTouches(c, env, s, timer, a);
  }

  /** With no budget the first failure of a connect ends its chain. */
  lemma NoBudgetStays(c: Config, y: Sys, e: Event, z: Sys, a: ProfileId)
    requires Inv(c, y.core) && IsConnecting(y.core, a) && c.maxRetries == 0
    requires ChainStep(c, y, e, z) && !IsConnected(z.core, a)
    ensures IsConnecting(z.core, a) || Over(c, z, a)
    ensures RetryConnects(y, e, z, a) == 0
  {
    if OwnEvent(e, a) {
      OwnEventEnds(c, y, e, z, a);
    } else if e.TimerFires? {
      TimerWhileActive(c, y, e.env, e.timer, z, a);
    } else {
      hide Step;
      StepTouches(c, y, e, z, a);
    }
  }

  /** Events that can end the connect of `a`: its result and its timeout. */
  predicate OwnEvent(e: Event, a: ProfileId) {
    (e.ConnectResult? && e.profile == a) || e == Timeout(a)
  }

  /** While `a` is coming up no timer connects: at most a retry entry is thrown away. */
  lemma TimerWhileActive(c: Config, y: Sys, env: Env, timer: Timer, z: Sys, a: ProfileId)
    requires IsConnecting(y.core, a) && ChainStep(c, y, TimerFires(env, timer), z)
    ensures z.core == y.core.(retry := z.core.retry) && z.inFlight == y.inFlight
  {
    hide ConnectProfile, RetryMatches;
    FiredTimer(c, y, env, timer, z);
    assert AnyActive(y.core.registry);
    NoNewWorker(c, y, TimerFires(env, timer), z);
  }

  lemma NoNewWorker(c: Config, y: Sys, e: Event, z: Sys)
    requires ChainStep(c, y, e, z) && z.core.workers == y.core.workers
    ensures z.inFlight == Unreported(y, e) <= y.inFlight
  {
    hide Step;
  }

  /** Its own result or timeout ends a connect for good where there is no budget, or another is queued. */
  lemma OwnEventEnds(c: Config, y: Sys, e: Event, z: Sys, a: ProfileId)
    requires Inv(c, y.core) && IsConnecting(y.core, a) && (c.maxRetries == 0 || y.core.pending.Some?)
    requires OwnEvent(e, a) && ChainStep(c, y, e, z) && !IsConnected(z.core, a)
    ensures Over(c, z, a)
  {
    assert InCatalog(c, a);
    hide Inv, SysStep, Step, ConnectFailed, InCatalog;
    CoreOf(c, y, e, z);
    if e == Timeout(a) {
      TimeoutCore(c, y, a, z);
    } else {
      OwnResult(c, y.core, e, a);
      GivesUp(c, y.core, a, e.error);
    }
  }

  lemma GivesUp(c: Config, s: State, a: ProfileId, error: Option<string>)
    requires InCatalog(c, a) && (c.maxRetries == 0 || s.pending.Some?)
    ensures var t := ConnectFailed(c, s, a, error);
            IsDown(t, a) && a !in t.retry && t.pending.None?
  {
  }

  lemma OwnResult(c: Config, s: State, e: Event, a: ProfileId)
    requires e.ConnectResult? && e.profile == a && IsConnecting(s, a)
    ensures Step(c, s, e) == if e.success then ConnectSucceeded(c, e.env, s, a, e.interface, e.pid) else ConnectFailed(c, s, a, e.error)
  {
  }

  lemma CoreOf(c: Config, y: Sys, e: Event, z: Sys)
    requires ChainStep(c, y, e, z)
    ensures Wellformed(y.core, e) && z.core == Step(c, y.core, e)
  {
  }

  /** A tick that finds nobody being torn down completes no teardown, so it starts nothing. */
  lemma CalmScan(c: Config, env: Env, s: State, order: seq<ProfileId>, sessions: seq<Session>)
    requires Enumerates(order, s.registry) && forall id :: id in s.registry ==> !s.registry[id].Disconnecting?
    ensures var t := ScanTick(c, env, s, order, sessions);
            t == PointwiseTick(c, env, s, sessions) && t.pending == s.pending && t.workers == s.workers
    ensures TickRegistry(c, env, s.registry, sessions, ScanTick(c, env, s, order, sessions).registry)
  {
    assert Confirmed(s.registry, sessions) == {} && Overdue(c, env, s.registry, sessions) == {};
    TickIsPointwise(c, env, s, order, sessions);
    TickEntries(c, env, s, sessions);
  }

  lemma HarmlessScan(c: Config, env: Env, y: Sys, order: seq<ProfileId>, sessions: seq<Session>, z: Sys, core: State, b: ProfileId)
    requires Enumerates(order, core.registry) && core.registry == y.core.registry && Harmless(y, b)
    requires forall id :: id in y.core.registry ==> !y.core.registry[id].Disconnecting?
    requires z.core.registry == ScanTick(c, env, core, order, sessions).registry && z.inFlight == y.inFlight
    ensures Harmless(z, b)
  {
    hide ScanTick, PointwiseTick;
    CalmScan(c, env, core, order, sessions);
    assert TickEntry(c, env, core.registry, sessions, z.core.registry, b);
  }

  lemma StuckHasNoTeardown(c: Config, y: Sys, a: ProfileId)
    requires Inv(c, y.core) && StuckUp(c, y, a)
    ensures forall id :: id in y.core.registry ==> !y.core.registry[id].Disconnecting?
  {
    forall id | id in y.core.registry ensures !y.core.registry[id].Disconnecting? {
      assert InCatalog(c, id);
    }
  }

  lemma StuckScan(c: Config, y: Sys, env: Env, order: seq<ProfileId>, sessions: seq<Session>, core: State, z: Sys, a: ProfileId)
    requires Inv(c, y.core) && StuckUp(c, y, a) && Enumerates(order, core.registry)
    requires core == y.core || core == y.core.(scannerRx := None)
    requires var t := ScanTick(c, env, core, order, sessions); z.core == t || z.core == SpawnScan(t)
    requires z.inFlight == y.inFlight + (z.core.workers - y.core.workers) && !IsConnected(z.core, a)
    ensures StuckUp(c, z, a)
  {
    StuckHasNoTeardown(c, y, a);
    CalmScan(c, env, core, order, sessions);
    ScanTouches(c, env, core, order, sessions, a);
    forall b | b != a && InCatalog(c, b) ensures Harmless(z, b) {
      HarmlessScan(c, env, y, order, sessions, z, core, b);
    }
  }

  lemma StuckTick(c: Config, y: Sys, e: Event, z: Sys, a: ProfileId)
    requires Inv(c, y.core) && StuckUp(c, y, a) && (e.Scan? || e.Poll?)
    requires ChainStep(c, y, e, z) && !IsConnected(z.core, a)
    ensures StuckUp(c, z, a)
  {
    hide ScanTick, StuckUp, Inv;
    match e
    case Scan(env, order, sessions) => StuckScan(c, y, env, order, sessions, y.core, z, a);
    case Poll(env, recv, order) =>
      if y.core.scannerRx.Some? && recv.Ready? {
        StuckScan(c, y, env, order, recv.sessions, y.core.(scannerRx := None), z, a);
      } else {
        NoNewWorker(c, y, e, z);
        SameIsStuck(c, y, z, a);
      }
  }

  lemma StuckStays(c: Config, y: Sys, e: Event, z: Sys, a: ProfileId)
    requires Inv(c, y.core) && StuckUp(c, y, a)
    requires ChainStep(c, y, e, z) && Feasible(y, e) && !IsConnected(z.core, a)
    ensures (StuckUp(c, z, a) || Over(c, z, a)) && RetryConnects(y, e, z, a) == 0
  {
    assert IsConnecting(y.core, a) && y.core.pending.Some?;
    hide Step, SysStep, StuckUp, Inv;
    if OwnEvent(e, a) {
      OwnEventEnds(c, y, e, z, a);
    } else {
      match e
      case Scan(_, _, _) => StuckTick(c, y, e, z, a);
      case Poll(_, _, _) => StuckTick(c, y, e, z, a);
      case ConnectResult(_, _, _, _, _, _) => OtherResultIgnored(c, y, e, z, a);
      case DisconnectResult(name, _) => DisconnectResultQuiet(c, y, e, z); SameIsStuck(c, y, z, a);
      case TimerFires(env, timer) =>
        TimerWhileActive(c, y, env, timer, z, a);
        SameIsStuck(c, y, z, a);
      case Timeout(b) => NoOtherTimeout(c, y, b, a);
    }
  }

  lemma DisconnectResultQuiet(c: Config, y: Sys, e: Event, z: Sys)
    requires e.DisconnectResult? && ChainStep(c, y, e, z)
    ensures z == y
  {
  }

  lemma SameIsStuck(c: Config, y: Sys, z: Sys, a: ProfileId)
    requires StuckUp(c, y, a)
    requires z.core.registry == y.core.registry && z.core.pending == y.core.pending && z.inFlight <= y.inFlight
    ensures StuckUp(c, z, a)
  {
    forall b | b != a && InCatalog(c, b) ensures Harmless(z, b) {
      assert Harmless(y, b);
    }
  }

  lemma OtherResultIgnored(c: Config, y: Sys, e: Event, z: Sys, a: ProfileId)
    requires Inv(c, y.core) && StuckUp(c, y, a) && ChainStep(c, y, e, z) && Feasible(y, e)
    requires e.ConnectResult? && e.profile != a
    ensures StuckUp(c, z, a)
  {
    assert InCatalog(c, e.profile) ==> Harmless(y, e.profile);
    assert !ResultRelevant(y.core, e.profile);
    SameIsStuck(c, y, z, a);
  }

  /** No other tunnel is coming up, so no other timeout is raised. */
  lemma NoOtherTimeout(c: Config, y: Sys, b: ProfileId, a: ProfileId)
    requires Inv(c, y.core) && StuckUp(c, y, a) && b != a
    ensures !ComingUp(y.core, b)
  {
    if b in y.core.registry {
      assert Harmless(y, b);
    }
  }

  lemma DoomedStays(c: Config, y: Sys, e: Event, z: Sys, a: ProfileId)
    requires Doomed(c, y, a) && ChainStep(c, y, e, z) && Feasible(y, e) && !IsConnected(z.core, a)
    ensures Doomed(c, z, a) && RetryConnects(y, e, z, a) == 0
  {
    StepKeepsInv(c, y.core, e);
    hide Over, StuckUp, Inv;
    if Over(c, y, a) {
      OverStays(c, y, e, z, a);
    } else if c.maxRetries == 0 && IsConnecting(y.core, a) {
      NoBudgetStays(c, y, e, z, a);
    } else {
      StuckStays(c, y, e, z, a);
    }
  }

  // ---------------------------------------------------------------------- at most one connect

  lemma OnlyDownScan(c: Config, y: Sys, env: Env, order: seq<ProfileId>, sessions: seq<Session>, core: State, z: Sys, a: ProfileId)
    requires Inv(c, y.core) && StuckDown(c, y, a) && Enumerates(order, core.registry)
    requires core == y.core || core == y.core.(scannerRx := None)
    requires var t := ScanTick(c, env, core, order, sessions); z.core == t || z.core == SpawnScan(t)
    requires z.asleep == y.asleep + (z.core.scheduled - y.core.scheduled) && !IsConnected(z.core, a)
    ensures StuckDown(c, z, a)
  {
    forall id | id in y.core.registry ensures y.core.registry[id].Disconnected? {
      assert InCatalog(c, id);
    }
    CalmScan(c, env, core, order, sessions);
    assert Dropped(core.registry, sessions) == {};
    NothingFound(c, env, core, sessions, core.registry.Keys);
    assert z.asleep == y.asleep && z.core.retry == y.core.retry;
    assert TickEntry(c, env, core.registry, sessions, z.core.registry, a);
    forall b | b != a && InCatalog(c, b) ensures IsDown(z.core, b) && !Armed(c, z, b) {
      assert IsDown(y.core, b) && !Armed(c, y, b);
      assert TickEntry(c, env, core.registry, sessions, z.core.registry, b);
    }
  }

  /** Only a timer of `a` can do anything. */
  lemma OnlyOwnTimer(c: Config, y: Sys, env: Env, timer: Timer, a: ProfileId)
    requires Inv(c, y.core) && StuckDown(c, y, a) && timer in y.asleep
    ensures var t := RetryConnect(c, env, y.core, timer.idx, timer.attempt);
            t == y.core || t == StartConnect(env, y.core, a)
  {
    assert forall id :: id in y.core.registry ==> InCatalog(c, id);
    assert !AnyActive(y.core.registry);
    if RetryMatches(c, y.core, timer.idx, timer.attempt) {
      var b := c.profiles[timer.idx].name;
      assert Armed(c, y, b);
      assert InCatalog(c, b);
    }
  }

  /** A connect it starts is stuck on the queue. */
  lemma DownTimer(c: Config, y: Sys, env: Env, timer: Timer, z: Sys, a: ProfileId)
    requires Inv(c, y.core) && StuckDown(c, y, a) && ChainStep(c, y, TimerFires(env, timer), z)
    ensures StuckDown(c, z, a) || StuckUp(c, z, a)
    ensures RetryConnects(y, TimerFires(env, timer), z, a) <= if StuckDown(c, z, a) then 0 else 1
  {
    hide RetryConnect, Step, SysStep, Armed, Inv;
    FiredTimer(c, y, env, timer, z);
    OnlyOwnTimer(c, y, env, timer, a);
    if z.core == y.core {
      FewerTimers(c, y, z, a);
    } else {
      forall b | b != a && InCatalog(c, b) ensures Harmless(z, b) {
        assert IsDown(y.core, b);
      }
    }
  }

  lemma FewerTimers(c: Config, y: Sys, z: Sys, a: ProfileId)
    requires StuckDown(c, y, a) && z.core == y.core && z.asleep <= y.asleep
    ensures StuckDown(c, z, a)
  {
    forall b | b != a && InCatalog(c, b) ensures IsDown(z.core, b) && !Armed(c, z, b) {
      assert IsDown(y.core, b) && !Armed(c, y, b);
    }
  }

  lemma DownTick(c: Config, y: Sys, e: Event, z: Sys, a: ProfileId)
    requires Inv(c, y.core) && StuckDown(c, y, a) && (e.Scan? || e.Poll?)
    requires ChainStep(c, y, e, z) && !IsConnected(z.core, a)
    ensures StuckDown(c, z, a)
  {
    hide ScanTick, StuckDown, Inv;
    match e
    case Scan(env, order, sessions) => OnlyDownScan(c, y, env, order, sessions, y.core, z, a);
    case Poll(env, recv, order) =>
      if y.core.scannerRx.Some? && recv.Ready? {
        OnlyDownScan(c, y, env, order, recv.sessions, y.core.(scannerRx := None), z, a);
      } else {
        SameIsDown(c, y, z, a);
      }
  }

  lemma DownResult(c: Config, y: Sys, e: Event, z: Sys, a: ProfileId)
    requires Inv(c, y.core) && StuckDown(c, y, a) && e.ConnectResult? && ChainStep(c, y, e, z)
    ensures StuckDown(c, z, a)
  {
    hide Armed;
    AllDown(c, y, a);
    assert !ResultRelevant(y.core, e.profile);
    SameIsDown(c, y, z, a);
  }

  lemma AllDown(c: Config, y: Sys, a: ProfileId)
    requires Inv(c, y.core) && StuckDown(c, y, a)
    ensures forall id :: IsGone(y.core, id) && !ComingUp(y.core, id)
  {
    assert forall id :: id in y.core.registry ==> InCatalog(c, id);
  }

  lemma DownStays(c: Config, y: Sys, e: Event, z: Sys, a: ProfileId)
    requires Inv(c, y.core) && StuckDown(c, y, a)
    requires ChainStep(c, y, e, z) && Feasible(y, e) && !IsConnected(z.core, a)
    ensures StuckDown(c, z, a) || StuckUp(c, z, a)
    ensures RetryConnects(y, e, z, a) <= if StuckDown(c, z, a) then 0 else 1
  {
    AllDown(c, y, a);
    hide Step, SysStep, StuckDown, StuckUp, Inv;
    match e
    case Scan(_, _, _) => DownTick(c, y, e, z, a);
    case Poll(_, _, _) => DownTick(c, y, e, z, a);
    case ConnectResult(_, _, _, _, _, _) => DownResult(c, y, e, z, a);
    case DisconnectResult(_, _) => DisconnectResultQuiet(c, y, e, z);
    case TimerFires(env, timer) => DownTimer(c, y, env, timer, z, a);
    case Timeout(_) =>
  }

  lemma SameIsDown(c: Config, y: Sys, z: Sys, a: ProfileId)
    requires StuckDown(c, y, a) && z.asleep == y.asleep
    requires z.core.registry == y.core.registry && z.core.pending == y.core.pending && z.core.retry == y.core.retry
    ensures StuckDown(c, z, a)
  {
    forall b | b != a && InCatalog(c, b) ensures IsDown(z.core, b) && !Armed(c, z, b) {
      assert IsDown(y.core, b) && !Armed(c, y, b);
    }
  }

  // ---------------------------------------------------------------------- the bounds

  /** Retry connects still possible where the queue decides. */
  ghost function QueueLeft(c: Config, y: Sys, a: ProfileId): nat {
    if Doomed(c, y, a) then 0 else 1
  }

  ghost predicate QueueDecides(c: Config, y: Sys, a: ProfileId) {
    Doomed(c, y, a) || (Inv(c, y.core) && StuckDown(c, y, a))
  }

  ghost predicate QueuePays(c: Config, y: Sys, e: Event, z: Sys, a: ProfileId) {
    QueueDecides(c, y, a) ==> QueueDecides(c, z, a) && QueueLeft(c, z, a) + RetryConnects(y, e, z, a) <= QueueLeft(c, y, a)
  }

  lemma StepPays(c: Config, y: Sys, e: Event, z: Sys, a: ProfileId)
    requires ChainStep(c, y, e, z) && Feasible(y, e) && !IsConnected(z.core, a)
    ensures QueuePays(c, y, e, z, a)
  {
    hide ChainStep, Feasible, StuckDown;
    if Doomed(c, y, a) {
      DoomedStays(c, y, e, z, a);
    } else if QueueDecides(c, y, a) {
      ChainStepKeepsInv(c, y, e, z);
      DownStays(c, y, e, z, a);
    }
  }

  lemma {:induction false} QueueAddsUp(c: Config, ys: seq<Sys>, es: seq<Event>, a: ProfileId, n: nat)
    requires |ys| == |es| + 1 && n <= |es| && QueueDecides(c, ys[0], a)
    requires forall i {:trigger es[i]} :: 0 <= i < |es| ==> QueuePays(c, ys[i], es[i], ys[i + 1], a)
    ensures QueueDecides(c, ys[n], a)
    ensures RetryTotal(ys, es, a, n) + QueueLeft(c, ys[n], a) <= QueueLeft(c, ys[0], a)
  {
    hide QueueDecides, QueueLeft;
    if n > 0 {
      QueueAddsUp(c, ys, es, a, n - 1);
      assert QueuePays(c, ys[n - 1], es[n - 1], ys[n], a);
    }
  }

  /** Where only the failure of `a` can empty the queue there is no retry connect, or one if `a` is down. */
  lemma QueueBound(c: Config, ys: seq<Sys>, es: seq<Event>, a: ProfileId)
    requires FeasibleRun(c, ys, es, a) && QueueDecides(c, ys[0], a)
    ensures RetryTotal(ys, es, a, |es|) <= QueueLeft(c, ys[0], a)
  {
    forall i {:trigger es[i]} | 0 <= i < |es| ensures QueuePays(c, ys[i], es[i], ys[i + 1], a) {
      StepOfChain(c, ys, es, a, i);
      assert Feasible(ys[i], es[i]);
      StepPays(c, ys[i], es[i], ys[i + 1], a);
    }
    QueueAddsUp(c, ys, es, a, |es|);
  }
}
