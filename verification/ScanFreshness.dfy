/**
 * Stale scans are never acted on. Scan threads run in the background and may finish at any time; a
 * teardown request drops the channel of the one in flight. So a result that reaches the
 * reconciliation loop comes from a thread started after the latest teardown request.
 */
module ScanFreshness {
  import opened Wrappers
  import opened Lifecycle
  import opened Reconciliation
  import opened LifecycleRuns

  predicate ToggleTearsDown(c: Config, s: State, view: View, idx: nat) {
    idx < |c.profiles| &&
    var name := c.profiles[idx].name;
    (name in s.registry && s.registry[name].Connected?) ||
    (!(name in s.registry && s.registry[name].Connecting?) && view == ViewConnected(name))
  }

  predicate CommandTearsDown(c: Config, s: State, view: View, command: Command) {
    match command
    case Toggle(idx) => ToggleTearsDown(c, s, view, idx)
    case DisconnectOne(idx) =>
      idx < |c.profiles| && c.profiles[idx].name in s.registry && !s.registry[c.profiles[idx].name].Disconnected?
    case DisconnectOrForce => !view.ViewDisconnected?
    case DisconnectEvery(names) => names != []
    case ReconnectLast => view.ViewConnected? && InCatalog(c, view.profile)
    case SwitchExclusive(_) => !view.ViewDisconnected?
    case ForceConnect(_, _) => false
    case ConnectAfterAuth(_) => false
    case Selected(idx) =>
      idx < |c.profiles| && (view == ViewConnected(c.profiles[idx].name) || ToggleTearsDown(c, s, view, idx))
  }

  /** The event asks for a teardown, or is a scan that completes one. */
  predicate TearsDown(c: Config, s: State, e: Event) {
    match e
    case User(_, view, command) => CommandTearsDown(c, s, view, command)
    case _ => SessionsOf(s, e).Some? && Confirmed(s.registry, SessionsOf(s, e).value) != {}
  }

  /** The event hands the result of scan thread `k` to the reconciliation loop. */
  predicate Delivers(s: State, e: Event, k: nat) {
    e.Poll? && s.scannerRx == Some(k) && e.recv.Ready?
  }

  // ---------------------------------------------------------------------- one step

  /**
   * Thread numbers only grow; a channel held now was held before or has been opened since; and a
   * teardown or a delivery lets go of the one that was held.
   */
  ghost predicate ChannelStep(c: Config, s: State, e: Event, t: State) {
    t.scansStarted >= s.scansStarted &&
    (t.scannerRx.Some? ==>
      t.scannerRx.value >= s.scansStarted ||
      (t.scannerRx == s.scannerRx && !TearsDown(c, s, e) && !Delivers(s, e, t.scannerRx.value)))
  }

  lemma {:induction false} ReconcileChannel(c: Config, env: Env, s: State, snaps: Registry, order: seq<ProfileId>, sessions: seq<Session>)
    requires forall id :: id in order ==> id in snaps
    ensures var t := ReconcileAll(c, env, s, snaps, order, sessions);
            && t.scansStarted == s.scansStarted
            && (t.scannerRx == s.scannerRx || t.scannerRx.None?)
            && ((exists id :: id in order && snaps[id].Disconnecting? && FirstNamed(sessions, id).None?) ==> t.scannerRx.None?)
  {
    hide FirstNamed, Refreshed;
    if order != [] {
      ReconcileChannel(c, env, s, snaps, order[..|order| - 1], sessions);
      assert order == order[..|order| - 1] + [order[|order| - 1]];
    }
  }

  lemma ScanChannel(c: Config, env: Env, s: State, order: seq<ProfileId>, sessions: seq<Session>)
    requires Enumerates(order, s.registry)
    ensures var t := ScanTick(c, env, s, order, sessions);
            && t.scansStarted == s.scansStarted
            && (t.scannerRx == s.scannerRx || t.scannerRx.None?)
            && (Confirmed(s.registry, sessions) != {} ==> t.scannerRx.None?)
  {
    ReconcileChannel(c, env, s, s.registry, order, sessions);
    AdoptIsPointwise(c, env, ReconcileAll(c, env, s, s.registry, order, sessions), s.registry.Keys, sessions);
    if id :| id in Confirmed(s.registry, sessions) {
      assert id in order;
    }
  }

  lemma {:induction false} RearmKeepsChannel(c: Config, s: State, entries: seq<RetryState>)
    ensures var t := RearmAll(c, s, entries); t.scannerRx == s.scannerRx && t.scansStarted == s.scansStarted
  {
    if entries != [] {
      RearmKeepsChannel(c, s, entries[..|entries| - 1]);
    }
  }

  lemma {:induction false} DisconnectAllChannel(c: Config, env: Env, s: State, names: seq<ProfileId>)
    ensures var t := DisconnectAll(c, env, s, names);
            t.scansStarted == s.scansStarted && t.scannerRx == if names == [] then s.scannerRx else None
    decreases |names|
  {
    if names != [] {
      DisconnectAllChannel(c, env, DisconnectSpecific(c, env, s, names[0]), names[1..]);
    }
  }

  /** A command holds on to the channel exactly when it asks for no teardown. */
  lemma CommandChannel(c: Config, env: Env, s: State, view: View, command: Command)
    ensures var t := RunCommand(c, env, s, view, command);
            && t.scansStarted == s.scansStarted
            && t.scannerRx == if CommandTearsDown(c, s, view, command) then None else s.scannerRx
  {
    if command.DisconnectEvery? {
      DisconnectAllChannel(c, env, s, command.names);
    }
  }

  lemma StepChannel(c: Config, s: State, e: Event)
    requires Wellformed(s, e)
    ensures ChannelStep(c, s, e, Step(c, s, e))
  {
    match e
    case Scan(env, order, sessions) => ScanChannel(c, env, s, order, sessions);
    case Poll(env, recv, order) =>
      if s.scannerRx.Some? && recv.Ready? {
        ScanChannel(c, env, s.(scannerRx := None), order, recv.sessions);
      }
    case ConnectResult(_, _, _, _, _, _) =>
    case DisconnectResult(_, _) =>
    case TimerFires(_, _) =>
    case NetworkChange(_, entries) => RearmKeepsChannel(c, s, entries);
    case Timeout(_) =>
    case User(env, view, command) => CommandChannel(c, env, s, view, command);
  }

  // ---------------------------------------------------------------------- whole runs

  ghost predicate ChannelRun(c: Config, states: seq<State>, events: seq<Event>) {
    |states| == |events| + 1 &&
    forall i {:trigger events[i]} :: 0 <= i < |events| ==> ChannelStep(c, states[i], events[i], states[i + 1])
  }

  lemma RunChannel(c: Config, states: seq<State>, events: seq<Event>)
    requires IsRun(c, states, events)
    ensures ChannelRun(c, states, events)
  {
    forall i {:trigger events[i]} | 0 <= i < |events| ensures ChannelStep(c, states[i], events[i], states[i + 1]) {
      StepOfRun(c, states, events, i);
      StepChannel(c, states[i], events[i]);
    }
  }

  /** Once every held channel is numbered `k` or above, it stays so. */
  lemma {:induction false} NumbersGrow(c: Config, states: seq<State>, events: seq<Event>, m: nat, n: nat, k: nat)
    requires ChannelRun(c, states, events) && m <= n <= |events|
    requires states[m].scansStarted >= k
    requires states[m].scannerRx.Some? ==> states[m].scannerRx.value >= k
    ensures states[n].scansStarted >= k
    ensures states[n].scannerRx.Some? ==> states[n].scannerRx.value >= k
    decreases n
  {
    if m < n {
      NumbersGrow(c, states, events, m, n - 1, k);
      assert ChannelStep(c, states[n - 1], events[n - 1], states[n]);
    }
  }

  /**
   * Freshness. If event `i` started thread `k` and event `j` delivers its result, no event between
   * them asked for or completed a teardown.
   */
  lemma DeliveredScanIsFresh(c: Config, states: seq<State>, events: seq<Event>, i: nat, j: nat, k: nat, m: nat)
    requires IsRun(c, states, events) && i < m < j < |events|
    requires states[i].scansStarted == k && states[i + 1].scansStarted == k + 1
    requires Delivers(states[j], events[j], k)
    ensures !TearsDown(c, states[m], events[m])
  {
    RunChannel(c, states, events);
    StartedAtLeast(c, states, events, i + 1, m, k + 1);
    if TearsDown(c, states[m], events[m]) {
      StepOfRun(c, states, events, m);
      StepChannel(c, states[m], events[m]);
      NumbersGrow(c, states, events, m + 1, j, k + 1);
    }
  }

  lemma {:induction false} StartedAtLeast(c: Config, states: seq<State>, events: seq<Event>, m: nat, n: nat, k: nat)
    requires ChannelRun(c, states, events) && m <= n <= |events| && states[m].scansStarted >= k
    ensures states[n].scansStarted >= k
    decreases n
  {
    if m < n {
      StartedAtLeast(c, states, events, m, n - 1, k);
      assert ChannelStep(c, states[n - 1], events[n - 1], states[n]);
    }
  }

  /** At most one scan is listened to: results are delivered in the order of their start, each at most once. */
  lemma DeliveredOnceInOrder(c: Config, states: seq<State>, events: seq<Event>, i: nat, j: nat, k: nat, l: nat)
    requires IsRun(c, states, events) && i < j < |events|
    requires states[i].scannerRx.Some? ==> states[i].scannerRx.value < states[i].scansStarted
    requires Delivers(states[i], events[i], k) && Delivers(states[j], events[j], l)
    ensures k < l
  {
    RunChannel(c, states, events);
    StepOfRun(c, states, events, i);
    StepChannel(c, states[i], events[i]);
    NumbersGrow(c, states, events, i + 1, j, states[i].scansStarted);
  }
}
