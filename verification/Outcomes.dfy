/**
 * What each message comes to, read off the state before and after it: which entries, retry entries,
 * timers and workers it touches, and that it touches no other. The handlers are not mentioned; every
 * statement is about a step of the machine.
 */
module Outcomes {
  import opened Wrappers
  import opened Lifecycle
  import opened Reconciliation
  import opened LifecycleRuns
  import opened RetryChain
  import Backoff

  // ---------------------------------------------------------------------- what a step leaves alone

  /** Only `a` is touched, in the registry and in the retry table. */
  ghost predicate OthersKept(s: State, t: State, a: ProfileId) {
    forall id :: id != a ==> EntryKept(s, t, id) && RetryKept(s, t, id)
  }

  /** No drop is counted, no timer armed, no worker or scan started, and the last connected profile stays. */
  predicate NothingStarted(s: State, t: State) {
    t.drops == s.drops && t.scheduled == s.scheduled && t.workers == s.workers && t.scansStarted == s.scansStarted &&
    t.lastConnected == s.lastConnected
  }

  predicate QueueAndScanKept(s: State, t: State) {
    t.pending == s.pending && t.scannerRx == s.scannerRx
  }

  // ---------------------------------------------------------------------- results

  /**
   * An accepted success completes the connect and ends its retry chain: the entry is Connected since
   * now, on the interface the protocol layer named, with nothing but the process known of it.
   */
  lemma SuccessCompletes(c: Config, s: State, env: Env, a: ProfileId, error: Option<string>, interface: Option<string>, pid: Option<nat>)
    requires Inv(c, s) && a in s.registry && (s.registry[a].Connecting? || s.registry[a].Connected?)
    ensures var t := Step(c, s, ConnectResult(env, a, true, error, interface, pid));
            var name := match interface case None => "" case Some(i) => i;
            && a in t.registry
            && t.registry[a] == Connected(env.now, Details(name, true, Metadata("", "", "", "", "", "", "", "", pid)))
            && a !in t.retry && OthersKept(s, t, a)
            && t.lastConnected == Some(a) && QueueAndScanKept(s, t)
            && t.drops == s.drops && t.scheduled == s.scheduled && t.workers == s.workers && t.scansStarted == s.scansStarted
  {
    assert InCatalog(c, a);
  }

  /**
   * An accepted failure shows on the entry, empties the queue, and either moves the retry entry one
   * attempt on, with one timer for it, or ends the chain.
   */
  lemma FailureOutcome(c: Config, s: State, env: Env, a: ProfileId, error: Option<string>, interface: Option<string>, pid: Option<nat>)
    requires Inv(c, s) && a in s.registry && (s.registry[a].Connecting? || s.registry[a].Connected?)
    ensures var t := Step(c, s, ConnectResult(env, a, false, error, interface, pid));
            var message := match error case None => "unknown error" case Some(text) => text;
            && a in t.registry && t.registry[a] == Disconnected(Some(message)) && OthersKept(s, t, a)
            && t.pending.None? && t.scannerRx == s.scannerRx && t.lastConnected == s.lastConnected
            && t.drops == s.drops && t.workers == s.workers && t.scansStarted == s.scansStarted
    ensures var t := Step(c, s, ConnectResult(env, a, false, error, interface, pid));
            var attempt := if a in s.retry then s.retry[a].attempt + 1 else 1;
            var automatic := a in s.retry && s.retry[a].autoReconnect;
            var at := Position(c.profiles, a);
            if attempt <= c.maxRetries && s.pending.None? then
              && at.Some? && a in t.retry && t.retry[a] == RetryState(attempt, at.value, automatic)
              && t.scheduled == s.scheduled
                              + multiset{Timer(at.value, attempt, Backoff.RetryDelay(c.retryBaseDelay, c.retryMaxDelay, attempt))}
            else a !in t.retry && t.scheduled == s.scheduled
  {
    assert InCatalog(c, a);
    FailureStepIs(c, s, env, a, error, interface, pid);
    hide Step, Inv, ConnectFailed, Backoff.RetryDelay, OthersKept;
    FailureLeaves(c, s, a, error);
    FailureArms(c, s, a, error);
  }

  lemma FailureLeaves(c: Config, s: State, a: ProfileId, error: Option<string>)
    requires InCatalog(c, a)
    ensures var t := ConnectFailed(c, s, a, error);
            && a in t.registry && t.registry[a] == Disconnected(Some(error.GetOr("unknown error"))) && OthersKept(s, t, a)
            && t.pending.None? && t.scannerRx == s.scannerRx && t.lastConnected == s.lastConnected
            && t.drops == s.drops && t.workers == s.workers && t.scansStarted == s.scansStarted
  {
    hide FailureTimer;
    assert FailureTimer(c, s, a).Some? ==> s.pending.None? by { TimerNeedsEmptyQueue(c, s, a); }
  }

  lemma TimerNeedsEmptyQueue(c: Config, s: State, a: ProfileId)
    ensures FailureTimer(c, s, a).Some? ==> s.pending.None?
  {
  }

  lemma FailureArms(c: Config, s: State, a: ProfileId, error: Option<string>)
    requires InCatalog(c, a)
    ensures var t := ConnectFailed(c, s, a, error);
            var at, attempt := Position(c.profiles, a).value, RetryAttempt(s, a, 0) + 1;
            if attempt <= c.maxRetries && s.pending.None? then
              && a in t.retry && t.retry[a] == RetryState(attempt, at, a in s.retry && s.retry[a].autoReconnect)
              && t.scheduled == s.scheduled + multiset{Timer(at, attempt, Backoff.RetryDelay(c.retryBaseDelay, c.retryMaxDelay, attempt))}
            else a !in t.retry && t.scheduled == s.scheduled
  {
    hide Backoff.RetryDelay, Position;
  }

  lemma FailureStepIs(c: Config, s: State, env: Env, a: ProfileId, error: Option<string>, interface: Option<string>, pid: Option<nat>)
    requires a in s.registry && (s.registry[a].Connecting? || s.registry[a].Connected?)
    ensures Step(c, s, ConnectResult(env, a, false, error, interface, pid)) == ConnectFailed(c, s, a, error)
  {
  }

  /** A result for a profile that is neither coming up nor up, and every disconnect result, changes nothing. */
  lemma StaleResultsChangeNothing(c: Config, s: State, env: Env, a: ProfileId, success: bool, error: Option<string>,
                                  interface: Option<string>, pid: Option<nat>)
    requires a in s.registry ==> !s.registry[a].Connecting? && !s.registry[a].Connected?
    ensures Step(c, s, ConnectResult(env, a, success, error, interface, pid)) == s
    ensures Step(c, s, DisconnectResult(a, success)) == s
  {
  }

  // ---------------------------------------------------------------------- a success disarms

  /** What gives `a` a retry entry again: a counted drop, or a failed connect. */
  ghost predicate Rearms(c: Config, s: State, e: Event, a: ProfileId) {
    (c.autoReconnect && a in DroppedBy(s, e)) || (e.ConnectResult? && e.profile == a && !e.success)
  }

  lemma ScanArmsOnlyDrops(c: Config, env: Env, s: State, order: seq<ProfileId>, sessions: seq<Session>, a: ProfileId)
    requires Enumerates(order, s.registry) && !(c.autoReconnect && a in Dropped(s.registry, sessions)) && a !in s.retry
    ensures a !in ScanTick(c, env, s, order, sessions).retry
  {
    WalkArmsOnlyDrops(c, env, s, order, sessions, a);
    AdoptIsPointwise(c, env, ReconcileAll(c, env, s, s.registry, order, sessions), s.registry.Keys, sessions);
  }

  lemma {:induction false} WalkArmsOnlyDrops(c: Config, env: Env, s: State, order: seq<ProfileId>, sessions: seq<Session>, a: ProfileId)
    requires forall id :: id in order ==> id in s.registry
    requires !(c.autoReconnect && a in Dropped(s.registry, sessions)) && a !in s.retry
    ensures a !in ReconcileAll(c, env, s, s.registry, order, sessions).retry
  {
    if order != [] {
      var init, last := order[..|order| - 1], order[|order| - 1];
      WalkArmsOnlyDrops(c, env, s, init, sessions, a);
      ArmArmsOnlyDrops(c, env, ReconcileAll(c, env, s, s.registry, init, sessions), last, s.registry[last], FirstNamed(sessions, last), a);
      assert a == last ==> !(c.autoReconnect && s.registry[last].Connected? && FirstNamed(sessions, last).None?);
    }
  }

  lemma ArmArmsOnlyDrops(c: Config, env: Env, s: State, name: ProfileId, snap: Connection, seen: Option<Session>, a: ProfileId)
    requires a !in s.retry
    ensures a in ScanArm(c, env, s, name, snap, seen).retry ==> a == name && c.autoReconnect && snap.Connected? && seen.None?
  {
  }

  lemma {:induction false} RearmAllKeepsOut(c: Config, s: State, entries: seq<RetryState>, a: ProfileId)
    requires a !in s.retry && forall r :: r in entries ==> r.profileIdx < |c.profiles| && c.profiles[r.profileIdx].name != a
    ensures a !in RearmAll(c, s, entries).retry && RearmAll(c, s, entries).workers == s.workers
  {
    if entries != [] {
      RearmAllKeepsOut(c, s, entries[..|entries| - 1], a);
    }
  }

  lemma {:induction false} DisconnectAllKeepsOut(c: Config, env: Env, s: State, names: seq<ProfileId>, a: ProfileId)
    requires a !in s.retry
    ensures a !in DisconnectAll(c, env, s, names).retry
    decreases |names|
  {
    if names != [] {
      DisconnectAllKeepsOut(c, env, DisconnectSpecific(c, env, s, names[0]), names[1..], a);
    }
  }

  lemma ToggleKeepsOut(c: Config, env: Env, s: State, view: View, idx: nat, a: ProfileId)
    requires a !in s.retry
    ensures a !in ToggleConnection(c, env, s, view, idx).retry
  {
    hide ConnectAllowed, Position;
  }

  lemma ReconnectKeepsOut(c: Config, env: Env, s: State, view: View, a: ProfileId)
    requires a !in s.retry
    ensures a !in Reconnect(c, env, s, view).retry
  {
    hide ConnectAllowed, Position;
  }

  lemma CurrentKeepsOut(c: Config, env: Env, s: State, view: View, a: ProfileId)
    requires a !in s.retry
    ensures a !in DisconnectCurrent(c, env, s, view).retry && a !in ForceDisconnect(c, env, s, view).retry
  {
  }

  lemma CommandKeepsOut(c: Config, env: Env, s: State, view: View, command: Command, a: ProfileId)
    requires a !in s.retry
    ensures a !in RunCommand(c, env, s, view, command).retry
  {
    hide ConnectAllowed, Position, ToggleConnection, Reconnect, DisconnectAll, DisconnectCurrent, ForceDisconnect;
    match command
    case Toggle(idx) => ToggleKeepsOut(c, env, s, view, idx, a);
    case Selected(idx) => ToggleKeepsOut(c, env, s, view, idx, a);
    case ReconnectLast => ReconnectKeepsOut(c, env, s, view, a);
    case DisconnectEvery(names) => DisconnectAllKeepsOut(c, env, s, names, a);
    case DisconnectOrForce => CurrentKeepsOut(c, env, s, view, a);
    case SwitchExclusive(idx) => CurrentKeepsOut(c, env, s.(pending := Some(idx)), view, a);
    case _ =>
  }

  /** Without a retry entry no timer connects, and only a re-arming event brings an entry back. */
  lemma StepKeepsDisarmed(c: Config, s: State, e: Event, a: ProfileId)
    requires Inv(c, s) && Wellformed(s, e) && a !in s.retry && !Rearms(c, s, e, a)
    ensures a !in Step(c, s, e).retry
    ensures e.TimerFires? ==> Step(c, s, e).workers[a] == s.workers[a]
  {
    hide ScanTick, RearmAll, RunCommand, RetryConnect;
    match e
    case Scan(env, order, sessions) => ScanArmsOnlyDrops(c, env, s, order, sessions, a);
    case Poll(env, recv, order) =>
      if s.scannerRx.Some? && recv.Ready? {
        ScanArmsOnlyDrops(c, env, s.(scannerRx := None), order, recv.sessions, a);
      }
    case ConnectResult(_, _, _, _, _, _) =>
    case DisconnectResult(_, _) =>
    case TimerFires(env, timer) => TimerTouches(c, env, s, timer, a);
    case NetworkChange(_, entries) =>
      forall r | r in entries ensures r.profileIdx < |c.profiles| && c.profiles[r.profileIdx].name != a {
        var id :| id in s.retry && s.retry[id] == r;
        assert RetryEntryOk(c, id, r);
      }
      RearmAllKeepsOut(c, s, entries, a);
    case Timeout(_) =>
    case User(env, view, command) => CommandKeepsOut(c, env, s, view, command, a);
  }

  ghost predicate KeepsDisarmed(c: Config, s: State, e: Event, t: State, a: ProfileId) {
    a !in s.retry && !Rearms(c, s, e, a) ==> a !in t.retry && (e.TimerFires? ==> t.workers[a] == s.workers[a])
  }

  lemma {:induction false} DisarmedAdds(c: Config, states: seq<State>, events: seq<Event>, n: nat, a: ProfileId)
    requires |states| == |events| + 1 && n <= |events| && a !in states[0].retry
    requires forall i {:trigger events[i]} :: 0 <= i < |events| ==> KeepsDisarmed(c, states[i], events[i], states[i + 1], a)
    requires forall i {:trigger events[i]} :: 0 <= i < n ==> !Rearms(c, states[i], events[i], a)
    ensures a !in states[n].retry
  {
    if n > 0 {
      DisarmedAdds(c, states, events, n - 1, a);
      assert KeepsDisarmed(c, states[n - 1], events[n - 1], states[n], a);
    }
  }

  /**
   * After a success no timer armed before it can start a connect of that profile, in any run, until a
   * drop or a failure re-arms it.
   */
  lemma SuccessDisarmsTimers(c: Config, states: seq<State>, events: seq<Event>, n: nat, a: ProfileId)
    requires IsRun(c, states, events) && 0 < n < |events| && Inv(c, states[0])
    requires events[0].ConnectResult? && events[0].profile == a && events[0].success
    requires a in states[0].registry && (states[0].registry[a].Connecting? || states[0].registry[a].Connected?)
    requires forall i {:trigger events[i]} :: 1 <= i <= n ==> !Rearms(c, states[i], events[i], a)
    ensures a !in states[n].retry
    ensures events[n].TimerFires? ==> states[n + 1].workers[a] == states[n].workers[a]
  {
    forall i {:trigger events[i]} | 0 <= i < |events| ensures KeepsDisarmed(c, states[i], events[i], states[i + 1], a) {
      StepOfRun(c, states, events, i);
      RunKeepsInv(c, states, events, i);
      if a !in states[i].retry && !Rearms(c, states[i], events[i], a) {
        StepKeepsDisarmed(c, states[i], events[i], a);
      }
    }
    var e := events[0];
    StepOfRun(c, states, events, 0);
    SuccessCompletes(c, states[0], e.env, a, e.error, e.interface, e.pid);
    var later, rest := states[1..], events[1..];
    forall i {:trigger rest[i]} | 0 <= i < |rest| ensures KeepsDisarmed(c, later[i], rest[i], later[i + 1], a) {
      assert rest[i] == events[i + 1];
    }
    forall i {:trigger rest[i]} | 0 <= i < n - 1 ensures !Rearms(c, later[i], rest[i], a) {
      assert rest[i] == events[i + 1];
    }
    DisarmedAdds(c, later, rest, n - 1, a);
    assert KeepsDisarmed(c, states[n], events[n], states[n + 1], a);
  }

  // ---------------------------------------------------------------------- the gates of a connect

  predicate Claims(c: Config, id: ProfileId) {
    var at := Position(c.profiles, id);
    at.Some? && c.profiles[at.value].claimsDefaultRoute
  }

  /** Profile `idx` would take the default route from a tunnel that is up or coming up. */
  predicate WouldTakeOver(c: Config, r: Registry, idx: nat)
    requires idx < |c.profiles|
  {
    c.profiles[idx].claimsDefaultRoute &&
    exists other :: other in r && other != c.profiles[idx].name && (r[other].Connected? || r[other].Connecting?) && Claims(c, other)
  }

  function ShownAttempt(s: State, a: ProfileId): nat {
    if a in s.retry then s.retry[a].attempt else 1
  }

  /** The profile comes up: one entry and one worker, and no more. */
  predicate BroughtUp(env: Env, s: State, t: State, a: ProfileId) {
    && t.registry == s.registry[a := Connecting(env.now, ShownAttempt(s, a))] && t.workers == s.workers + multiset{a}
    && t.retry == s.retry && t.drops == s.drops && t.scheduled == s.scheduled && t.scannerRx == s.scannerRx
    && t.scansStarted == s.scansStarted && t.lastConnected == s.lastConnected
  }

  /** A connect goes through exactly when the profile exists, is ready and takes over from nobody, or is forced to. */
  lemma ConnectGates(c: Config, env: Env, s: State, view: View, idx: nat, dropQueue: bool)
    ensures var t := Step(c, s, User(env, view, ConnectAfterAuth(idx)));
            if idx < |c.profiles| && c.profiles[idx].name in env.ready && !WouldTakeOver(c, s.registry, idx) then
              BroughtUp(env, s, t, c.profiles[idx].name) && t.pending == s.pending
            else t == s
    ensures var t := Step(c, s, User(env, view, ForceConnect(idx, dropQueue)));
            && t.pending == (if dropQueue then None else s.pending)
            && if idx < |c.profiles| && c.profiles[idx].name in env.ready then BroughtUp(env, s, t, c.profiles[idx].name)
               else t == s.(pending := t.pending)
  {
    if idx < |c.profiles| {
      TakeOverIsConflict(c, s.registry, idx);
    }
  }

  lemma TakeOverIsConflict(c: Config, r: Registry, idx: nat)
    requires idx < |c.profiles|
    ensures WouldTakeOver(c, r, idx) <==> Conflicts(c, r, idx)
  {
    assert forall id :: Claims(c, id) <==> ClaimsDefaultRoute(c, id);
  }

  // ---------------------------------------------------------------------- disconnects

  /** The teardown of `a` has been asked for, and nothing else has changed. */
  ghost predicate TakenDown(env: Env, s: State, t: State, a: ProfileId) {
    && a !in t.retry && (a in t.registry <==> a in s.registry) && (a in t.registry ==> t.registry[a] == Disconnecting(env.now))
    && OthersKept(s, t, a) && t.scannerRx.None? && NothingStarted(s, t)
  }

  lemma DisconnectOutcome(c: Config, env: Env, s: State, view: View, idx: nat)
    ensures var t := Step(c, s, User(env, view, DisconnectOne(idx)));
            if idx < |c.profiles| && c.profiles[idx].name in s.registry && !s.registry[c.profiles[idx].name].Disconnected? then
              TakenDown(env, s, t, c.profiles[idx].name) && t.pending == s.pending
            else t == s
  {
    if idx < |c.profiles| {
      assert InCatalog(c, c.profiles[idx].name);
    }
  }

  /** The disconnect key acts on the tunnel on show; pressed during its teardown it restarts the clock alone. */
  lemma DisconnectKeyOutcome(c: Config, env: Env, s: State, view: View)
    requires !view.ViewDisconnected? ==> InCatalog(c, view.profile)
    ensures var t := Step(c, s, User(env, view, DisconnectOrForce));
            match view
            case ViewDisconnected => t == s
            case ViewDisconnecting(a) =>
              && EntryOutcome(env, s, t, a) && RetryKept(s, t, a) && OthersKept(s, t, a)
              && t.scannerRx.None? && t.pending == s.pending && NothingStarted(s, t)
            case _ => TakenDown(env, s, t, view.profile) && t.pending == s.pending
  {
  }

  predicate EntryOutcome(env: Env, s: State, t: State, a: ProfileId) {
    (a in t.registry <==> a in s.registry) && (a in t.registry ==> t.registry[a] == Disconnecting(env.now))
  }

  /** Disconnecting everything takes down every tunnel named, and no other. */
  lemma EveryoneIsTakenDown(c: Config, env: Env, s: State, view: View, names: seq<ProfileId>)
    requires forall id :: id in names ==> InCatalog(c, id)
    ensures var t := Step(c, s, User(env, view, DisconnectEvery(names)));
            && (forall id :: id in names ==> id !in t.retry && EntryOutcome(env, s, t, id))
            && (forall id :: id !in names ==> EntryKept(s, t, id) && RetryKept(s, t, id))
            && t.pending == s.pending && NothingStarted(s, t) && t.scannerRx == (if names == [] then s.scannerRx else None)
  {
    AllTakenDown(c, env, s, names);
  }

  lemma {:induction false} AllTakenDown(c: Config, env: Env, s: State, names: seq<ProfileId>)
    requires forall id :: id in names ==> InCatalog(c, id)
    ensures var t := DisconnectAll(c, env, s, names);
            && (forall id :: id in names ==> id !in t.retry && EntryOutcome(env, s, t, id))
            && (forall id :: id !in names ==> EntryKept(s, t, id) && RetryKept(s, t, id))
            && t.pending == s.pending && NothingStarted(s, t) && t.scannerRx == (if names == [] then s.scannerRx else None)
    decreases |names|
  {
    if names != [] {
      var next := DisconnectSpecific(c, env, s, names[0]);
      AllTakenDown(c, env, next, names[1..]);
      assert forall id :: id in names <==> id == names[0] || id in names[1..];
    }
  }

  // ---------------------------------------------------------------------- timers, timeouts, the network

  /** A timer connects on the matching entry when nothing is active, throws it away when something is, and is else ignored. */
  lemma TimerOutcome(c: Config, s: State, env: Env, timer: Timer)
    ensures var t := Step(c, s, TimerFires(env, timer));
            if timer.idx < |c.profiles| && c.profiles[timer.idx].name in s.retry &&
               s.retry[c.profiles[timer.idx].name].profileIdx == timer.idx &&
               s.retry[c.profiles[timer.idx].name].attempt == timer.attempt
            then
              var a := c.profiles[timer.idx].name;
              if exists id :: id in s.registry && !s.registry[id].Disconnected? then t == s.(retry := t.retry) && t.retry == s.retry - {a}
              else if a in env.ready then BroughtUp(env, s, t, a) && t.pending == s.pending && t.registry[a] == Connecting(env.now, timer.attempt)
              else t == s
            else t == s
  {
    if timer.idx < |c.profiles| && !AnyActive(s.registry) {
      TakeOverIsConflict(c, s.registry, timer.idx);
    }
  }

  lemma TimeoutOutcome(c: Config, s: State, a: ProfileId)
    ensures var t := Step(c, s, Timeout(a));
            && a !in t.registry && a !in t.retry && OthersKept(s, t, a)
            && t.pending.None? && t.scannerRx == s.scannerRx && NothingStarted(s, t)
  {
  }

  /** The retry table, each entry once. */
  ghost predicate ListsTable(entries: seq<RetryState>, names: seq<ProfileId>, retry: map<ProfileId, RetryState>) {
    && |entries| == |names| && (forall id :: id in names <==> id in retry)
    && (forall i, j :: 0 <= i < j < |names| ==> names[i] != names[j])
    && (forall i :: 0 <= i < |names| ==> names[i] in retry && entries[i] == retry[names[i]])
  }

  /** The automatic entries start over at attempt 1; the others stay as they are. */
  function StartedOver(retry: map<ProfileId, RetryState>, done: set<ProfileId>): map<ProfileId, RetryState> {
    map id | id in retry ::
      if id in done && retry[id].autoReconnect then RetryState(1, retry[id].profileIdx, true) else retry[id]
  }

  /** One timer for each automatic entry. */
  function NewTimers(c: Config, retry: map<ProfileId, RetryState>, done: set<ProfileId>): multiset<Timer> {
    multiset(set id | id in retry && id in done && retry[id].autoReconnect :: Timer(retry[id].profileIdx, 1, c.autoReconnectDelay))
  }

  /**
   * A network change, when idle and with automatic reconnect on, starts exactly the automatic entries
   * over, each with one timer for attempt 1; in every other case, and in every other field, it changes
   * nothing.
   */
  lemma NetworkOutcome(c: Config, s: State, view: View, entries: seq<RetryState>, names: seq<ProfileId>)
    requires Inv(c, s) && ListsTable(entries, names, s.retry)
    ensures Wellformed(s, NetworkChange(view, entries))
    ensures var t := Step(c, s, NetworkChange(view, entries));
            if view.ViewDisconnected? && c.autoReconnect then
              && t == s.(retry := t.retry, scheduled := t.scheduled)
              && t.retry == StartedOver(s.retry, s.retry.Keys)
              && t.scheduled == s.scheduled + NewTimers(c, s.retry, s.retry.Keys)
            else t == s
  {
    assert forall r :: r in entries ==> r in s.retry.Values;
    if view.ViewDisconnected? && c.autoReconnect {
      RearmedSoFar(c, s, entries, names, |entries|);
      assert entries[..|entries|] == entries;
      assert Named(names, |names|) == s.retry.Keys;
    }
  }

  function Named(names: seq<ProfileId>, n: nat): set<ProfileId>
    requires n <= |names|
  {
    set id | id in names[..n]
  }

  lemma {:induction false} RearmedSoFar(c: Config, s: State, entries: seq<RetryState>, names: seq<ProfileId>, n: nat)
    requires Inv(c, s) && ListsTable(entries, names, s.retry) && n <= |entries|
    ensures RearmAll(c, s, entries[..n]) ==
            s.(retry := StartedOver(s.retry, Named(names, n)), scheduled := s.scheduled + NewTimers(c, s.retry, Named(names, n)))
  {
    if n == 0 {
      assert StartedOver(s.retry, Named(names, 0)) == s.retry;
      assert NewTimers(c, s.retry, Named(names, 0)) == multiset{};
      assert s.scheduled + multiset{} == s.scheduled;
    } else {
      hide StartedOver, NewTimers, Inv, Named, Rearm;
      var id, entry := names[n - 1], entries[n - 1];
      RearmedSoFar(c, s, entries, names, n - 1);
      assert entries[..n][..n - 1] == entries[..n - 1] && entry == s.retry[id];
      OneMoreNamed(names, n);
      RearmOne(c, s, Named(names, n - 1), id);
    }
  }

  lemma OneMoreNamed(names: seq<ProfileId>, n: nat)
    requires 0 < n <= |names| && forall i, j :: 0 <= i < j < |names| ==> names[i] != names[j]
    ensures Named(names, n) == Named(names, n - 1) + {names[n - 1]} && names[n - 1] !in Named(names, n - 1)
  {
    assert names[..n] == names[..n - 1] + [names[n - 1]];
  }

  lemma RearmOne(c: Config, s: State, done: set<ProfileId>, id: ProfileId)
    requires Inv(c, s) && id in s.retry && id !in done
    ensures Rearm(c, s.(retry := StartedOver(s.retry, done), scheduled := s.scheduled + NewTimers(c, s.retry, done)), s.retry[id])
         == s.(retry := StartedOver(s.retry, done + {id}), scheduled := s.scheduled + NewTimers(c, s.retry, done + {id}))
  {
    assert RetryEntryOk(c, id, s.retry[id]);
    OneStartsOver(c, s.retry, done, id);
    OneNewTimer(c, s, done, id);
    hide StartedOver, NewTimers, Inv;
    if !s.retry[id].autoReconnect {
      assert NewTimers(c, s.retry, done) + multiset{} == NewTimers(c, s.retry, done);
    }
  }

  lemma OneStartsOver(c: Config, retry: map<ProfileId, RetryState>, done: set<ProfileId>, id: ProfileId)
    requires id in retry && id !in done
    ensures StartedOver(retry, done + {id}) ==
            if retry[id].autoReconnect then StartedOver(retry, done)[id := RetryState(1, retry[id].profileIdx, true)]
            else StartedOver(retry, done)
  {
  }

  lemma OneNewTimer(c: Config, s: State, done: set<ProfileId>, id: ProfileId)
    requires Inv(c, s) && id in s.retry && id !in done
    ensures NewTimers(c, s.retry, done + {id}) == NewTimers(c, s.retry, done) +
            if s.retry[id].autoReconnect then multiset{Timer(s.retry[id].profileIdx, 1, c.autoReconnectDelay)} else multiset{}
  {
    var before := set k | k in s.retry && k in done && s.retry[k].autoReconnect :: Timer(s.retry[k].profileIdx, 1, c.autoReconnectDelay);
    var after := set k | k in s.retry && k in done + {id} && s.retry[k].autoReconnect :: Timer(s.retry[k].profileIdx, 1, c.autoReconnectDelay);
    var timer := Timer(s.retry[id].profileIdx, 1, c.autoReconnectDelay);
    assert forall k :: k in s.retry ==> RetryEntryOk(c, k, s.retry[k]);
    if s.retry[id].autoReconnect {
      assert after == before + {timer};
      forall k | k in s.retry && k != id ensures s.retry[k].profileIdx != s.retry[id].profileIdx {
        assert c.profiles[s.retry[k].profileIdx].name == k && c.profiles[s.retry[id].profileIdx].name == id;
      }
      assert timer !in before;
    } else {
      assert after == before;
    }
  }
}
