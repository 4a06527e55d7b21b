/**
 * The lifecycle handlers as the program runs them: on the fields of one object, step by step. Every
 * method is proved to compute the function of module `Lifecycle` that specifies it, so the theorems
 * about those functions hold of the object. What the functions leave out, the primary tunnel elected
 * from the kernel's default route, is kept here together with its invariant.
 */
module AppMachine {
  import opened Wrappers
  import opened Lifecycle
  import opened Reconciliation
  import opened LifecycleRuns
  import opened Names
  import Backoff
  import Outcomes

  /** A tunnel the registry may elect: Connected, on a trusted interface, holding the default route. */
  predicate Candidate(registry: Registry, route: Option<string>, id: ProfileId) {
    id in registry && registry[id].Connected? && registry[id].details.authoritative &&
    route == Some(registry[id].details.interface)
  }

  predicate Elected(registry: Registry, route: Option<string>, primary: Option<ProfileId>) {
    match primary
    case Some(id) => Candidate(registry, route, id)
    case None => forall id :: id in registry ==> !Candidate(registry, route, id)
  }

  function ViewOf(id: ProfileId, connection: Connection): View {
    match connection
    case Disconnected(_) => ViewDisconnected
    case Connecting(_, _) => ViewConnecting(id)
    case Reconnecting(_) => ViewConnecting(id)
    case AwaitingUserInput(_) => ViewConnecting(id)
    case Connected(_, _) => ViewConnected(id)
    case Disconnecting(_) => ViewDisconnecting(id)
  }

  function Active(registry: Registry): set<ProfileId> {
    set id | id in registry && !registry[id].Disconnected?
  }

  /** The active tunnel that comes first by name. */
  ghost predicate FirstActive(registry: Registry, id: ProfileId) {
    id in Active(registry) && forall other :: other in Active(registry) ==> Le(id, other)
  }

  /** The view shows the primary if there is one, else the first active tunnel by name, else nothing. */
  ghost predicate ViewShows(registry: Registry, primary: Option<ProfileId>, view: View) {
    if primary.Some? && primary.value in registry then view == ViewOf(primary.value, registry[primary.value])
    else if Active(registry) != {} then exists id :: FirstActive(registry, id) && view == ViewOf(id, registry[id])
    else view.ViewDisconnected?
  }

  /** `other`, up or coming up, already claims the default route that `idx` would claim. */
  predicate ConflictsWith(c: Config, registry: Registry, idx: nat, other: ProfileId)
    requires idx < |c.profiles|
  {
    c.profiles[idx].claimsDefaultRoute && other in registry && other != c.profiles[idx].name && ClaimsDefaultRoute(c, other) &&
    (registry[other].Connected? || registry[other].Connecting?)
  }

  lemma ActiveCounts(registry: Registry)
    ensures |Active(registry)| > 0 <==> AnyActive(registry)
  {
    if AnyActive(registry) {
      var id :| id in registry && !registry[id].Disconnected?;
      assert id in Active(registry);
    }
  }

  lemma FirstIs(registry: Registry, order: seq<ProfileId>, i: nat)
    requires Enumerates(order, registry) && Sorted(order) && i < |order| && order[i] in Active(registry)
    requires forall j :: 0 <= j < i ==> registry[order[j]].Disconnected?
    ensures FirstActive(registry, order[i])
  {
    forall other | other in Active(registry) ensures Le(order[i], other) {
      var j :| 0 <= j < |order| && order[j] == other;
      LeTotal(order[i], order[i]);
    }
  }

  class App {
    const c: Config

    var registry: Registry
    var primary: Option<ProfileId>
    var defaultRoute: Option<string>
    var retry: map<ProfileId, RetryState>
    var pending: Option<nat>
    var drops: nat
    var lastConnected: Option<ProfileId>
    var scannerRx: Option<nat>
    var scansStarted: nat
    var scheduled: multiset<Timer>
    var workers: multiset<ProfileId>

    /** The primary, once elected, stays in the registry; at worst it is being reconnected by force. */
    ghost predicate Valid()
      reads this
    {
      primary.Some? ==>
        primary.value in registry && (registry[primary.value].Connected? || registry[primary.value].Connecting?)
    }

    ghost function Contents(): State
      reads this
    {
      State(registry, retry, pending, drops, lastConnected, scannerRx, scansStarted, scheduled, workers)
    }

    constructor (config: Config)
      ensures Valid() && Contents() == INITIAL && c == config
    {
      c := config;
      registry, retry, pending, drops := map[], map[], None, 0;
      primary, defaultRoute, lastConnected := None, None, None;
      scannerRx, scansStarted := None, 0;
      scheduled, workers := multiset{}, multiset{};
    }

    // -------------------------------------------------------------------- registry

    /** Pick the tunnel that owns the default route; of several, whichever the hash map yields first. */
    method RecomputePrimary()
      modifies `primary
      ensures Valid() && Elected(registry, defaultRoute, primary)
      ensures primary.Some? ==>
                primary.value in registry && registry[primary.value].Connected? && registry[primary.value].details.authoritative &&
                defaultRoute == Some(registry[primary.value].details.interface)
      ensures primary.None? ==>
                forall id :: id in registry && registry[id].Connected? && registry[id].details.authoritative ==>
                  defaultRoute != Some(registry[id].details.interface)
    {
      primary := None;
      var rest := registry.Keys;
      while rest != {} && primary.None?
        invariant rest <= registry.Keys
        invariant primary.Some? ==> Candidate(registry, defaultRoute, primary.value)
        invariant primary.None? ==> forall id :: id in registry && Candidate(registry, defaultRoute, id) ==> id in rest
        decreases rest
      {
        var id :| id in rest;
        rest := rest - {id};
        if Candidate(registry, defaultRoute, id) {
          primary := Some(id);
        }
      }
    }

    method FeedDefaultRoute(route: Option<string>)
      requires Valid()
      modifies `defaultRoute
      ensures Valid() && defaultRoute == route && Contents() == old(Contents())
    {
      defaultRoute := route;
    }

    method SetConnection(id: ProfileId, connection: Connection)
      modifies `registry, `primary
      ensures Valid() && Elected(registry, defaultRoute, primary)
      ensures Contents() == old(Contents()).(registry := old(registry)[id := connection])
    {
      registry := registry[id := connection];
      RecomputePrimary();
    }

    /** A tunnel coming up does not own the default route yet: no election. */
    method SetConnecting(id: ProfileId, startedAt: nat, attempt: nat)
      requires Valid()
      modifies `registry
      ensures Valid()
      ensures Contents() == old(Contents()).(registry := old(registry)[id := Connecting(startedAt, attempt)])
    {
      registry := registry[id := Connecting(startedAt, attempt)];
    }

    method SetDisconnecting(env: Env, id: ProfileId)
      modifies `registry, `primary
      ensures Valid() && Elected(registry, defaultRoute, primary)
      ensures Contents() == MarkDisconnecting(env, old(Contents()), id)
    {
      if id in registry {
        registry := registry[id := Disconnecting(env.now)];
      }
      RecomputePrimary();
    }

    method SetDisconnected(id: ProfileId)
      modifies `registry, `primary
      ensures Valid() && Elected(registry, defaultRoute, primary)
      ensures Contents() == old(Contents()).(registry := old(registry) - {id})
    {
      registry := registry - {id};
      RecomputePrimary();
    }

    /** The entries, each once, sorted by name. */
    method SnapshotAll() returns (order: seq<ProfileId>)
      ensures Enumerates(order, registry) && Sorted(order)
    {
      order := [];
      var rest := registry.Keys;
      while rest != {}
        invariant rest <= registry.Keys && Sorted(order)
        invariant forall id :: id in order <==> id in registry && id !in rest
        invariant Distinct(order)
        decreases rest
      {
        var id :| id in rest;
        order := InsertSorted(order, id);
        rest := rest - {id};
      }
    }

    method LegacyState() returns (view: View)
      ensures ViewShows(registry, primary, view)
    {
      if primary.Some? && primary.value in registry {
        return ViewOf(primary.value, registry[primary.value]);
      }
      var order := SnapshotAll();
      for i := 0 to |order|
        invariant forall j :: 0 <= j < i ==> registry[order[j]].Disconnected?
      {
        if !registry[order[i]].Disconnected? {
          FirstIs(registry, order, i);
          return ViewOf(order[i], registry[order[i]]);
        }
      }
      view := ViewDisconnected;
    }

    method ActiveTunnelCount() returns (count: nat)
      ensures count == |Active(registry)|
    {
      var order := SnapshotAll();
      ghost var seen: set<ProfileId> := {};
      count := 0;
      for i := 0 to |order|
        invariant count == |seen| && seen == set id | id in order[..i] && !registry[id].Disconnected?
      {
        assert order[..i + 1] == order[..i] + [order[i]];
        if !registry[order[i]].Disconnected? {
          count := count + 1;
          seen := seen + {order[i]};
        }
      }
      assert order[..|order|] == order;
      assert seen == Active(registry);
    }

    /** Some other tunnel that already claims the default route, whichever the hash map yields first. */
    method DetectConflict(idx: nat) returns (conflict: Option<ProfileId>)
      requires idx < |c.profiles|
      ensures conflict.Some? <==> Conflicts(c, registry, idx)
      ensures conflict.Some? ==> ConflictsWith(c, registry, idx, conflict.value)
    {
      if !c.profiles[idx].claimsDefaultRoute {
        return None;
      }
      var rest := registry.Keys;
      while rest != {}
        invariant rest <= registry.Keys
        invariant forall id :: id in registry && ConflictsWith(c, registry, idx, id) ==> id in rest
        decreases rest
      {
        var id :| id in rest;
        rest := rest - {id};
        if ConflictsWith(c, registry, idx, id) {
          return Some(id);
        }
      }
      assert forall id :: !ConflictsWith(c, registry, idx, id);
      conflict := None;
    }

    // -------------------------------------------------------------------- connect and disconnect

    method Connect(env: Env, idx: nat, force: bool)
      requires Valid()
      modifies this
      ensures Valid() && Contents() == ConnectProfile(c, env, old(Contents()), idx, force)
    {
      if idx >= |c.profiles| || c.profiles[idx].name !in env.ready {
        return;
      }
      if !force {
        var conflict := DetectConflict(idx);
        if conflict.Some? {
          return;
        }
      }
      var name := c.profiles[idx].name;
      var attempt := if name in retry then retry[name].attempt else 1;
      SetConnecting(name, env.now, attempt);
      workers := workers + multiset{name};
    }

    method FinishDisconnect(env: Env, name: ProfileId)
      modifies this
      ensures Valid() && Contents() == CompleteDisconnect(c, env, old(Contents()), name)
    {
      scannerRx := None;
      SetDisconnected(name);
      if pending.Some? {
        var idx := pending.value;
        pending := None;
        Connect(env, idx, false);
      }
    }

    method DisconnectNamed(env: Env, name: ProfileId)
      requires Valid()
      modifies this
      ensures Valid() && Contents() == DisconnectSpecific(c, env, old(Contents()), name)
    {
      retry := retry - {name};
      scannerRx := None;
      if Position(c.profiles, name).Some? {
        SetDisconnecting(env, name);
      }
    }

    method DisconnectActive(env: Env) returns (ghost view: View)
      requires Valid()
      modifies this
      ensures ViewShows(old(registry), old(primary), view)
      ensures Valid() && Contents() == DisconnectCurrent(c, env, old(Contents()), view)
    {
      var shown := LegacyState();
      view := shown;
      if !shown.ViewDisconnected? {
        DisconnectNamed(env, shown.profile);
      }
    }

    /** The disconnect key: a first press asks for a teardown, a second one restarts its clock. */
    method DisconnectOrForceActive(env: Env) returns (ghost view: View)
      requires Valid()
      modifies this
      ensures ViewShows(old(registry), old(primary), view)
      ensures Valid() && Contents() == RunCommand(c, env, old(Contents()), view, DisconnectOrForce)
    {
      var shown := LegacyState();
      view := shown;
      if shown.ViewDisconnecting? {
        scannerRx := None;
        if Position(c.profiles, shown.profile).Some? {
          SetDisconnecting(env, shown.profile);
        }
      } else if !shown.ViewDisconnected? {
        DisconnectNamed(env, shown.profile);
      }
    }

    method DisconnectAllActive(env: Env) returns (ghost names: seq<ProfileId>)
      requires Valid()
      modifies this
      ensures forall id :: id in names <==> id in old(registry) && !old(registry)[id].Disconnected?
      ensures Valid() && Contents() == DisconnectAll(c, env, old(Contents()), names)
    {
      var order := SnapshotAll();
      var active: seq<ProfileId> := [];
      for i := 0 to |order|
        invariant forall id :: id in active <==> exists j :: 0 <= j < i && order[j] == id && !registry[id].Disconnected?
      {
        if !registry[order[i]].Disconnected? {
          active := active + [order[i]];
        }
      }
      names := active;
      for i := 0 to |active|
        invariant Valid()
        invariant DisconnectAll(c, env, old(Contents()), active) == DisconnectAll(c, env, Contents(), active[i..])
      {
        DisconnectNamed(env, active[i]);
        assert active[i..][1..] == active[i + 1..];
      }
    }

    // -------------------------------------------------------------------- the scan tick

    method ScannerForceDisconnect(name: ProfileId)
      modifies this
      ensures Valid() && Contents() == ForceCleanup(old(Contents()), name)
    {
      pending := None;
      SetDisconnected(name);
    }

    method ScannerHandleDrop(name: ProfileId, wasConnected: bool)
      modifies this
      ensures Valid() && Contents() == HandleDrop(c, old(Contents()), name, wasConnected)
    {
      if wasConnected {
        drops := drops + 1;
      }
      SetDisconnected(name);
      if wasConnected && c.autoReconnect {
        var at := Position(c.profiles, name);
        if at.Some? {
          retry := retry[name := RetryState(1, at.value, true)];
          scheduled := scheduled + multiset{Timer(at.value, 1, c.autoReconnectDelay)};
        }
      }
    }

    /** Metadata only, and only on an entry that is Connected now, whatever it was when the tick began. */
    method ScannerRefreshConnected(name: ProfileId, session: Session)
      requires Valid()
      modifies `registry, `primary
      ensures Valid() && Contents() == RefreshConnected(c, old(Contents()), name, session)
    {
      if Position(c.profiles, name).None? || name !in registry {
        return;
      }
      match registry[name]
      case Connected(since, details) =>
        SetConnection(name, Connected(since, Details(details.interface, details.authoritative, session.metadata)));
      case _ =>
    }

    method ScannerAdopt(env: Env, session: Session)
      modifies `registry, `primary
      ensures Valid()
      ensures Contents() == old(Contents()).(registry := old(registry)[session.name := ConnectedFrom(env, session)])
    {
      SetConnection(session.name,
                    Connected(session.startedAt.GetOr(env.now), Details(session.interface, session.authoritative, session.metadata)));
    }

    method ReconcileOne(env: Env, name: ProfileId, snap: Connection, seen: Option<Session>)
      requires Valid()
      modifies this
      ensures Valid() && Contents() == ScanArm(c, env, old(Contents()), name, snap, seen)
    {
      match (snap, seen)
      case (Disconnecting(_), None) => FinishDisconnect(env, name);
      case (Disconnecting(startedAt), Some(_)) =>
        var elapsed := if startedAt <= env.now then env.now - startedAt else 0;
        if elapsed >= c.disconnectTimeout {
          ScannerForceDisconnect(name);
        }
      case (Connecting(_, _), _) =>
      case (Connected(_, _), Some(session)) => ScannerRefreshConnected(name, session);
      case (Connected(_, _), None) => ScannerHandleDrop(name, true);
      case (Disconnected(_), _) =>
      case (_, Some(session)) => ScannerRefreshConnected(name, session);
      case (_, None) => ScannerHandleDrop(name, false);
    }

    method ReconcileEntries(env: Env, order: seq<ProfileId>, sessions: seq<Session>) returns (handled: set<ProfileId>)
      requires Valid() && forall id :: id in order ==> id in registry
      modifies this
      ensures Valid() && handled == set id | id in order
      ensures Contents() == ReconcileAll(c, env, old(Contents()), old(registry), order, sessions)
    {
      var snaps := registry;
      ghost var before := Contents();
      handled := {};
      for i := 0 to |order|
        invariant Valid() && handled == set id | id in order[..i]
        invariant Contents() == ReconcileAll(c, env, before, snaps, order[..i], sessions)
      {
        handled := handled + {order[i]};
        ReconcileOne(env, order[i], snaps[order[i]], FirstNamed(sessions, order[i]));
        assert order[..i + 1] == order[..i] + [order[i]];
        assert order[..i + 1][..i] == order[..i];
      }
      assert order[..|order|] == order;
    }

    method AdoptSessions(env: Env, handled: set<ProfileId>, sessions: seq<Session>)
      requires Valid()
      modifies this
      ensures Valid() && Contents() == AdoptAll(c, env, old(Contents()), handled, sessions)
    {
      ghost var before := Contents();
      for i := 0 to |sessions|
        invariant Valid() && Contents() == AdoptAll(c, env, before, handled, sessions[..i])
      {
        if sessions[i].name !in handled && Position(c.profiles, sessions[i].name).Some? {
          ScannerAdopt(env, sessions[i]);
        }
        assert sessions[..i + 1][..i] == sessions[..i];
      }
      assert sessions[..|sessions|] == sessions;
    }

    /**
     * Reconcile every entry with the scan, then adopt the sessions no entry accounts for. Unless a
     * queued connect fires on the way, the outcome is the pointwise function of the old state.
     */
    method SyncSystemState(env: Env, sessions: seq<Session>) returns (ghost walked: seq<ProfileId>)
      requires Valid()
      modifies this
      ensures Valid()
      ensures Enumerates(walked, old(registry)) && Sorted(walked)
      ensures Contents() == ScanTick(c, env, old(Contents()), walked, sessions)
      ensures Contents() == PointwiseTick(c, env, old(Contents()), sessions) <==> !QueueFires(c, env, old(Contents()), walked, sessions)
    {
      ghost var before := Contents();
      var order := SnapshotAll();
      walked := order;
      var handled := ReconcileEntries(env, order, sessions);
      assert handled == before.registry.Keys;
      AdoptSessions(env, handled, sessions);
      TickIsPointwiseIff(c, env, before, order, sessions);
    }

    // -------------------------------------------------------------------- results, timers, the network

    method ConnectSucceeds(env: Env, name: ProfileId, interface: Option<string>, pid: Option<nat>)
      requires Valid()
      modifies this
      ensures Valid() && Contents() == ConnectSucceeded(c, env, old(Contents()), name, interface, pid)
    {
      retry := retry - {name};
      if Position(c.profiles, name).Some? {
        SetConnection(name, Connected(env.now, Details(interface.GetOr(""), true, EMPTY_METADATA.(pid := pid))));
      }
      lastConnected := Some(name);
    }

    /** Mark the failure, then either put the next attempt to sleep or give up on the profile and the queue. */
    method ConnectFails(name: ProfileId, error: Option<string>)
      requires Valid()
      modifies this
      ensures Valid() && Contents() == ConnectFailed(c, old(Contents()), name, error)
    {
      hide Backoff.RetryDelay, Elected, Position;
      var at := Position(c.profiles, name);
      var attempt := if name in retry then retry[name].attempt else 0;
      var auto := name in retry && retry[name].autoReconnect;
      if at.Some? {
        SetConnection(name, Disconnected(Some(error.GetOr("unknown error"))));
      }
      if at.Some? && c.maxRetries > 0 && attempt < c.maxRetries && pending.None? {
        var delay := Backoff.RetryDelay(c.retryBaseDelay, c.retryMaxDelay, attempt + 1);
        assert FailureTimer(c, old(Contents()), name) == Some(Timer(at.value, attempt + 1, delay));
        retry := retry[name := RetryState(attempt + 1, at.value, auto)];
        scheduled := scheduled + multiset{Timer(at.value, attempt + 1, delay)};
      } else {
        retry := retry - {name};
        pending := None;
      }
    }

    /** A result is stale unless this very profile is still coming up or up. */
    method HandleConnectResult(env: Env, name: ProfileId, success: bool, error: Option<string>, interface: Option<string>, pid: Option<nat>)
      requires Valid()
      modifies this
      ensures Valid()
      ensures Contents() == Step(c, old(Contents()), ConnectResult(env, name, success, error, interface, pid))
      ensures success && name in old(registry) && (old(registry)[name].Connecting? || old(registry)[name].Connected?) ==>
                name !in retry && lastConnected == Some(name)
    {
      if !(name in registry && (registry[name].Connecting? || registry[name].Connected?)) {
        return;
      }
      if success {
        ConnectSucceeds(env, name, interface, pid);
      } else {
        ConnectFails(name, error);
      }
    }

    method HandleRetryConnect(env: Env, idx: nat, attempt: nat)
      requires Valid()
      modifies this
      ensures Valid() && Contents() == RetryConnect(c, env, old(Contents()), idx, attempt)
    {
      if idx >= |c.profiles| || c.profiles[idx].name !in retry {
        return;
      }
      var name := c.profiles[idx].name;
      if retry[name].profileIdx != idx || retry[name].attempt != attempt {
        return;
      }
      var active := ActiveTunnelCount();
      ActiveCounts(registry);
      if active > 0 {
        retry := retry - {name};
        return;
      }
      Connect(env, idx, false);
    }

    /** The retry entries, each once, in some order; `names` says whose. */
    method RetryEntries() returns (entries: seq<RetryState>, ghost names: seq<ProfileId>)
      ensures Outcomes.ListsTable(entries, names, retry)
    {
      entries, names := [], [];
      var rest := retry.Keys;
      while rest != {}
        invariant rest <= retry.Keys && |entries| == |names|
        invariant forall id :: id in names <==> id in retry && id !in rest
        invariant forall i, j :: 0 <= i < j < |names| ==> names[i] != names[j]
        invariant forall i :: 0 <= i < |names| ==> names[i] in retry && entries[i] == retry[names[i]]
        decreases rest
      {
        var id :| id in rest;
        entries, names := entries + [retry[id]], names + [id];
        rest := rest - {id};
      }
    }

    method HandleNetworkChanged() returns (ghost view: View, ghost entries: seq<RetryState>, ghost names: seq<ProfileId>)
      requires Valid()
      modifies this
      ensures ViewShows(old(registry), old(primary), view)
      ensures Outcomes.ListsTable(entries, names, old(retry))
      ensures Valid() && Contents() == NetworkChanged(c, old(Contents()), view, entries)
    {
      var shown := LegacyState();
      var armed, whose := RetryEntries();
      view, entries, names := shown, armed, whose;
      if !shown.ViewDisconnected? || !c.autoReconnect {
        return;
      }
      ghost var before := Contents();
      for i := 0 to |armed|
        invariant Valid() && registry == old(registry) && primary == old(primary)
        invariant Contents() == RearmAll(c, before, armed[..i])
      {
        var idx := armed[i].profileIdx;
        if armed[i].autoReconnect && idx < |c.profiles| {
          scheduled := scheduled + multiset{Timer(idx, 1, c.autoReconnectDelay)};
          retry := retry[c.profiles[idx].name := RetryState(1, idx, true)];
        }
        assert armed[..i + 1][..i] == armed[..i];
      }
      assert armed[..|armed|] == armed;
    }

    method HandleConnectionTimeout(name: ProfileId)
      modifies this
      ensures Valid() && Contents() == ConnectionTimeout(old(Contents()), name)
    {
      pending := None;
      retry := retry - {name};
      SetDisconnected(name);
    }

    // -------------------------------------------------------------------- user commands

    method ToggleConnect(env: Env, idx: nat) returns (ghost view: View)
      requires Valid()
      modifies this
      ensures ViewShows(old(registry), old(primary), view)
      ensures Valid() && Contents() == ToggleConnection(c, env, old(Contents()), view, idx)
    {
      var shown := LegacyState();
      view := shown;
      ToggleUnder(env, shown, idx);
    }

    method ToggleUnder(env: Env, view: View, idx: nat)
      requires Valid()
      modifies this
      ensures Valid() && Contents() == ToggleConnection(c, env, old(Contents()), view, idx)
    {
      if idx >= |c.profiles| {
        return;
      }
      var name := c.profiles[idx].name;
      retry := retry - {name};
      if name in registry {
        if registry[name].Connected? {
          DisconnectNamed(env, name);
          return;
        }
        if registry[name].Connecting? {
          return;
        }
      }
      match view
      case ViewConnecting(_) =>
      case ViewDisconnecting(_) => pending := Some(idx);
      case ViewConnected(current) =>
        if current == name {
          pending := None;
          DisconnectNamed(env, current);
        }
      case ViewDisconnected => Connect(env, idx, false);
    }

    method ReconnectActive(env: Env) returns (ghost view: View)
      requires Valid()
      modifies this
      ensures ViewShows(old(registry), old(primary), view)
      ensures Valid() && Contents() == Reconnect(c, env, old(Contents()), view)
    {
      var shown := LegacyState();
      view := shown;
      match shown
      case ViewConnected(current) =>
        var at := Position(c.profiles, current);
        if at.Some? {
          pending := at;
          DisconnectNamed(env, current);
        }
      case ViewDisconnected =>
        if lastConnected.Some? {
          var at := Position(c.profiles, lastConnected.value);
          if at.Some? {
            Connect(env, at.value, false);
          }
        }
      case _ =>
    }

    method SwitchExclusiveTo(env: Env, idx: nat) returns (ghost view: View)
      requires Valid()
      modifies this
      ensures ViewShows(old(registry), old(primary), view)
      ensures Valid() && Contents() == RunCommand(c, env, old(Contents()), view, SwitchExclusive(idx))
    {
      pending := Some(idx);
      view := DisconnectActive(env);
    }

    method DisconnectProfileByIdx(env: Env, idx: nat)
      requires Valid()
      modifies this
      ensures Valid() && Contents() == DisconnectProfile(c, env, old(Contents()), idx)
    {
      if idx < |c.profiles| && c.profiles[idx].name in registry && !registry[c.profiles[idx].name].Disconnected? {
        DisconnectNamed(env, c.profiles[idx].name);
      }
    }

    method ConnectSelectedRow(env: Env, idx: nat) returns (ghost view: View)
      requires Valid()
      modifies this
      ensures ViewShows(old(registry), old(primary), view)
      ensures Valid() && Contents() == ConnectSelected(c, env, old(Contents()), view, idx)
    {
      var shown := LegacyState();
      view := shown;
      if idx < |c.profiles| {
        if shown == ViewConnected(c.profiles[idx].name) {
          pending := Some(idx);
          DisconnectNamed(env, shown.profile);
        } else {
          ToggleUnder(env, shown, idx);
        }
      }
    }

    // -------------------------------------------------------------------- the scanner channel

    /** Start a scan thread and listen to it alone. */
    method StartScan()
      requires Valid()
      modifies `scannerRx, `scansStarted
      ensures Valid() && Contents() == SpawnScan(old(Contents()))
    {
      scannerRx := Some(scansStarted);
      scansStarted := scansStarted + 1;
    }

    method Poll(env: Env, recv: Recv, route: Option<string>) returns (ghost walked: seq<ProfileId>)
      requires Valid()
      modifies this
      ensures Valid() && Enumerates(walked, old(registry)) && Sorted(walked)
      ensures Contents() == PollScanner(c, env, old(Contents()), recv, walked)
    {
      var order := SnapshotAll();
      walked := order;
      if scannerRx.Some? {
        match recv
        case Empty => return;
        case Closed => scannerRx := None;
        case Ready(sessions) =>
          scannerRx := None;
          FeedDefaultRoute(route);
          walked := SyncSystemState(env, sessions);
      }
      StartScan();
    }

    // -------------------------------------------------------------------- the dispatcher

    method ConnectForced(env: Env, idx: nat, dropQueue: bool)
      requires Valid()
      modifies this
      ensures Valid() && forall view :: Contents() == RunCommand(c, env, old(Contents()), view, ForceConnect(idx, dropQueue))
    {
      if dropQueue {
        pending := None;
      }
      Connect(env, idx, true);
    }

    /** Asking to disconnect everything opens an overlay when there is more than one tunnel to disconnect. */
    method RequestDisconnectAll(env: Env) returns (ghost names: seq<ProfileId>)
      requires Valid()
      modifies this
      ensures |old(Active(registry))| > 1 ==> names == []
      ensures |old(Active(registry))| <= 1 ==> forall id :: id in names <==> id in old(Active(registry))
      ensures Valid() && Contents() == DisconnectAll(c, env, old(Contents()), names)
    {
      var count := ActiveTunnelCount();
      names := [];
      if count <= 1 {
        names := DisconnectAllActive(env);
      }
    }

    /** One message. The event says what the handler read of the world besides the message. */
    method HandleMessage(env: Env, m: Message) returns (ghost e: Event)
      requires Valid()
      modifies this
      ensures Valid() && Answers(env, m, e) && Wellformed(old(Contents()), e)
      ensures Reads(old(Contents()), old(primary), e)
      ensures Contents() == Step(c, old(Contents()), e)
    {
      match m
      case SyncSystemState(sessions, route) =>
        FeedDefaultRoute(route);
        ghost var walked := SyncSystemState(env, sessions);
        e := Scan(env, walked, sessions);
      case PollTick(recv, route) =>
        ghost var walked := Poll(env, recv, route);
        e := Event.Poll(env, recv, walked);
      case WorkerConnected(name, success, error, interface, pid) =>
        HandleConnectResult(env, name, success, error, interface, pid);
        e := ConnectResult(env, name, success, error, interface, pid);
      case WorkerDisconnected(name, success) =>
        e := DisconnectResult(name, success);
      case RetryTimer(timer) =>
        HandleRetryConnect(env, timer.idx, timer.attempt);
        e := TimerFires(env, timer);
      case GatewayChanged =>
        ghost var view, entries, names := HandleNetworkChanged();
        e := NetworkChange(view, entries);
      case ConnectionTimedOut(name) =>
        HandleConnectionTimeout(name);
        e := Timeout(name);
      case UserAsks(request) =>
        e := HandleRequest(env, request);
    }

    method HandleRequest(env: Env, request: Request) returns (ghost e: Event)
      requires Valid()
      modifies this
      ensures Valid() && e.User? && e.env == env && Asks(request, e.command) && Reads(old(Contents()), old(primary), e)
      ensures Contents() == Step(c, old(Contents()), e)
    {
      hide RunCommand, ViewShows;
      ghost var view, command;
      if request.ToggleRow? || request.ConnectRow? || request.SwitchAsked? || request.ReconnectAsked? || request.DisconnectShown? {
        view, command := HandleShown(env, request);
      } else {
        view := SomeView(registry, primary);
        command := HandleNamed(env, request, view);
      }
      e := User(env, view, command);
    }

    /** The requests that go by what the single-tunnel view shows. */
    method HandleShown(env: Env, request: Request) returns (ghost view: View, ghost command: Command)
      requires Valid()
      requires request.ToggleRow? || request.ConnectRow? || request.SwitchAsked? || request.ReconnectAsked? || request.DisconnectShown?
      modifies this
      ensures Valid() && Asks(request, command) && ViewShows(old(registry), old(primary), view)
      ensures Contents() == RunCommand(c, env, old(Contents()), view, command)
    {
      hide ToggleConnection, DisconnectCurrent, ForceDisconnect, Reconnect, ConnectSelected, ViewShows;
      match request
      case ToggleRow(idx) =>
        view := ToggleConnect(env, idx);
        command := Toggle(idx);
      case ConnectRow(idx) =>
        view := ConnectSelectedRow(env, idx);
        command := Selected(idx);
      case SwitchAsked(idx) =>
        view := SwitchExclusiveTo(env, idx);
        command := SwitchExclusive(idx);
      case ReconnectAsked =>
        view := ReconnectActive(env);
        command := ReconnectLast;
      case DisconnectShown =>
        view := DisconnectOrForceActive(env);
        command := DisconnectOrForce;
    }

    /** The requests that name their tunnels themselves. */
    method HandleNamed(env: Env, request: Request, ghost view: View) returns (ghost command: Command)
      requires Valid()
      requires !(request.ToggleRow? || request.ConnectRow? || request.SwitchAsked? || request.ReconnectAsked? || request.DisconnectShown?)
      modifies this
      ensures Valid() && Asks(request, command)
      ensures Contents() == RunCommand(c, env, old(Contents()), view, command)
    {
      hide DisconnectAll, ConnectProfile, DisconnectProfile;
      match request
      case DisconnectRow(idx) =>
        DisconnectProfileByIdx(env, idx);
        command := DisconnectOne(idx);
      case DisconnectAllAsked =>
        ghost var names := RequestDisconnectAll(env);
        command := DisconnectEvery(names);
      case DisconnectAllConfirmed =>
        ghost var names := DisconnectAllActive(env);
        command := DisconnectEvery(names);
      case TakeoverConfirmed(idx) =>
        ConnectForced(env, idx, true);
        command := ForceConnect(idx, true);
      case OverlapConfirmed(idx) =>
        ConnectForced(env, idx, false);
        command := ForceConnect(idx, false);
      case Authenticated(idx) =>
        Connect(env, idx, false);
        command := ConnectAfterAuth(idx);
    }

    /** Any sequence of messages is a run of the machine. */
    method HandleAll(inputs: seq<(Env, Message)>) returns (ghost states: seq<State>, ghost events: seq<Event>)
      requires Valid()
      modifies this
      ensures Valid() && IsRun(c, states, events) && |events| == |inputs|
      ensures states[0] == old(Contents()) && states[|events|] == Contents()
      ensures forall i :: 0 <= i < |inputs| ==> Answers(inputs[i].0, inputs[i].1, events[i])
    {
      states, events := [Contents()], [];
      for i := 0 to |inputs|
        invariant Valid() && IsRun(c, states, events) && |events| == i
        invariant states[0] == old(Contents()) && states[i] == Contents()
        invariant forall j :: 0 <= j < i ==> Answers(inputs[j].0, inputs[j].1, events[j])
      {
        ghost var e := HandleMessage(inputs[i].0, inputs[i].1);
        ExtendRun(c, states, events, e);
        states, events := states + [Contents()], events + [e];
      }
    }
  }

  /**
   * The theorems hold of the object: from its construction, whatever messages it handles, its interfaces
   * come from the protocol layer or from adoptions, its retry entries stay within the budget, and its
   * counters balance with the tunnels it shows.
   */
  method RunFresh(config: Config, inputs: seq<(Env, Message)>) returns (app: App, ghost states: seq<State>, ghost events: seq<Event>)
    ensures fresh(app) && app.Valid() && app.c == config
    ensures IsRun(config, states, events) && |events| == |inputs| && states[|events|] == app.Contents()
    ensures forall i :: 0 <= i < |inputs| ==> Answers(inputs[i].0, inputs[i].1, events[i])
    ensures Inv(config, app.Contents())
    ensures InterfacesFrom(app.registry, History(config, states, events, |events|))
    ensures EnteredTotal(states, |events|)
         == |ConnectedIds(app.registry)| + app.drops + OtherExits(config, states, events, |events|)
  {
    app := new App(config);
    states, events := app.HandleAll(inputs);
    RunKeepsInv(config, states, events, |events|);
    InterfaceAuthority(config, states, events, |events|);
    ConnectionsConserved(config, states, events, |events|);
    assert ConnectedIds(states[0].registry) == {};
  }

  // ---------------------------------------------------------------------- messages

  /** The user's requests, as the dispatcher receives them. */
  datatype Request =
    | ToggleRow(idx: nat)
    | DisconnectRow(idx: nat)
    | DisconnectShown
    | DisconnectAllAsked
    | DisconnectAllConfirmed
    | ReconnectAsked
    | SwitchAsked(idx: nat)
    | TakeoverConfirmed(idx: nat)
    | OverlapConfirmed(idx: nat)
    | Authenticated(idx: nat)
    | ConnectRow(idx: nat)

  datatype Message =
    | SyncSystemState(sessions: seq<Session>, route: Option<string>)
    | PollTick(recv: Recv, route: Option<string>)
    | WorkerConnected(profile: ProfileId, success: bool, error: Option<string>, interface: Option<string>, pid: Option<nat>)
    | WorkerDisconnected(profile: ProfileId, success: bool)
    | RetryTimer(timer: Timer)
    | GatewayChanged
    | ConnectionTimedOut(profile: ProfileId)
    | UserAsks(request: Request)

  predicate Asks(request: Request, command: Command) {
    match request
    case ToggleRow(idx) => command == Toggle(idx)
    case DisconnectRow(idx) => command == DisconnectOne(idx)
    case DisconnectShown => command == DisconnectOrForce
    case DisconnectAllAsked => command.DisconnectEvery?
    case DisconnectAllConfirmed => command.DisconnectEvery?
    case ReconnectAsked => command == ReconnectLast
    case SwitchAsked(idx) => command == SwitchExclusive(idx)
    case TakeoverConfirmed(idx) => command == ForceConnect(idx, true)
    case OverlapConfirmed(idx) => command == ForceConnect(idx, false)
    case Authenticated(idx) => command == ConnectAfterAuth(idx)
    case ConnectRow(idx) => command == Selected(idx)
  }

  /** The event is the message, with what its handler read of the world. */
  predicate Answers(env: Env, m: Message, e: Event) {
    match m
    case SyncSystemState(sessions, _) => e.Scan? && e.env == env && e.sessions == sessions
    case PollTick(recv, _) => e.Poll? && e.env == env && e.recv == recv
    case WorkerConnected(name, success, error, interface, pid) => e == ConnectResult(env, name, success, error, interface, pid)
    case WorkerDisconnected(name, success) => e == DisconnectResult(name, success)
    case RetryTimer(timer) => e == TimerFires(env, timer)
    case GatewayChanged => e.NetworkChange?
    case ConnectionTimedOut(name) => e == Timeout(name)
    case UserAsks(request) => e.User? && e.env == env && Asks(request, e.command)
  }

  /** The view the handler went by is the one the registry shows, and the retry table was read entry by entry. */
  ghost predicate Reads(s: State, primary: Option<ProfileId>, e: Event) {
    && (e.User? || e.NetworkChange? ==> ViewShows(s.registry, primary, e.view))
    && (e.NetworkChange? ==> exists names :: Outcomes.ListsTable(e.entries, names, s.retry))
  }

  /** What a view says is true of the tunnel it names. */
  predicate Tells(registry: Registry, view: View) {
    match view
    case ViewDisconnected => forall id :: id in registry ==> registry[id].Disconnected?
    case ViewConnected(id) => id in registry && registry[id].Connected?
    case ViewDisconnecting(id) => id in registry && registry[id].Disconnecting?
    case ViewConnecting(id) =>
      id in registry && (registry[id].Connecting? || registry[id].Reconnecting? || registry[id].AwaitingUserInput?)
  }

  /** The view shows something exactly when something is active, says the truth, and prefers the primary. */
  lemma ViewTells(registry: Registry, primary: Option<ProfileId>, view: View)
    requires ViewShows(registry, primary, view)
    requires primary.Some? ==> primary.value in registry && (registry[primary.value].Connected? || registry[primary.value].Connecting?)
    ensures Tells(registry, view)
    ensures !view.ViewDisconnected? ==>
              view.profile in registry && if primary.Some? then view.profile == primary.value else FirstActive(registry, view.profile)
  {
    assert Active(registry) == {} <==> forall id :: id in registry ==> registry[id].Disconnected? by {
      if Active(registry) == {} {
        forall id | id in registry ensures registry[id].Disconnected? {
          assert id !in Active(registry);
        }
      }
    }
  }

  ghost function SomeView(registry: Registry, primary: Option<ProfileId>): (view: View)
    ensures ViewShows(registry, primary, view)
  {
    if primary.Some? && primary.value in registry then ViewOf(primary.value, registry[primary.value])
    else if Active(registry) != {} then
      var id := FirstOf(registry, Active(registry));
      ViewOf(id, registry[id])
    else ViewDisconnected
  }

  /** The first by name of some active tunnels. */
  ghost function FirstOf(registry: Registry, ids: set<ProfileId>): (id: ProfileId)
    requires ids != {} && ids <= Active(registry)
    ensures id in ids && forall other :: other in ids ==> Le(id, other)
  {
    var one :| one in ids;
    LeTotal(one, one);
    if ids == {one} then one
    else
      var first := FirstOf(registry, ids - {one});
      LeTotal(one, first);
      if Le(one, first) then
        FirstOverall(one, first, ids);
        one
      else first
  }

  lemma FirstOverall(one: ProfileId, first: ProfileId, ids: set<ProfileId>)
    requires Le(one, one) && Le(one, first) && forall other :: other in ids - {one} ==> Le(first, other)
    ensures forall other :: other in ids ==> Le(one, other)
  {
    forall other | other in ids ensures Le(one, other) {
      if other != one {
        LeTransitive(one, first, other);
      }
    }
  }

  /** The order of the walk is decided by the names, so a tick of the object is a function of its state. */
  lemma OneWalk(registry: Registry, order: seq<ProfileId>, other: seq<ProfileId>)
    requires Enumerates(order, registry) && Sorted(order) && Enumerates(other, registry) && Sorted(other)
    ensures order == other
  {
    OneSortedListing(order, other);
  }

  lemma ExtendRun(c: Config, states: seq<State>, events: seq<Event>, e: Event)
    requires IsRun(c, states, events) && Wellformed(states[|events|], e)
    ensures IsRun(c, states + [Step(c, states[|events|], e)], events + [e])
  {
    var more, all := states + [Step(c, states[|events|], e)], events + [e];
    forall i | 0 <= i < |all| ensures Wellformed(more[i], all[i]) && more[i + 1] == Step(c, more[i], all[i]) {
      if i < |events| {
        StepOfRun(c, states, events, i);
        assert all[i] == events[i];
      }
    }
  }
}
