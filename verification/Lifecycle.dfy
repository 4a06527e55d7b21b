/**
 * The multi-tunnel lifecycle as a value: the registry of tunnels, the retry table and the
 * handlers that rewrite them. Class `App` (App.dfy) carries the same handlers out in place
 * and is proved to compute these functions; the theorems are about the functions.
 */
module Lifecycle {
  import opened Wrappers
  import Backoff

  type ProfileId = string

  /** Kernel facts a scan may refresh: everything in a tunnel's details except its interface. */
  datatype Metadata = Metadata(
    internalIp: string, endpoint: string, mtu: string, publicKey: string, listenPort: string,
    transferRx: string, transferTx: string, latestHandshake: string, pid: Option<nat>)

  datatype Details = Details(interface: string, authoritative: bool, metadata: Metadata)

  datatype Connection =
    | Disconnected(lastFailure: Option<string>)
    | Connecting(startedAt: nat, attempt: nat)
    | Connected(since: nat, details: Details)
    | Reconnecting(startedAt: nat)
    | Disconnecting(startedAt: nat)
    | AwaitingUserInput(since: nat)

  /** One tunnel the background scan saw in the kernel. */
  datatype Session = Session(
    name: ProfileId, startedAt: Option<nat>, interface: string, authoritative: bool, metadata: Metadata)

  datatype Profile = Profile(name: ProfileId, claimsDefaultRoute: bool)

  datatype RetryState = RetryState(attempt: nat, profileIdx: nat, autoReconnect: bool)

  /** A sleeping thread that will send `RetryConnect { idx, attempt }` after `delay` seconds. */
  datatype Timer = Timer(idx: nat, attempt: nat, delay: nat)

  datatype Config = Config(
    profiles: seq<Profile>, disconnectTimeout: nat, maxRetries: nat, retryBaseDelay: nat,
    retryMaxDelay: nat, autoReconnect: bool, autoReconnectDelay: nat)

  /** The clock, and the profiles whose dependency, root and credential gates pass right now. */
  datatype Env = Env(now: nat, ready: set<ProfileId>)

  /** The single-tunnel view of the registry that the older code paths consult. */
  datatype View =
    | ViewDisconnected
    | ViewConnecting(profile: ProfileId)
    | ViewConnected(profile: ProfileId)
    | ViewDisconnecting(profile: ProfileId)

  type Registry = map<ProfileId, Connection>

  datatype State = State(
    registry: Registry,
    retry: map<ProfileId, RetryState>,
    pending: Option<nat>,
    drops: nat,
    lastConnected: Option<ProfileId>,
    /** The scan thread whose channel is held; its result is the only one that can be received. */
    scannerRx: Option<nat>,
    scansStarted: nat,
    /** Every retry timer and every connect worker ever spawned. */
    scheduled: multiset<Timer>,
    workers: multiset<ProfileId>)

  const EMPTY_METADATA := Metadata("", "", "", "", "", "", "", "", None)

  const INITIAL := State(map[], map[], None, 0, None, None, 0, multiset{}, multiset{})

  // ---------------------------------------------------------------------- lookups

  /** Index of the first profile with that name. */
  function Position(profiles: seq<Profile>, name: ProfileId): (r: Option<nat>)
    ensures r.Some? ==> r.value < |profiles| && profiles[r.value].name == name
    ensures r.Some? ==> forall j :: 0 <= j < r.value ==> profiles[j].name != name
    ensures r.None? ==> forall j :: 0 <= j < |profiles| ==> profiles[j].name != name
  {
    if profiles == [] then None
    else if profiles[0].name == name then Some(0)
    else
      match Position(profiles[1..], name)
      case None => None
      case Some(i) => Some(i + 1)
  }

  predicate InCatalog(c: Config, name: ProfileId) {
    Position(c.profiles, name).Some?
  }

  predicate ClaimsDefaultRoute(c: Config, name: ProfileId) {
    var at := Position(c.profiles, name);
    at.Some? && c.profiles[at.value].claimsDefaultRoute
  }

  function FirstNamed(sessions: seq<Session>, name: ProfileId): (r: Option<Session>)
    ensures r.Some? ==> r.value in sessions && r.value.name == name
    ensures r.None? ==> forall x :: x in sessions ==> x.name != name
  {
    if sessions == [] then None
    else if sessions[0].name == name then Some(sessions[0])
    else FirstNamed(sessions[1..], name)
  }

  // ---------------------------------------------------------------------- registry writers

  function ConnectedFrom(env: Env, session: Session): Connection {
    Connected(session.startedAt.GetOr(env.now),
              Details(session.interface, session.authoritative, session.metadata))
  }

  /** A scan refresh keeps the interface and its authority and takes the rest from the session. */
  function Refreshed(old_: Connection, session: Session): Connection
    requires old_.Connected?
  {
    old_.(details := old_.details.(metadata := session.metadata))
  }

  // ---------------------------------------------------------------------- connect

  /** Another tunnel that is up or coming up already claims the default route. */
  predicate Conflicts(c: Config, registry: Registry, idx: nat)
    requires idx < |c.profiles|
  {
    c.profiles[idx].claimsDefaultRoute &&
    exists other :: other in registry && other != c.profiles[idx].name && ClaimsDefaultRoute(c, other) &&
      (registry[other].Connected? || registry[other].Connecting?)
  }

  predicate ConnectAllowed(c: Config, env: Env, s: State, idx: nat, force: bool) {
    idx < |c.profiles| && c.profiles[idx].name in env.ready && (force || !Conflicts(c, s.registry, idx))
  }

  function RetryAttempt(s: State, name: ProfileId, default: nat): nat {
    if name in s.retry then s.retry[name].attempt else default
  }

  function StartConnect(env: Env, s: State, name: ProfileId): State {
    s.(registry := s.registry[name := Connecting(env.now, RetryAttempt(s, name, 1))],
       workers := s.workers + multiset{name})
  }

  function ConnectProfile(c: Config, env: Env, s: State, idx: nat, force: bool): State {
    if ConnectAllowed(c, env, s, idx, force) then StartConnect(env, s, c.profiles[idx].name) else s
  }

  // ---------------------------------------------------------------------- disconnect

  function CompleteDisconnect(c: Config, env: Env, s: State, name: ProfileId): State {
    var gone := s.(registry := s.registry - {name}, scannerRx := None, pending := None);
    if s.pending.Some? then ConnectProfile(c, env, gone, s.pending.value, false) else gone
  }

  function MarkDisconnecting(env: Env, s: State, name: ProfileId): State {
    if name in s.registry then s.(registry := s.registry[name := Disconnecting(env.now)]) else s
  }

  function DisconnectSpecific(c: Config, env: Env, s: State, name: ProfileId): State {
    var cleared := s.(retry := s.retry - {name}, scannerRx := None);
    if InCatalog(c, name) then MarkDisconnecting(env, cleared, name) else cleared
  }

  function DisconnectAll(c: Config, env: Env, s: State, names: seq<ProfileId>): State
    decreases |names|
  {
    if names == [] then s
    else DisconnectAll(c, env, DisconnectSpecific(c, env, s, names[0]), names[1..])
  }

  function ForceDisconnect(c: Config, env: Env, s: State, view: View): State {
    if view.ViewDisconnecting? then
      var cleared := s.(scannerRx := None);
      if InCatalog(c, view.profile) then MarkDisconnecting(env, cleared, view.profile) else cleared
    else s
  }

  function DisconnectCurrent(c: Config, env: Env, s: State, view: View): State {
    if view.ViewDisconnected? then s else DisconnectSpecific(c, env, s, view.profile)
  }

  // ---------------------------------------------------------------------- the scan tick

  predicate TimedOut(c: Config, env: Env, startedAt: nat) {
    (if startedAt <= env.now then env.now - startedAt else 0) >= c.disconnectTimeout
  }

  function ForceCleanup(s: State, name: ProfileId): State {
    s.(registry := s.registry - {name}, pending := None)
  }

  function HandleDrop(c: Config, s: State, name: ProfileId, wasConnected: bool): State {
    var gone := s.(registry := s.registry - {name}, drops := s.drops + if wasConnected then 1 else 0);
    var at := Position(c.profiles, name);
    if wasConnected && c.autoReconnect && at.Some? then
      gone.(retry := gone.retry[name := RetryState(1, at.value, true)],
            scheduled := gone.scheduled + multiset{Timer(at.value, 1, c.autoReconnectDelay)})
    else gone
  }

  function RefreshConnected(c: Config, s: State, name: ProfileId, session: Session): State {
    if InCatalog(c, name) && name in s.registry && s.registry[name].Connected? then
      s.(registry := s.registry[name := Refreshed(s.registry[name], session)])
    else s
  }

  /** One arm of the reconciliation loop. `snap` is the entry as it was when the tick began. */
  function ScanArm(c: Config, env: Env, s: State, name: ProfileId, snap: Connection, seen: Option<Session>): State {
    match (snap, seen)
    case (Disconnecting(_), None) => CompleteDisconnect(c, env, s, name)
    case (Disconnecting(startedAt), Some(_)) => if TimedOut(c, env, startedAt) then ForceCleanup(s, name) else s
    case (Connecting(_, _), _) => s
    case (Connected(_, _), Some(session)) => RefreshConnected(c, s, name, session)
    case (Connected(_, _), None) => HandleDrop(c, s, name, true)
    case (Disconnected(_), _) => s
    case (_, Some(session)) => RefreshConnected(c, s, name, session)
    case (_, None) => HandleDrop(c, s, name, false)
  }

  function ReconcileAll(c: Config, env: Env, s: State, snaps: Registry, order: seq<ProfileId>, sessions: seq<Session>): State
    requires forall id :: id in order ==> id in snaps
  {
    if order == [] then s
    else
      var last := |order| - 1;
      var before := ReconcileAll(c, env, s, snaps, order[..last], sessions);
      ScanArm(c, env, before, order[last], snaps[order[last]], FirstNamed(sessions, order[last]))
  }

  function Adopt(c: Config, env: Env, s: State, handled: set<ProfileId>, session: Session): State {
    if session.name !in handled && InCatalog(c, session.name) then
      s.(registry := s.registry[session.name := ConnectedFrom(env, session)])
    else s
  }

  function AdoptAll(c: Config, env: Env, s: State, handled: set<ProfileId>, sessions: seq<Session>): State {
    if sessions == [] then s
    else
      var last := |sessions| - 1;
      Adopt(c, env, AdoptAll(c, env, s, handled, sessions[..last]), handled, sessions[last])
  }

  /** `order` lists every key of the registry once. */
  ghost predicate Enumerates(order: seq<ProfileId>, registry: Registry) {
    (forall id :: id in order <==> id in registry) &&
    (forall i, j :: 0 <= i < j < |order| ==> order[i] != order[j])
  }

  function ScanTick(c: Config, env: Env, s: State, order: seq<ProfileId>, sessions: seq<Session>): State
    requires forall id :: id in order ==> id in s.registry
  {
    AdoptAll(c, env, ReconcileAll(c, env, s, s.registry, order, sessions), s.registry.Keys, sessions)
  }

  // ---------------------------------------------------------------------- worker results

  predicate ResultRelevant(s: State, name: ProfileId) {
    name in s.registry && (s.registry[name].Connecting? || s.registry[name].Connected?)
  }

  function ConnectSucceeded(c: Config, env: Env, s: State, name: ProfileId, interface: Option<string>, pid: Option<nat>): State {
    var up := Connected(env.now, Details(interface.GetOr(""), true, EMPTY_METADATA.(pid := pid)));
    s.(retry := s.retry - {name},
       registry := if InCatalog(c, name) then s.registry[name := up] else s.registry,
       lastConnected := Some(name))
  }

  /** The timer a failed connect puts to sleep, if the budget and the queue allow another attempt. */
  function FailureTimer(c: Config, s: State, name: ProfileId): Option<Timer> {
    var at := Position(c.profiles, name);
    var attempt := RetryAttempt(s, name, 0) + 1;
    if at.Some? && attempt <= c.maxRetries && s.pending.None? then
      Some(Timer(at.value, attempt, Backoff.RetryDelay(c.retryBaseDelay, c.retryMaxDelay, attempt)))
    else None
  }

  function ConnectFailed(c: Config, s: State, name: ProfileId, error: Option<string>): State {
    var failure := Disconnected(Some(error.GetOr("unknown error")));
    var failed := s.(registry := if InCatalog(c, name) then s.registry[name := failure] else s.registry);
    match FailureTimer(c, s, name)
    case Some(timer) =>
      var auto := name in s.retry && s.retry[name].autoReconnect;
      failed.(retry := failed.retry[name := RetryState(timer.attempt, timer.idx, auto)],
              scheduled := failed.scheduled + multiset{timer})
    case None =>
      failed.(retry := failed.retry - {name}, pending := None)
  }

  // ---------------------------------------------------------------------- timers and the network

  predicate RetryMatches(c: Config, s: State, idx: nat, attempt: nat) {
    idx < |c.profiles| && c.profiles[idx].name in s.retry &&
    s.retry[c.profiles[idx].name].profileIdx == idx && s.retry[c.profiles[idx].name].attempt == attempt
  }

  predicate AnyActive(registry: Registry) {
    exists id :: id in registry && !registry[id].Disconnected?
  }

  function RetryConnect(c: Config, env: Env, s: State, idx: nat, attempt: nat): State {
    if !RetryMatches(c, s, idx, attempt) then s
    else if AnyActive(s.registry) then s.(retry := s.retry - {c.profiles[idx].name})
    else ConnectProfile(c, env, s, idx, false)
  }

  function Rearm(c: Config, s: State, entry: RetryState): State {
    if entry.autoReconnect && entry.profileIdx < |c.profiles| then
      s.(retry := s.retry[c.profiles[entry.profileIdx].name := RetryState(1, entry.profileIdx, true)],
         scheduled := s.scheduled + multiset{Timer(entry.profileIdx, 1, c.autoReconnectDelay)})
    else s
  }

  function RearmAll(c: Config, s: State, entries: seq<RetryState>): State {
    if entries == [] then s
    else Rearm(c, RearmAll(c, s, entries[..|entries| - 1]), entries[|entries| - 1])
  }

  /** `entries` lists the values of the retry table as the hash map happens to yield them. */
  function NetworkChanged(c: Config, s: State, view: View, entries: seq<RetryState>): State {
    if view.ViewDisconnected? && c.autoReconnect then RearmAll(c, s, entries) else s
  }

  function ConnectionTimeout(s: State, name: ProfileId): State {
    s.(registry := s.registry - {name}, retry := s.retry - {name}, pending := None)
  }

  // ---------------------------------------------------------------------- user commands

  function ToggleConnection(c: Config, env: Env, s: State, view: View, idx: nat): State {
    if idx >= |c.profiles| then s
    else
      var name := c.profiles[idx].name;
      var t := s.(retry := s.retry - {name});
      if name in t.registry && t.registry[name].Connected? then DisconnectSpecific(c, env, t, name)
      else if name in t.registry && t.registry[name].Connecting? then t
      else
        match view
        case ViewConnecting(_) => t
        case ViewDisconnecting(_) => t.(pending := Some(idx))
        case ViewConnected(current) =>
          if current == name then DisconnectSpecific(c, env, t.(pending := None), current) else t
        case ViewDisconnected => ConnectProfile(c, env, t, idx, false)
  }

  function DisconnectProfile(c: Config, env: Env, s: State, idx: nat): State {
    if idx < |c.profiles| && c.profiles[idx].name in s.registry && !s.registry[c.profiles[idx].name].Disconnected? then
      DisconnectSpecific(c, env, s, c.profiles[idx].name)
    else s
  }

  function Reconnect(c: Config, env: Env, s: State, view: View): State {
    match view
    case ViewConnected(current) =>
      var at := Position(c.profiles, current);
      if at.Some? then DisconnectSpecific(c, env, s.(pending := at), current) else s
    case ViewDisconnected =>
      if s.lastConnected.Some? && InCatalog(c, s.lastConnected.value)
      then ConnectProfile(c, env, s, Position(c.profiles, s.lastConnected.value).value, false)
      else s
    case _ => s
  }

  function ConnectSelected(c: Config, env: Env, s: State, view: View, idx: nat): State {
    if idx >= |c.profiles| then s
    else if view.ViewConnected? && view.profile == c.profiles[idx].name then
      DisconnectSpecific(c, env, s.(pending := Some(idx)), view.profile)
    else ToggleConnection(c, env, s, view, idx)
  }

  // ---------------------------------------------------------------------- scan threads

  /** What `try_recv` reports on the held channel. */
  datatype Recv = Empty | Closed | Ready(sessions: seq<Session>)

  function SpawnScan(s: State): State {
    s.(scannerRx := Some(s.scansStarted), scansStarted := s.scansStarted + 1)
  }

  function PollScanner(c: Config, env: Env, s: State, recv: Recv, order: seq<ProfileId>): State
    requires forall id :: id in order ==> id in s.registry
  {
    if s.scannerRx.None? then SpawnScan(s)
    else
      match recv
      case Empty => s
      case Closed => SpawnScan(s.(scannerRx := None))
      case Ready(sessions) => SpawnScan(ScanTick(c, env, s.(scannerRx := None), order, sessions))
  }

  // ---------------------------------------------------------------------- events

  datatype Command =
    | Toggle(idx: nat)
    | DisconnectOne(idx: nat)
    | DisconnectOrForce
    | DisconnectEvery(names: seq<ProfileId>)
    | ReconnectLast
    | SwitchExclusive(idx: nat)
    | ForceConnect(idx: nat, dropQueue: bool)
    | ConnectAfterAuth(idx: nat)
    | Selected(idx: nat)

  /** What can reach the dispatcher, with the facts of the outside world each handler reads. */
  datatype Event =
    | Scan(env: Env, order: seq<ProfileId>, sessions: seq<Session>)
    | Poll(env: Env, recv: Recv, order: seq<ProfileId>)
    | ConnectResult(env: Env, profile: ProfileId, success: bool, error: Option<string>, interface: Option<string>, pid: Option<nat>)
    | DisconnectResult(profile: ProfileId, success: bool)
    | TimerFires(env: Env, timer: Timer)
    | NetworkChange(view: View, entries: seq<RetryState>)
    | Timeout(profile: ProfileId)
    | User(env: Env, view: View, command: Command)

  function RunCommand(c: Config, env: Env, s: State, view: View, command: Command): State {
    match command
    case Toggle(idx) => ToggleConnection(c, env, s, view, idx)
    case DisconnectOne(idx) => DisconnectProfile(c, env, s, idx)
    case DisconnectOrForce =>
      if view.ViewDisconnecting? then ForceDisconnect(c, env, s, view) else DisconnectCurrent(c, env, s, view)
    case DisconnectEvery(names) => DisconnectAll(c, env, s, names)
    case ReconnectLast => Reconnect(c, env, s, view)
    case SwitchExclusive(idx) => DisconnectCurrent(c, env, s.(pending := Some(idx)), view)
    case ForceConnect(idx, dropQueue) =>
      ConnectProfile(c, env, if dropQueue then s.(pending := None) else s, idx, true)
    case ConnectAfterAuth(idx) => ConnectProfile(c, env, s, idx, false)
    case Selected(idx) => ConnectSelected(c, env, s, view, idx)
  }

  /** What the environment owes an event: a tick walks the registry, a re-arm the retry table. */
  ghost predicate Wellformed(s: State, e: Event) {
    match e
    case Scan(_, order, _) => Enumerates(order, s.registry)
    case Poll(_, _, order) => Enumerates(order, s.registry)
    case NetworkChange(_, entries) => forall r :: r in entries ==> r in s.retry.Values
    case _ => true
  }

  ghost function Step(c: Config, s: State, e: Event): State
    requires Wellformed(s, e)
  {
    match e
    case Scan(env, order, sessions) => ScanTick(c, env, s, order, sessions)
    case Poll(env, recv, order) => PollScanner(c, env, s, recv, order)
    case ConnectResult(env, name, success, error, interface, pid) =>
      if !ResultRelevant(s, name) then s
      else if success then ConnectSucceeded(c, env, s, name, interface, pid)
      else ConnectFailed(c, s, name, error)
    case DisconnectResult(_, _) => s
    case TimerFires(env, timer) => RetryConnect(c, env, s, timer.idx, timer.attempt)
    case NetworkChange(view, entries) => NetworkChanged(c, s, view, entries)
    case Timeout(name) => ConnectionTimeout(s, name)
    case User(env, view, command) => RunCommand(c, env, s, view, command)
  }

  /** States `states[0..]` are those of a run of `events` from `states[0]`. */
  ghost predicate IsRun(c: Config, states: seq<State>, events: seq<Event>) {
    |states| == |events| + 1 &&
    forall i {:trigger events[i]} :: 0 <= i < |events| ==>
      Wellformed(states[i], events[i]) && states[i + 1] == Step(c, states[i], events[i])
  }
}
