/**
 * What every run of the lifecycle machine keeps: a disconnect the user asked for stays asked for,
 * an interface name comes from the protocol layer or from an adoption, and every tunnel that leaves
 * Connected is accounted for. Events arrive in any order and with any content.
 */
module LifecycleRuns {
  import opened Wrappers
  import opened Lifecycle
  import opened Reconciliation

  // ---------------------------------------------------------------------- the standing invariant

  /** The most attempts a chain can reach; a drop schedules its first one even with no budget. */
  function Budget(c: Config): nat {
    if c.maxRetries == 0 then 1 else c.maxRetries
  }

  ghost predicate RetryEntryOk(c: Config, name: ProfileId, entry: RetryState) {
    Position(c.profiles, name) == Some(entry.profileIdx) && 1 <= entry.attempt <= Budget(c)
  }

  /**
   * Entries belong to catalogue profiles; a retry entry remembers its own profile's index and an
   * attempt within the budget.
   */
  ghost predicate Inv(c: Config, s: State) {
    (forall id :: id in s.registry ==> InCatalog(c, id)) &&
    (forall id :: id in s.retry ==> RetryEntryOk(c, id, s.retry[id]))
  }

  lemma ConnectKeepsInv(c: Config, env: Env, s: State, idx: nat, force: bool)
    requires Inv(c, s)
    ensures Inv(c, ConnectProfile(c, env, s, idx, force))
  {
  }

  lemma {:induction false} ReconcileKeepsInv(c: Config, env: Env, s: State, snaps: Registry, order: seq<ProfileId>, sessions: seq<Session>)
    requires Inv(c, s) && forall id :: id in order ==> id in snaps
    ensures Inv(c, ReconcileAll(c, env, s, snaps, order, sessions))
  {
    if order != [] {
      var last := |order| - 1;
      ReconcileKeepsInv(c, env, s, snaps, order[..last], sessions);
      ArmKeepsInv(c, env, ReconcileAll(c, env, s, snaps, order[..last], sessions), order[last], snaps[order[last]], FirstNamed(sessions, order[last]));
    }
  }

  lemma ArmKeepsInv(c: Config, env: Env, s: State, name: ProfileId, snap: Connection, seen: Option<Session>)
    requires Inv(c, s)
    ensures Inv(c, ScanArm(c, env, s, name, snap, seen))
  {
    if snap.Disconnecting? && seen.None? && s.pending.Some? {
      var gone := s.(registry := s.registry - {name}, scannerRx := None, pending := None);
      ConnectKeepsInv(c, env, gone, s.pending.value, false);
    }
  }

  lemma ScanKeepsInv(c: Config, env: Env, s: State, order: seq<ProfileId>, sessions: seq<Session>)
    requires Inv(c, s) && Enumerates(order, s.registry)
    ensures Inv(c, ScanTick(c, env, s, order, sessions))
  {
    ReconcileKeepsInv(c, env, s, s.registry, order, sessions);
    AdoptIsPointwise(c, env, ReconcileAll(c, env, s, s.registry, order, sessions), s.registry.Keys, sessions);
  }

  ghost predicate EntriesOk(c: Config, entries: seq<RetryState>) {
    forall r :: r in entries ==> r.profileIdx < |c.profiles| && RetryEntryOk(c, c.profiles[r.profileIdx].name, r)
  }

  lemma {:induction false} RearmKeepsInv(c: Config, s: State, entries: seq<RetryState>)
    requires Inv(c, s) && EntriesOk(c, entries)
    ensures Inv(c, RearmAll(c, s, entries))
  {
    if entries != [] {
      RearmKeepsInv(c, s, entries[..|entries| - 1]);
    }
  }

  lemma {:induction false} DisconnectAllKeepsInv(c: Config, env: Env, s: State, names: seq<ProfileId>)
    requires Inv(c, s)
    ensures Inv(c, DisconnectAll(c, env, s, names))
    decreases |names|
  {
    if names != [] {
      DisconnectAllKeepsInv(c, env, DisconnectSpecific(c, env, s, names[0]), names[1..]);
    }
  }

  lemma DisconnectKeepsInv(c: Config, env: Env, s: State, name: ProfileId)
    requires Inv(c, s)
    ensures Inv(c, DisconnectSpecific(c, env, s, name))
  {
  }

  lemma ToggleKeepsInv(c: Config, env: Env, s: State, view: View, idx: nat)
    requires Inv(c, s)
    ensures Inv(c, ToggleConnection(c, env, s, view, idx))
  {
    if idx < |c.profiles| {
      var t := s.(retry := s.retry - {c.profiles[idx].name});
      ConnectKeepsInv(c, env, t, idx, false);
      DisconnectKeepsInv(c, env, t, c.profiles[idx].name);
      DisconnectKeepsInv(c, env, t.(pending := None), c.profiles[idx].name);
    }
  }

  lemma ReconnectKeepsInv(c: Config, env: Env, s: State, view: View)
    requires Inv(c, s)
    ensures Inv(c, Reconnect(c, env, s, view))
  {
  }

  lemma SelectedKeepsInv(c: Config, env: Env, s: State, view: View, idx: nat)
    requires Inv(c, s)
    ensures Inv(c, ConnectSelected(c, env, s, view, idx))
  {
    ToggleKeepsInv(c, env, s, view, idx);
  }

  lemma CommandKeepsInv(c: Config, env: Env, s: State, view: View, command: Command)
    requires Inv(c, s)
    ensures Inv(c, RunCommand(c, env, s, view, command))
  {
    match command
    case Toggle(idx) => ToggleKeepsInv(c, env, s, view, idx);
    case DisconnectOne(_) =>
    case DisconnectOrForce =>
    case DisconnectEvery(names) => DisconnectAllKeepsInv(c, env, s, names);
    case ReconnectLast => ReconnectKeepsInv(c, env, s, view);
    case SwitchExclusive(_) =>
    case ForceConnect(_, _) =>
    case ConnectAfterAuth(_) =>
    case Selected(idx) => SelectedKeepsInv(c, env, s, view, idx);
  }

  lemma StepKeepsInv(c: Config, s: State, e: Event)
    requires Inv(c, s) && Wellformed(s, e)
    ensures Inv(c, Step(c, s, e))
  {
    hide ScanTick, RearmAll, RunCommand;
    match e
    case Scan(env, order, sessions) => ScanKeepsInv(c, env, s, order, sessions);
    case Poll(env, recv, order) =>
      if s.scannerRx.Some? && recv.Ready? {
        ScanKeepsInv(c, env, s.(scannerRx := None), order, recv.sessions);
      }
    case ConnectResult(_, _, _, _, _, _) =>
    case DisconnectResult(_, _) =>
    case TimerFires(_, _) =>
    case NetworkChange(_, entries) => RearmKeepsInv(c, s, entries);
    case Timeout(_) =>
    case User(env, view, command) => CommandKeepsInv(c, env, s, view, command);
  }

  lemma StepOfRun(c: Config, states: seq<State>, events: seq<Event>, i: nat)
    requires IsRun(c, states, events) && i < |events|
    ensures Wellformed(states[i], events[i]) && states[i + 1] == Step(c, states[i], events[i])
  {
    assert events[i] == events[i];
  }

  ghost predicate KeepsInv(c: Config, s: State, e: Event, t: State) {
    Inv(c, s) ==> Inv(c, t)
  }

  lemma {:induction false} InvAdds(c: Config, states: seq<State>, events: seq<Event>, n: nat)
    requires |states| == |events| + 1 && n <= |events| && Inv(c, states[0])
    requires forall i {:trigger events[i]} :: 0 <= i < |events| ==> KeepsInv(c, states[i], events[i], states[i + 1])
    ensures Inv(c, states[n])
  {
    if n > 0 {
      InvAdds(c, states, events, n - 1);
      assert KeepsInv(c, states[n - 1], events[n - 1], states[n]);
    }
  }

  lemma RunKeepsInv(c: Config, states: seq<State>, events: seq<Event>, n: nat)
    requires IsRun(c, states, events) && Inv(c, states[0]) && n <= |events|
    ensures Inv(c, states[n])
  {
    forall i {:trigger events[i]} | 0 <= i < |events| ensures KeepsInv(c, states[i], events[i], states[i + 1]) {
      StepOfRun(c, states, events, i);
      if Inv(c, states[i]) {
        StepKeepsInv(c, states[i], events[i]);
      }
    }
    InvAdds(c, states, events, n);
  }

  // ---------------------------------------------------------------------- what a scan observed

  /** The sessions the event hands to the reconciliation loop, if it reaches it. */
  function SessionsOf(s: State, e: Event): Option<seq<Session>> {
    match e
    case Scan(_, _, sessions) => Some(sessions)
    case Poll(_, recv, _) => if s.scannerRx.Some? && recv.Ready? then Some(recv.sessions) else None
    case _ => None
  }

  function AdoptedBy(c: Config, s: State, e: Event): set<ProfileId> {
    var sessions := SessionsOf(s, e);
    if sessions.Some? then Adopted(c, s.registry.Keys, sessions.value) else {}
  }

  function DroppedBy(s: State, e: Event): set<ProfileId> {
    var sessions := SessionsOf(s, e);
    if sessions.Some? then Dropped(s.registry, sessions.value) else {}
  }

  // ---------------------------------------------------------------------- a disconnect is final

  /** `a` is on its way out or gone, and nothing is lined up to bring it back. */
  ghost predicate TornDown(s: State, a: ProfileId) {
    a !in s.retry && (a in s.registry ==> s.registry[a].Disconnecting?)
  }

  lemma DisconnectTearsDown(c: Config, env: Env, s: State, a: ProfileId)
    requires InCatalog(c, a)
    ensures TornDown(DisconnectSpecific(c, env, s, a), a)
  {
  }

  lemma ScanKeepsTornDown(c: Config, env: Env, s: State, order: seq<ProfileId>, sessions: seq<Session>, a: ProfileId)
    requires TornDown(s, a) && s.pending.None? && Enumerates(order, s.registry)
    requires a !in Adopted(c, s.registry.Keys, sessions)
    ensures var t := ScanTick(c, env, s, order, sessions); TornDown(t, a) && t.pending.None?
    ensures a !in Dropped(s.registry, sessions)
  {
    TickIsPointwise(c, env, s, order, sessions);
    TickEntries(c, env, s, sessions);
    assert TickEntry(c, env, s.registry, sessions, PointwiseTick(c, env, s, sessions).registry, a);
    assert a !in Rearmed(c, Dropped(s.registry, sessions) * s.registry.Keys);
  }

  lemma {:induction false} RearmKeepsTornDown(c: Config, s: State, entries: seq<RetryState>, a: ProfileId)
    requires TornDown(s, a) && s.pending.None?
    requires forall r :: r in entries ==> r.profileIdx < |c.profiles| && c.profiles[r.profileIdx].name != a
    ensures var t := RearmAll(c, s, entries); TornDown(t, a) && t.pending.None? && t.registry == s.registry
  {
    if entries != [] {
      RearmKeepsTornDown(c, s, entries[..|entries| - 1], a);
    }
  }

  lemma StepKeepsTornDown(c: Config, s: State, e: Event, a: ProfileId)
    requires Inv(c, s) && Wellformed(s, e) && !e.User?
    requires TornDown(s, a) && s.pending.None? && a !in AdoptedBy(c, s, e)
    ensures var t := Step(c, s, e); TornDown(t, a) && t.pending.None? && a !in DroppedBy(s, e)
  {
    match e
    case Scan(env, order, sessions) => ScanKeepsTornDown(c, env, s, order, sessions, a);
    case Poll(env, recv, order) =>
      if s.scannerRx.Some? && recv.Ready? {
        ScanKeepsTornDown(c, env, s.(scannerRx := None), order, recv.sessions, a);
      }
    case ConnectResult(_, _, _, _, _, _) =>
    case DisconnectResult(_, _) =>
    case TimerFires(_, _) =>
    case NetworkChange(_, entries) =>
      forall r | r in entries ensures r.profileIdx < |c.profiles| && c.profiles[r.profileIdx].name != a {
        var id :| id in s.retry && s.retry[id] == r;
        assert RetryEntryOk(c, id, r);
      }
      RearmKeepsTornDown(c, s, entries, a);
    case Timeout(_) =>
  }

  ghost predicate NoUser(events: seq<Event>) {
    forall i :: 0 <= i < |events| ==> !events[i].User?
  }

  /** No event before `n` adopted `a` as an externally started tunnel. */
  ghost predicate NotAdopted(c: Config, states: seq<State>, events: seq<Event>, n: nat, a: ProfileId)
    requires |states| == |events| + 1 && n <= |events|
  {
    forall j {:trigger events[j]} :: 0 <= j < n ==> a !in AdoptedBy(c, states[j], events[j])
  }

  ghost predicate KeepsTornDown(c: Config, s: State, e: Event, t: State, a: ProfileId) {
    TornDown(s, a) && s.pending.None? && a !in AdoptedBy(c, s, e) ==>
      TornDown(t, a) && t.pending.None? && a !in DroppedBy(s, e)
  }

  lemma {:induction false} TornDownAdds(c: Config, states: seq<State>, events: seq<Event>, n: nat, a: ProfileId)
    requires |states| == |events| + 1 && n <= |events|
    requires forall i {:trigger events[i]} :: 0 <= i < |events| ==> KeepsTornDown(c, states[i], events[i], states[i + 1], a)
    requires TornDown(states[0], a) && states[0].pending.None? && NotAdopted(c, states, events, n, a)
    ensures TornDown(states[n], a) && states[n].pending.None?
    ensures forall j {:trigger events[j]} :: 0 <= j < n ==> a !in DroppedBy(states[j], events[j])
  {
    if n > 0 {
      TornDownAdds(c, states, events, n - 1, a);
      assert KeepsTornDown(c, states[n - 1], events[n - 1], states[n], a);
    }
  }

  lemma RunKeepsTornDown(c: Config, states: seq<State>, events: seq<Event>, n: nat, a: ProfileId)
    requires IsRun(c, states, events) && NoUser(events) && n <= |events|
    requires Inv(c, states[0]) && TornDown(states[0], a) && states[0].pending.None?
    requires NotAdopted(c, states, events, n, a)
    ensures TornDown(states[n], a)
    ensures forall j {:trigger events[j]} :: 0 <= j < n ==> a !in DroppedBy(states[j], events[j])
  {
    forall i {:trigger events[i]} | 0 <= i < |events| ensures KeepsTornDown(c, states[i], events[i], states[i + 1], a) {
      StepOfRun(c, states, events, i);
      RunKeepsInv(c, states, events, i);
      if TornDown(states[i], a) && states[i].pending.None? && a !in AdoptedBy(c, states[i], events[i]) {
        StepKeepsTornDown(c, states[i], events[i], a);
      }
    }
    TornDownAdds(c, states, events, n, a);
  }

  /**
   * A disconnect is not undone by a race. Whatever scans, late results, late timers, timeouts and
   * network changes arrive in whatever order, from the request until the entry is removed `a` is
   * never Connected, never counted as a drop and never scheduled for a retry. Once removed it stays
   * out until a later scan reports a session of that name.
   */
  lemma DisconnectIsFinal(c: Config, env: Env, before: State, states: seq<State>, events: seq<Event>, n: nat, a: ProfileId)
    requires Inv(c, before) && InCatalog(c, a) && before.pending.None?
    requires IsRun(c, states, events) && NoUser(events) && n <= |events|
    requires states[0] == DisconnectSpecific(c, env, before, a)
    ensures (forall j :: 0 <= j < n ==> a in states[j].registry) ==>
              TornDown(states[n], a) && forall j {:trigger events[j]} :: 0 <= j < n ==> a !in DroppedBy(states[j], events[j])
    ensures NotAdopted(c, states, events, n, a) ==>
              TornDown(states[n], a) && forall j {:trigger events[j]} :: 0 <= j < n ==> a !in DroppedBy(states[j], events[j])
  {
    if NotAdopted(c, states, events, n, a) {
      RunKeepsTornDown(c, states, events, n, a);
    }
  }

  // ---------------------------------------------------------------------- interface authority

  datatype Origin = Origin(interface: string, authoritative: bool)

  /** The two writes the contract allows: an accepted connect success, and an adoption. */
  function Writes(c: Config, s: State, e: Event): map<ProfileId, Origin> {
    match e
    case ConnectResult(_, name, success, _, interface, _) =>
      if ResultRelevant(s, name) && success && InCatalog(c, name) then map[name := Origin(interface.GetOr(""), true)] else map[]
    case _ =>
      map id | id in AdoptedBy(c, s, e) ::
        (FirstNamedOfAdopted(c, s.registry.Keys, SessionsOf(s, e).value, id);
         var session := LastNamed(SessionsOf(s, e).value, id);
         Origin(session.interface, session.authoritative))
  }

  /** The last allowed write to each profile in the first `n` events. */
  function History(c: Config, states: seq<State>, events: seq<Event>, n: nat): map<ProfileId, Origin>
    requires |states| == |events| + 1 && n <= |events|
  {
    if n == 0 then map[] else History(c, states, events, n - 1) + Writes(c, states[n - 1], events[n - 1])
  }

  /** Every Connected entry carries the interface `origins` holds for it. */
  ghost predicate InterfacesFrom(registry: Registry, origins: map<ProfileId, Origin>) {
    forall id :: id in registry && registry[id].Connected? ==>
      id in origins && origins[id] == Origin(registry[id].details.interface, registry[id].details.authoritative)
  }

  lemma ArmKeepsInterfaces(c: Config, env: Env, s: State, name: ProfileId, snap: Connection, seen: Option<Session>, origins: map<ProfileId, Origin>)
    requires InterfacesFrom(s.registry, origins)
    ensures InterfacesFrom(ScanArm(c, env, s, name, snap, seen).registry, origins)
  {
  }

  lemma {:induction false} ReconcileKeepsInterfaces(c: Config, env: Env, s: State, snaps: Registry, order: seq<ProfileId>, sessions: seq<Session>, origins: map<ProfileId, Origin>)
    requires InterfacesFrom(s.registry, origins) && forall id :: id in order ==> id in snaps
    ensures InterfacesFrom(ReconcileAll(c, env, s, snaps, order, sessions).registry, origins)
  {
    if order != [] {
      var last := |order| - 1;
      ReconcileKeepsInterfaces(c, env, s, snaps, order[..last], sessions, origins);
      ArmKeepsInterfaces(c, env, ReconcileAll(c, env, s, snaps, order[..last], sessions), order[last], snaps[order[last]], FirstNamed(sessions, order[last]), origins);
    }
  }

  lemma ScanInterfaces(c: Config, env: Env, s: State, e: Event, order: seq<ProfileId>, sessions: seq<Session>, origins: map<ProfileId, Origin>)
    requires InterfacesFrom(s.registry, origins) && Enumerates(order, s.registry)
    requires !e.ConnectResult? && SessionsOf(s, e) == Some(sessions)
    ensures InterfacesFrom(ScanTick(c, env, s, order, sessions).registry, origins + Writes(c, s, e))
  {
    var t := ReconcileAll(c, env, s, s.registry, order, sessions);
    ReconcileKeepsInterfaces(c, env, s, s.registry, order, sessions, origins);
    AdoptIsPointwise(c, env, t, s.registry.Keys, sessions);
    var added := AdoptedEntries(c, env, s.registry.Keys, sessions);
    forall id | id in added
      ensures id in Writes(c, s, e) && added[id].Connected?
      ensures Writes(c, s, e)[id] == Origin(added[id].details.interface, added[id].details.authoritative)
    {
    }
  }

  lemma {:induction false} RearmKeepsRegistry(c: Config, s: State, entries: seq<RetryState>)
    ensures RearmAll(c, s, entries).registry == s.registry && RearmAll(c, s, entries).drops == s.drops
  {
    if entries != [] {
      RearmKeepsRegistry(c, s, entries[..|entries| - 1]);
    }
  }

  /** A command may take tunnels out of Connected. It puts none in, and changes no tunnel that stays. */
  ghost predicate OnlyLeaves(before: Registry, after: Registry) {
    forall id :: id in after && after[id].Connected? ==> id in before && before[id] == after[id]
  }

  lemma {:induction false} DisconnectAllOnlyLeaves(c: Config, env: Env, s: State, names: seq<ProfileId>)
    ensures OnlyLeaves(s.registry, DisconnectAll(c, env, s, names).registry)
    ensures DisconnectAll(c, env, s, names).drops == s.drops
    decreases |names|
  {
    if names != [] {
      DisconnectAllOnlyLeaves(c, env, DisconnectSpecific(c, env, s, names[0]), names[1..]);
    }
  }

  lemma ToggleOnlyLeaves(c: Config, env: Env, s: State, view: View, idx: nat)
    ensures OnlyLeaves(s.registry, ToggleConnection(c, env, s, view, idx).registry)
    ensures ToggleConnection(c, env, s, view, idx).drops == s.drops
  {
  }

  lemma ReconnectOnlyLeaves(c: Config, env: Env, s: State, view: View)
    ensures OnlyLeaves(s.registry, Reconnect(c, env, s, view).registry)
    ensures Reconnect(c, env, s, view).drops == s.drops
  {
  }

  lemma SelectedOnlyLeaves(c: Config, env: Env, s: State, view: View, idx: nat)
    ensures OnlyLeaves(s.registry, ConnectSelected(c, env, s, view, idx).registry)
    ensures ConnectSelected(c, env, s, view, idx).drops == s.drops
  {
    ToggleOnlyLeaves(c, env, s, view, idx);
  }

  lemma CommandOnlyLeaves(c: Config, env: Env, s: State, view: View, command: Command)
    ensures OnlyLeaves(s.registry, RunCommand(c, env, s, view, command).registry)
    ensures RunCommand(c, env, s, view, command).drops == s.drops
  {
    match command
    case Toggle(idx) => ToggleOnlyLeaves(c, env, s, view, idx);
    case DisconnectOne(_) =>
    case DisconnectOrForce =>
    case DisconnectEvery(names) => DisconnectAllOnlyLeaves(c, env, s, names);
    case ReconnectLast => ReconnectOnlyLeaves(c, env, s, view);
    case SwitchExclusive(_) =>
    case ForceConnect(_, _) =>
    case ConnectAfterAuth(_) =>
    case Selected(idx) => SelectedOnlyLeaves(c, env, s, view, idx);
  }

  lemma PollWrites(c: Config, s: State, env: Env, recv: Recv, order: seq<ProfileId>)
    requires s.scannerRx.Some? && recv.Ready?
    ensures Writes(c, s, Poll(env, recv, order)) == Writes(c, s.(scannerRx := None), Scan(env, order, recv.sessions))
  {
  }

  lemma ResultInterfaces(c: Config, s: State, e: Event, origins: map<ProfileId, Origin>)
    requires e.ConnectResult? && InterfacesFrom(s.registry, origins)
    ensures InterfacesFrom(Step(c, s, e).registry, origins + Writes(c, s, e))
  {
  }

  lemma OtherInterfaces(c: Config, s: State, e: Event, origins: map<ProfileId, Origin>)
    requires Wellformed(s, e) && !e.ConnectResult? && SessionsOf(s, e).None? && InterfacesFrom(s.registry, origins)
    requires OnlyLeaves(s.registry, Step(c, s, e).registry)
    ensures InterfacesFrom(Step(c, s, e).registry, origins + Writes(c, s, e))
  {
  }

  lemma StepInterfaces(c: Config, s: State, e: Event, origins: map<ProfileId, Origin>)
    requires Wellformed(s, e) && InterfacesFrom(s.registry, origins)
    ensures InterfacesFrom(Step(c, s, e).registry, origins + Writes(c, s, e))
  {
    hide ScanTick, RearmAll, RunCommand, Writes, InterfacesFrom;
    match e
    case Scan(env, order, sessions) => ScanInterfaces(c, env, s, e, order, sessions, origins);
    case Poll(env, recv, order) =>
      if s.scannerRx.Some? && recv.Ready? {
        ScanInterfaces(c, env, s.(scannerRx := None), Scan(env, order, recv.sessions), order, recv.sessions, origins);
        PollWrites(c, s, env, recv, order);
      } else {
        OtherInterfaces(c, s, e, origins);
      }
    case ConnectResult(_, _, _, _, _, _) => ResultInterfaces(c, s, e, origins);
    case DisconnectResult(_, _) => OtherInterfaces(c, s, e, origins);
    case TimerFires(_, _) => OtherInterfaces(c, s, e, origins);
    case NetworkChange(_, entries) =>
      RearmKeepsRegistry(c, s, entries);
      OtherInterfaces(c, s, e, origins);
    case Timeout(_) => OtherInterfaces(c, s, e, origins);
    case User(env, view, command) =>
      CommandOnlyLeaves(c, env, s, view, command);
      OtherInterfaces(c, s, e, origins);
  }

  ghost predicate KeepsInterfaces(c: Config, s: State, e: Event, t: State) {
    forall origins :: InterfacesFrom(s.registry, origins) ==> InterfacesFrom(t.registry, origins + Writes(c, s, e))
  }

  lemma {:induction false} InterfacesAdd(c: Config, states: seq<State>, events: seq<Event>, n: nat)
    requires |states| == |events| + 1 && n <= |events| && states[0].registry == map[]
    requires forall i {:trigger events[i]} :: 0 <= i < |events| ==> KeepsInterfaces(c, states[i], events[i], states[i + 1])
    ensures InterfacesFrom(states[n].registry, History(c, states, events, n))
  {
    if n > 0 {
      InterfacesAdd(c, states, events, n - 1);
      assert KeepsInterfaces(c, states[n - 1], events[n - 1], states[n]);
    }
  }

  /**
   * Interface authority. At every point of every run, queued switches included, each Connected entry
   * shows the interface and authority of the last accepted connect success or adoption that wrote it,
   * whatever names scans have reported since.
   */
  lemma InterfaceAuthority(c: Config, states: seq<State>, events: seq<Event>, n: nat)
    requires IsRun(c, states, events) && states[0].registry == map[] && n <= |events|
    ensures InterfacesFrom(states[n].registry, History(c, states, events, n))
  {
    forall i {:trigger events[i]} | 0 <= i < |events| ensures KeepsInterfaces(c, states[i], events[i], states[i + 1]) {
      StepOfRun(c, states, events, i);
      forall origins | InterfacesFrom(states[i].registry, origins)
        ensures InterfacesFrom(states[i + 1].registry, origins + Writes(c, states[i], events[i]))
      {
        StepInterfaces(c, states[i], events[i], origins);
      }
    }
    InterfacesAdd(c, states, events, n);
  }

  /** A tunnel becomes Connected only through the protocol layer's success or through an adoption. */
  lemma ConnectedOnlyByContract(c: Config, s: State, e: Event, id: ProfileId)
    requires Wellformed(s, e) && id in ConnectedIds(Step(c, s, e).registry) && id !in ConnectedIds(s.registry)
    ensures id in Writes(c, s, e)
  {
    var origins := map i | i in ConnectedIds(s.registry) :: Origin(s.registry[i].details.interface, s.registry[i].details.authoritative);
    StepInterfaces(c, s, e, origins);
  }

  // ---------------------------------------------------------------------- conservation

  function Entered(s: State, t: State): nat {
    |ConnectedIds(t.registry) - ConnectedIds(s.registry)|
  }

  function Left(s: State, t: State): nat {
    |ConnectedIds(s.registry) - ConnectedIds(t.registry)|
  }

  /** How many times, in the first `n` steps, some tunnel entered Connected. */
  function EnteredTotal(states: seq<State>, n: nat): nat
    requires n < |states|
  {
    if n == 0 then 0 else EnteredTotal(states, n - 1) + Entered(states[n - 1], states[n])
  }

  /** Whether a queued connect that a scan fires takes over a tunnel the scan has just seen up. */
  function TakenOver(c: Config, s: State, e: Event): nat {
    match e
    case Scan(env, order, sessions) => TakenOverBy(c, env, s, order, sessions)
    case Poll(env, recv, order) =>
      if s.scannerRx.Some? && recv.Ready? then TakenOverBy(c, env, s.(scannerRx := None), order, recv.sessions) else 0
    case _ => 0
  }

  function TakenOverBy(c: Config, env: Env, s: State, order: seq<ProfileId>, sessions: seq<Session>): nat {
    |Switched(c, env, s, order, sessions) * (ConnectedIds(s.registry) - Dropped(s.registry, sessions))|
  }

  /** How many tunnels left Connected other than by vanishing: by a command, a failure, a timeout or a queued connect. */
  function OtherExits(c: Config, states: seq<State>, events: seq<Event>, n: nat): nat
    requires |states| == |events| + 1 && n <= |events|
  {
    if n == 0 then 0
    else OtherExits(c, states, events, n - 1) +
         if SessionsOf(states[n - 1], events[n - 1]).Some? then TakenOver(c, states[n - 1], events[n - 1])
         else Left(states[n - 1], states[n])
  }

  lemma Balance(before: set<ProfileId>, after: set<ProfileId>)
    ensures |after| == |before| + |after - before| - |before - after|
  {
    assert before == (before * after) + (before - after);
    assert after == (before * after) + (after - before);
  }

  /** A tick counts the tunnels it takes out of Connected, each once, but for one that a queued connect takes over. */
  lemma ScanExitsAreDrops(c: Config, env: Env, s: State, order: seq<ProfileId>, sessions: seq<Session>)
    requires Enumerates(order, s.registry)
    ensures var t := ScanTick(c, env, s, order, sessions);
            t.drops + TakenOverBy(c, env, s, order, sessions) == s.drops + Left(s, t)
  {
    hide ScanTick, Switched, Dropped, Adopted;
    TickConnectedIds(c, env, s, order, sessions);
    var t := ScanTick(c, env, s, order, sessions);
    assert ConnectedIds(s.registry) <= s.registry.Keys;
    LostSize(ConnectedIds(s.registry), ConnectedIds(t.registry), Dropped(s.registry, sessions), Switched(c, env, s, order, sessions),
             Adopted(c, s.registry.Keys, sessions), s.registry.Keys);
  }

  lemma LostSize(up: set<ProfileId>, after: set<ProfileId>, dropped: set<ProfileId>, switched: set<ProfileId>,
                 adopted: set<ProfileId>, known: set<ProfileId>)
    requires after == up - dropped - switched + adopted && dropped <= up <= known && adopted !! known
    ensures |up - after| == |dropped| + |switched * (up - dropped)|
  {
    assert up - after == dropped + switched * (up - dropped);
  }

  /** Scans count exactly what they take out of Connected by its absence; nothing else touches the counter. */
  lemma StepCountsDrops(c: Config, s: State, e: Event)
    requires Wellformed(s, e)
    ensures var t := Step(c, s, e);
            t.drops + TakenOver(c, s, e) == s.drops + if SessionsOf(s, e).Some? then Left(s, t) else 0
  {
    hide ScanTick, RearmAll, RunCommand, ConnectedIds, TakenOverBy;
    match e
    case Scan(env, order, sessions) => ScanExitsAreDrops(c, env, s, order, sessions);
    case Poll(env, recv, order) =>
      if s.scannerRx.Some? && recv.Ready? {
        ScanExitsAreDrops(c, env, s.(scannerRx := None), order, recv.sessions);
      }
    case ConnectResult(_, _, _, _, _, _) =>
    case DisconnectResult(_, _) =>
    case TimerFires(_, _) =>
    case NetworkChange(_, entries) => RearmKeepsRegistry(c, s, entries);
    case Timeout(_) =>
    case User(env, view, command) => CommandOnlyLeaves(c, env, s, view, command);
  }

  /** The books balance over one step. */
  ghost predicate Balanced(c: Config, s: State, e: Event, t: State) {
    |ConnectedIds(s.registry)| + Entered(s, t)
    == |ConnectedIds(t.registry)| + (t.drops - s.drops) + if SessionsOf(s, e).Some? then TakenOver(c, s, e) else Left(s, t)
  }

  lemma StepBalances(c: Config, s: State, e: Event)
    requires Wellformed(s, e)
    ensures Balanced(c, s, e, Step(c, s, e))
  {
    var t := Step(c, s, e);
    StepCountsDrops(c, s, e);
    Balance(ConnectedIds(s.registry), ConnectedIds(t.registry));
  }

  lemma {:induction false} BalancesAdd(c: Config, states: seq<State>, events: seq<Event>, n: nat)
    requires |states| == |events| + 1 && n <= |events|
    requires forall i {:trigger events[i]} :: 0 <= i < |events| ==> Balanced(c, states[i], events[i], states[i + 1])
    ensures |ConnectedIds(states[0].registry)| + EnteredTotal(states, n)
         == |ConnectedIds(states[n].registry)| + (states[n].drops - states[0].drops) + OtherExits(c, states, events, n)
  {
    if n > 0 {
      BalancesAdd(c, states, events, n - 1);
      assert Balanced(c, states[n - 1], events[n - 1], states[n]);
    }
  }

  /**
   * Conservation. Over any run, the tunnels that ever entered Connected are those still there plus the
   * counted drops plus the exits by command, failure, timeout or queued switch, so each lost tunnel is
   * counted exactly once, however many vanish in one scan.
   */
  lemma ConnectionsConserved(c: Config, states: seq<State>, events: seq<Event>, n: nat)
    requires IsRun(c, states, events) && n <= |events|
    ensures |ConnectedIds(states[0].registry)| + EnteredTotal(states, n)
         == |ConnectedIds(states[n].registry)| + (states[n].drops - states[0].drops) + OtherExits(c, states, events, n)
  {
    forall i {:trigger events[i]} | 0 <= i < |events| ensures Balanced(c, states[i], events[i], states[i + 1]) {
      StepOfRun(c, states, events, i);
      StepBalances(c, states[i], events[i]);
    }
    BalancesAdd(c, states, events, n);
  }
}
