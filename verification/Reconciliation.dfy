/**
 * One scan tick, seen profile by profile.
 *
 * The tick is a loop over snapshots followed by a loop over sessions. `PointwiseTick` says what it
 * does to each profile from that profile's entry and sessions alone, with no loop and no order;
 * `TickIsPointwise` shows that the two agree in every order.
 */
module Reconciliation {
  import opened Wrappers
  import opened Lifecycle

  /** What a tick leaves of one registry entry; `None` means the entry is gone. */
  function EntryAfter(c: Config, env: Env, name: ProfileId, entry: Connection, seen: Option<Session>): Option<Connection> {
    match (entry, seen)
    case (Disconnecting(_), None) => None
    case (Disconnecting(startedAt), Some(_)) => if TimedOut(c, env, startedAt) then None else Some(entry)
    case (Connected(_, _), Some(session)) => if InCatalog(c, name) then Some(Refreshed(entry, session)) else Some(entry)
    case (Connected(_, _), None) => None
    case (Reconnecting(_), None) => None
    case (AwaitingUserInput(_), None) => None
    case (_, _) => Some(entry)
  }

  /** Put `entry` under `id`, or remove `id` when there is none. */
  function Replace(registry: Registry, id: ProfileId, entry: Option<Connection>): Registry {
    if entry.Some? then registry[id := entry.value] else registry - {id}
  }

  /** The Connected tunnels the scan no longer sees. */
  function Dropped(registry: Registry, sessions: seq<Session>): set<ProfileId> {
    set id | id in registry && registry[id].Connected? && FirstNamed(sessions, id).None?
  }

  /** The tunnels whose teardown the scan confirms. */
  function Confirmed(registry: Registry, sessions: seq<Session>): set<ProfileId> {
    set id | id in registry && registry[id].Disconnecting? && FirstNamed(sessions, id).None?
  }

  /** The tunnels whose teardown is given up after the timeout. */
  function Overdue(c: Config, env: Env, registry: Registry, sessions: seq<Session>): set<ProfileId> {
    set id | id in registry && registry[id].Disconnecting? && FirstNamed(sessions, id).Some? &&
             TimedOut(c, env, registry[id].startedAt)
  }

  /** Catalogue profiles with a session and no entry when the tick began. */
  function Adopted(c: Config, handled: set<ProfileId>, sessions: seq<Session>): set<ProfileId> {
    set session | session in sessions && session.name !in handled && InCatalog(c, session.name) :: session.name
  }

  function LastNamed(sessions: seq<Session>, name: ProfileId): (r: Session)
    requires FirstNamed(sessions, name).Some?
    ensures r in sessions && r.name == name
  {
    if sessions[|sessions| - 1].name == name then sessions[|sessions| - 1]
    else
      FirstNamedPrefix(sessions, name);
      LastNamed(sessions[..|sessions| - 1], name)
  }

  lemma {:induction false} FirstNamedPrefix(sessions: seq<Session>, name: ProfileId)
    requires sessions != [] && sessions[|sessions| - 1].name != name
    ensures FirstNamed(sessions[..|sessions| - 1], name) == FirstNamed(sessions, name)
  {
    if |sessions| > 1 {
      FirstNamedPrefix(sessions[1..], name);
      assert sessions[1..][..|sessions| - 2] == sessions[..|sessions| - 1][1..];
    }
  }

  lemma FirstNamedExists(sessions: seq<Session>, session: Session)
    requires session in sessions
    ensures FirstNamed(sessions, session.name).Some?
  {
  }

  function RetryAfterDrop(c: Config, name: ProfileId): RetryState
    requires InCatalog(c, name)
  {
    RetryState(1, Position(c.profiles, name).value, true)
  }

  function DropTimer(c: Config, name: ProfileId): Timer
    requires InCatalog(c, name)
  {
    Timer(Position(c.profiles, name).value, 1, c.autoReconnectDelay)
  }

  /** Drops that arm an automatic reconnect. */
  function Rearmed(c: Config, dropped: set<ProfileId>): set<ProfileId> {
    set id | id in dropped && c.autoReconnect && InCatalog(c, id)
  }

  function DropTimers(c: Config, dropped: set<ProfileId>): multiset<Timer> {
    multiset(set id | id in Rearmed(c, dropped) :: DropTimer(c, id))
  }

  function PartialRegistry(c: Config, env: Env, registry: Registry, sessions: seq<Session>, done: set<ProfileId>): Registry {
    map id | id in registry && (id in done ==> EntryAfter(c, env, id, registry[id], FirstNamed(sessions, id)).Some?)
      :: if id in done then EntryAfter(c, env, id, registry[id], FirstNamed(sessions, id)).value else registry[id]
  }

  function DropRetries(c: Config, dropped: set<ProfileId>): map<ProfileId, RetryState> {
    map id | id in Rearmed(c, dropped) :: RetryAfterDrop(c, id)
  }

  /** The effect of the tick on the entries of `done`, all at once. */
  function PartialTick(c: Config, env: Env, s: State, sessions: seq<Session>, done: set<ProfileId>): State {
    var dropped := Dropped(s.registry, sessions) * done;
    var confirmed := Confirmed(s.registry, sessions) * done;
    var overdue := Overdue(c, env, s.registry, sessions) * done;
    s.(registry := PartialRegistry(c, env, s.registry, sessions, done),
       retry := s.retry + DropRetries(c, dropped),
       pending := if confirmed == {} && overdue == {} then s.pending else None,
       drops := s.drops + |dropped|,
       scannerRx := if confirmed == {} then s.scannerRx else None,
       scheduled := s.scheduled + DropTimers(c, dropped))
  }

  /** The whole tick: every entry at once, then every unclaimed session. */
  function PointwiseTick(c: Config, env: Env, s: State, sessions: seq<Session>): State {
    var t := PartialTick(c, env, s, sessions, s.registry.Keys);
    t.(registry := t.registry + AdoptedEntries(c, env, s.registry.Keys, sessions))
  }

  function AdoptedEntries(c: Config, env: Env, handled: set<ProfileId>, sessions: seq<Session>): Registry {
    map id | id in Adopted(c, handled, sessions) ::
      (FirstNamedOfAdopted(c, handled, sessions, id); ConnectedFrom(env, LastNamed(sessions, id)))
  }

  lemma FirstNamedOfAdopted(c: Config, handled: set<ProfileId>, sessions: seq<Session>, id: ProfileId)
    requires id in Adopted(c, handled, sessions)
    ensures FirstNamed(sessions, id).Some?
  {
    var session :| session in sessions && session.name == id;
    FirstNamedExists(sessions, session);
  }

  /** No queued connect fires during the tick: nothing is queued, or no teardown is confirmed. */
  predicate NoDrain(s: State, sessions: seq<Session>) {
    s.pending.None? || Confirmed(s.registry, sessions) == {}
  }

  // ---------------------------------------------------------------------- one arm

  lemma DropTimersAdd(c: Config, dropped: set<ProfileId>, id: ProfileId)
    requires id !in dropped && InCatalog(c, id) && c.autoReconnect
    ensures DropTimers(c, dropped + {id}) == DropTimers(c, dropped) + multiset{DropTimer(c, id)}
  {
    var before := set d | d in Rearmed(c, dropped) :: DropTimer(c, d);
    var after := set d | d in Rearmed(c, dropped + {id}) :: DropTimer(c, d);
    assert Rearmed(c, dropped + {id}) == Rearmed(c, dropped) + {id};
    assert after == before + {DropTimer(c, id)};
    forall d | d in Rearmed(c, dropped) ensures DropTimer(c, d) != DropTimer(c, id) {
      assert c.profiles[Position(c.profiles, d).value].name == d;
    }
    assert DropTimer(c, id) !in before;
  }

  lemma RegistryArm(c: Config, env: Env, registry: Registry, sessions: seq<Session>, done: set<ProfileId>, id: ProfileId)
    requires id in registry && id !in done
    ensures var before := PartialRegistry(c, env, registry, sessions, done);
            id in before && before[id] == registry[id] &&
            PartialRegistry(c, env, registry, sessions, done + {id}) ==
            Replace(before, id, EntryAfter(c, env, id, registry[id], FirstNamed(sessions, id)))
  {
  }

  lemma MergeThenUpdate<K, V>(m: map<K, V>, n: map<K, V>, k: K, v: V)
    ensures m + n[k := v] == (m + n)[k := v]
  {
  }

  lemma RetryArm(c: Config, dropped: set<ProfileId>, id: ProfileId)
    ensures DropRetries(c, dropped + {id}) ==
            if c.autoReconnect && InCatalog(c, id) then DropRetries(c, dropped)[id := RetryAfterDrop(c, id)]
            else DropRetries(c, dropped)
  {
    assert Rearmed(c, dropped + {id}) ==
           Rearmed(c, dropped) + (if c.autoReconnect && InCatalog(c, id) then {id} else {});
  }

  lemma TimersArm(c: Config, dropped: set<ProfileId>, id: ProfileId)
    requires id !in dropped
    ensures DropTimers(c, dropped + {id}) ==
            if c.autoReconnect && InCatalog(c, id) then DropTimers(c, dropped) + multiset{DropTimer(c, id)}
            else DropTimers(c, dropped)
  {
    if c.autoReconnect && InCatalog(c, id) {
      DropTimersAdd(c, dropped, id);
    } else {
      assert Rearmed(c, dropped + {id}) == Rearmed(c, dropped);
    }
  }

  lemma Extend(all: set<ProfileId>, done: set<ProfileId>, id: ProfileId)
    requires id !in done
    ensures all * (done + {id}) == if id in all then all * done + {id} else all * done
  {
  }

  lemma DropArm(c: Config, env: Env, s: State, sessions: seq<Session>, done: set<ProfileId>, id: ProfileId)
    requires id in Dropped(s.registry, sessions) && id !in done
    ensures HandleDrop(c, PartialTick(c, env, s, sessions, done), id, true)
         == PartialTick(c, env, s, sessions, done + {id})
  {
    hide PartialRegistry, DropRetries, DropTimers, FirstNamed, Position;
    var dropped := Dropped(s.registry, sessions) * done;
    Extend(Dropped(s.registry, sessions), done, id);
    Extend(Confirmed(s.registry, sessions), done, id);
    Extend(Overdue(c, env, s.registry, sessions), done, id);
    RegistryArm(c, env, s.registry, sessions, done, id);
    RetryArm(c, dropped, id);
    TimersArm(c, dropped, id);
    if c.autoReconnect && InCatalog(c, id) {
      MergeThenUpdate(s.retry, DropRetries(c, dropped), id, RetryAfterDrop(c, id));
    }
  }

  lemma ConfirmArm(c: Config, env: Env, s: State, sessions: seq<Session>, done: set<ProfileId>, id: ProfileId)
    requires id in Confirmed(s.registry, sessions) && id !in done
    requires var now := PartialTick(c, env, s, sessions, done);
             now.pending.None? || CompleteDisconnect(c, env, now, id).workers == s.workers
    ensures CompleteDisconnect(c, env, PartialTick(c, env, s, sessions, done), id)
         == PartialTick(c, env, s, sessions, done + {id})
  {
    hide PartialRegistry, DropRetries, DropTimers, FirstNamed, ConnectAllowed;
    Extend(Dropped(s.registry, sessions), done, id);
    Extend(Confirmed(s.registry, sessions), done, id);
    Extend(Overdue(c, env, s.registry, sessions), done, id);
    RegistryArm(c, env, s.registry, sessions, done, id);
  }

  lemma OverdueArm(c: Config, env: Env, s: State, sessions: seq<Session>, done: set<ProfileId>, id: ProfileId)
    requires id in Overdue(c, env, s.registry, sessions) && id !in done
    ensures ForceCleanup(PartialTick(c, env, s, sessions, done), id)
         == PartialTick(c, env, s, sessions, done + {id})
  {
    hide PartialRegistry, DropRetries, DropTimers, FirstNamed;
    Extend(Dropped(s.registry, sessions), done, id);
    Extend(Confirmed(s.registry, sessions), done, id);
    Extend(Overdue(c, env, s.registry, sessions), done, id);
    RegistryArm(c, env, s.registry, sessions, done, id);
  }

  /** The remaining arms touch one registry entry and nothing else. */
  lemma QuietArm(c: Config, env: Env, s: State, sessions: seq<Session>, done: set<ProfileId>, id: ProfileId)
    requires id in s.registry && id !in done && id !in Dropped(s.registry, sessions)
    requires id !in Confirmed(s.registry, sessions) && id !in Overdue(c, env, s.registry, sessions)
    ensures var now := PartialTick(c, env, s, sessions, done);
            id in now.registry && now.registry[id] == s.registry[id] &&
            PartialTick(c, env, s, sessions, done + {id}) ==
            now.(registry := Replace(now.registry, id, EntryAfter(c, env, id, s.registry[id], FirstNamed(sessions, id))))
  {
    Extend(Dropped(s.registry, sessions), done, id);
    Extend(Confirmed(s.registry, sessions), done, id);
    Extend(Overdue(c, env, s.registry, sessions), done, id);
    RegistryArm(c, env, s.registry, sessions, done, id);
  }

  lemma SameEntry(registry: Registry, id: ProfileId)
    requires id in registry
    ensures registry[id := registry[id]] == registry
  {
  }

  lemma QuietScanArm(c: Config, env: Env, s: State, id: ProfileId, seen: Option<Session>)
    requires id in s.registry && !(s.registry[id].Connected? && seen.None?)
    requires s.registry[id].Disconnecting? ==> seen.Some? && !TimedOut(c, env, s.registry[id].startedAt)
    ensures ScanArm(c, env, s, id, s.registry[id], seen)
         == s.(registry := Replace(s.registry, id, EntryAfter(c, env, id, s.registry[id], seen)))
  {
    SameEntry(s.registry, id);
  }

  lemma ArmIsPointwise(c: Config, env: Env, s: State, sessions: seq<Session>, done: set<ProfileId>, id: ProfileId)
    requires id in s.registry && id !in done
    requires NoDrain(s, sessions) ||
             ScanArm(c, env, PartialTick(c, env, s, sessions, done), id, s.registry[id], FirstNamed(sessions, id)).workers == s.workers
    ensures ScanArm(c, env, PartialTick(c, env, s, sessions, done), id, s.registry[id], FirstNamed(sessions, id))
         == PartialTick(c, env, s, sessions, done + {id})
  {
    var now := PartialTick(c, env, s, sessions, done);
    var seen := FirstNamed(sessions, id);
    if s.registry[id].Disconnecting? {
      if seen.None? {
        ConfirmArm(c, env, s, sessions, done, id);
      } else if TimedOut(c, env, s.registry[id].startedAt) {
        OverdueArm(c, env, s, sessions, done, id);
      } else {
        QuietArm(c, env, s, sessions, done, id);
        QuietScanArm(c, env, now, id, seen);
      }
    } else if s.registry[id].Connected? && seen.None? {
      DropArm(c, env, s, sessions, done, id);
    } else {
      QuietArm(c, env, s, sessions, done, id);
      QuietScanArm(c, env, now, id, seen);
    }
  }

  function Ids(order: seq<ProfileId>): set<ProfileId> {
    set id | id in order
  }

  lemma ArmSpawns(c: Config, env: Env, s: State, name: ProfileId, snap: Connection, seen: Option<Session>)
    ensures s.workers <= ScanArm(c, env, s, name, snap, seen).workers
  {
  }

  /** A tick only ever adds workers. */
  lemma {:induction false} ReconcileSpawns(c: Config, env: Env, s: State, snaps: Registry, order: seq<ProfileId>, sessions: seq<Session>)
    requires forall id :: id in order ==> id in snaps
    ensures s.workers <= ReconcileAll(c, env, s, snaps, order, sessions).workers
  {
    if order != [] {
      var init, last := order[..|order| - 1], order[|order| - 1];
      ReconcileSpawns(c, env, s, snaps, init, sessions);
      ArmSpawns(c, env, ReconcileAll(c, env, s, snaps, init, sessions), last, snaps[last], FirstNamed(sessions, last));
    }
  }

  /** If the whole walk spawns nothing, neither does what comes before its last entry. */
  lemma InitSpawnsNothing(c: Config, env: Env, s: State, order: seq<ProfileId>, sessions: seq<Session>)
    requires order != [] && forall id :: id in order ==> id in s.registry
    requires ReconcileAll(c, env, s, s.registry, order, sessions).workers == s.workers
    ensures ReconcileAll(c, env, s, s.registry, order[..|order| - 1], sessions).workers == s.workers
  {
    hide ScanArm;
    var init, last := order[..|order| - 1], order[|order| - 1];
    ReconcileSpawns(c, env, s, s.registry, init, sessions);
    ArmSpawns(c, env, ReconcileAll(c, env, s, s.registry, init, sessions), last, s.registry[last], FirstNamed(sessions, last));
  }

  lemma {:induction false} ReconcileIsPointwise(c: Config, env: Env, s: State, order: seq<ProfileId>, sessions: seq<Session>)
    requires forall id :: id in order ==> id in s.registry
    requires NoDrain(s, sessions) || ReconcileAll(c, env, s, s.registry, order, sessions).workers == s.workers
    requires forall i, j :: 0 <= i < j < |order| ==> order[i] != order[j]
    ensures ReconcileAll(c, env, s, s.registry, order, sessions) == PartialTick(c, env, s, sessions, Ids(order))
  {
    hide ScanArm, PartialTick, NoDrain;
    if order == [] {
      assert Ids(order) == {};
      NothingDone(c, env, s, sessions);
    } else {
      var init, last := order[..|order| - 1], order[|order| - 1];
      if !NoDrain(s, sessions) {
        InitSpawnsNothing(c, env, s, order, sessions);
      }
      ReconcileIsPointwise(c, env, s, init, sessions);
      ArmIsPointwise(c, env, s, sessions, Ids(init), last);
      OneMore(init, last, order);
    }
  }

  lemma OneMore(init: seq<ProfileId>, last: ProfileId, order: seq<ProfileId>)
    requires order == init + [last]
    ensures Ids(order) == Ids(init) + {last}
  {
  }

  lemma NothingDone(c: Config, env: Env, s: State, sessions: seq<Session>)
    ensures PartialTick(c, env, s, sessions, {}) == s
  {
    assert PartialRegistry(c, env, s.registry, sessions, {}) == s.registry;
    assert s.retry + DropRetries(c, {}) == s.retry;
    assert forall all: set<ProfileId> :: all * {} == {};
    assert Rearmed(c, {}) == {};
    assert DropTimers(c, {}) == multiset{};
  }

  // ---------------------------------------------------------------------- adoption

  lemma AdoptedSetAdd(c: Config, handled: set<ProfileId>, sessions: seq<Session>)
    requires sessions != []
    ensures var last := sessions[|sessions| - 1];
            Adopted(c, handled, sessions) == Adopted(c, handled, sessions[..|sessions| - 1]) +
              (if last.name !in handled && InCatalog(c, last.name) then {last.name} else {})
  {
    assert sessions == sessions[..|sessions| - 1] + [sessions[|sessions| - 1]];
  }

  lemma AdoptedEntriesAre(c: Config, env: Env, handled: set<ProfileId>, sessions: seq<Session>)
    ensures AdoptedEntries(c, env, handled, sessions).Keys == Adopted(c, handled, sessions)
    ensures forall id :: id in Adopted(c, handled, sessions) ==>
              FirstNamed(sessions, id).Some? &&
              AdoptedEntries(c, env, handled, sessions)[id] == ConnectedFrom(env, LastNamed(sessions, id))
  {
    forall id | id in Adopted(c, handled, sessions) ensures FirstNamed(sessions, id).Some? {
      FirstNamedOfAdopted(c, handled, sessions, id);
    }
  }

  lemma LastNamedStep(sessions: seq<Session>, id: ProfileId)
    requires FirstNamed(sessions, id).Some?
    ensures sessions != []
    ensures var init, last := sessions[..|sessions| - 1], sessions[|sessions| - 1];
            if id == last.name then LastNamed(sessions, id) == last
            else FirstNamed(init, id).Some? && LastNamed(sessions, id) == LastNamed(init, id)
  {
    if id != sessions[|sessions| - 1].name {
      FirstNamedPrefix(sessions, id);
    }
  }

  lemma AdoptedEntriesAdd(c: Config, env: Env, handled: set<ProfileId>, sessions: seq<Session>)
    requires sessions != []
    ensures var last := sessions[|sessions| - 1];
            var before := AdoptedEntries(c, env, handled, sessions[..|sessions| - 1]);
            AdoptedEntries(c, env, handled, sessions) ==
            if last.name !in handled && InCatalog(c, last.name) then before[last.name := ConnectedFrom(env, last)] else before
  {
    hide AdoptedEntries, FirstNamed, ConnectedFrom, LastNamed, InCatalog;
    var init, last := sessions[..|sessions| - 1], sessions[|sessions| - 1];
    AdoptedSetAdd(c, handled, sessions);
    AdoptedEntriesAre(c, env, handled, init);
    AdoptedEntriesAre(c, env, handled, sessions);
    forall id | id in Adopted(c, handled, sessions)
      ensures AdoptedEntries(c, env, handled, sessions)[id] ==
              if id == last.name then ConnectedFrom(env, last) else AdoptedEntries(c, env, handled, init)[id]
    {
      LastNamedStep(sessions, id);
    }
  }

  lemma {:induction false} AdoptIsPointwise(c: Config, env: Env, s: State, handled: set<ProfileId>, sessions: seq<Session>)
    ensures AdoptAll(c, env, s, handled, sessions)
         == s.(registry := s.registry + AdoptedEntries(c, env, handled, sessions))
  {
    if sessions == [] {
      assert AdoptedEntries(c, env, handled, sessions) == map[];
    } else {
      var init, last := sessions[..|sessions| - 1], sessions[|sessions| - 1];
      AdoptIsPointwise(c, env, s, handled, init);
      AdoptedEntriesAdd(c, env, handled, sessions);
      MergeThenUpdate(s.registry, AdoptedEntries(c, env, handled, init), last.name, ConnectedFrom(env, last));
    }
  }

  lemma PointwiseUnlessSpawned(c: Config, env: Env, s: State, order: seq<ProfileId>, sessions: seq<Session>)
    requires Enumerates(order, s.registry)
    ensures ScanTick(c, env, s, order, sessions) == PointwiseTick(c, env, s, sessions)
       <==> ReconcileAll(c, env, s, s.registry, order, sessions).workers == s.workers
  {
    AdoptIsPointwise(c, env, ReconcileAll(c, env, s, s.registry, order, sessions), s.registry.Keys, sessions);
    if ReconcileAll(c, env, s, s.registry, order, sessions).workers == s.workers {
      ReconcileIsPointwise(c, env, s, order, sessions);
      assert Ids(order) == s.registry.Keys;
    }
  }

  /**
   * With no queued connect about to fire, a tick is the pointwise function, whatever order the
   * registry is walked in and however often a name occurs in the scan.
   */
  lemma TickIsPointwise(c: Config, env: Env, s: State, order: seq<ProfileId>, sessions: seq<Session>)
    requires NoDrain(s, sessions) && Enumerates(order, s.registry)
    ensures ScanTick(c, env, s, order, sessions) == PointwiseTick(c, env, s, sessions)
  {
    ReconcileIsPointwise(c, env, s, order, sessions);
    assert (set id | id in order) == s.registry.Keys;
    AdoptIsPointwise(c, env, ReconcileAll(c, env, s, s.registry, order, sessions), s.registry.Keys, sessions);
  }

  // ---------------------------------------------------------------------- when a queued connect fires

  /** At this entry the walk completes a teardown, which runs the queued connect or throws it away. */
  predicate Drains(c: Config, env: Env, s: State, sessions: seq<Session>, id: ProfileId) {
    id in Confirmed(s.registry, sessions) || id in Overdue(c, env, s.registry, sessions)
  }

  /** What the registry looks like to the gates of the queued connect. */
  function LeftFor(s: State, sessions: seq<Session>, done: set<ProfileId>, id: ProfileId): State {
    s.(registry := s.registry - (Dropped(s.registry, sessions) * done + {id}))
  }

  /**
   * Entry `k` is the first teardown the walk completes, the scan confirms it, and the queued connect
   * passes its gates against what the drops before it have left of the registry.
   */
  predicate QueueFiresAt(c: Config, env: Env, s: State, order: seq<ProfileId>, sessions: seq<Session>, k: nat)
    requires s.pending.Some? && k < |order|
  {
    && order[k] in Confirmed(s.registry, sessions)
    && (forall j :: 0 <= j < k ==> !Drains(c, env, s, sessions, order[j]))
    && ConnectAllowed(c, env, LeftFor(s, sessions, Ids(order[..k]), order[k]), s.pending.value, false)
  }

  predicate QueueFires(c: Config, env: Env, s: State, order: seq<ProfileId>, sessions: seq<Session>) {
    s.pending.Some? && exists k :: 0 <= k < |order| && QueueFiresAt(c, env, s, order, sessions, k)
  }

  lemma {:induction false} QuietWalk(c: Config, env: Env, s: State, order: seq<ProfileId>, sessions: seq<Session>)
    requires forall id :: id in order ==> id in s.registry && !Drains(c, env, s, sessions, id)
    ensures ReconcileAll(c, env, s, s.registry, order, sessions).workers == s.workers
  {
    if order != [] {
      assert order[|order| - 1] in order;
      QuietWalk(c, env, s, order[..|order| - 1], sessions);
    }
  }

  /** Once the queue is empty the rest of the walk starts nothing. */
  lemma {:induction false} WalkWithoutQueue(c: Config, env: Env, s: State, order: seq<ProfileId>, sessions: seq<Session>, k: nat, n: nat)
    requires k <= n <= |order| && forall id :: id in order ==> id in s.registry
    requires ReconcileAll(c, env, s, s.registry, order[..k], sessions).pending.None?
    ensures var t := ReconcileAll(c, env, s, s.registry, order[..n], sessions);
            t.pending.None? && t.workers == ReconcileAll(c, env, s, s.registry, order[..k], sessions).workers
    decreases n
  {
    if k < n {
      WalkWithoutQueue(c, env, s, order, sessions, k, n - 1);
      assert order[..n][..n - 1] == order[..n - 1];
    }
  }

  /** Refreshing and dropping leave the same conflicts as dropping alone. */
  lemma SameConflicts(c: Config, env: Env, r: Registry, sessions: seq<Session>, done: set<ProfileId>, id: ProfileId, idx: nat)
    requires idx < |c.profiles|
    ensures Conflicts(c, PartialRegistry(c, env, r, sessions, done) - {id}, idx)
       <==> Conflicts(c, r - (Dropped(r, sessions) * done + {id}), idx)
  {
    var a, b := PartialRegistry(c, env, r, sessions, done) - {id}, r - (Dropped(r, sessions) * done + {id});
    forall other ensures other in a && (a[other].Connected? || a[other].Connecting?)
                    <==> other in b && (b[other].Connected? || b[other].Connecting?) {
    }
  }

  lemma QueueUntouched(c: Config, env: Env, s: State, sessions: seq<Session>, done: set<ProfileId>)
    requires forall d :: d in done ==> !Drains(c, env, s, sessions, d)
    ensures var t := PartialTick(c, env, s, sessions, done);
            t.pending == s.pending && t.workers == s.workers && t.registry == PartialRegistry(c, env, s.registry, sessions, done)
  {
    assert Confirmed(s.registry, sessions) * done == {} && Overdue(c, env, s.registry, sessions) * done == {};
  }

  lemma DrainDecides(c: Config, env: Env, s: State, sessions: seq<Session>, done: set<ProfileId>, id: ProfileId)
    requires s.pending.Some? && id in s.registry && Drains(c, env, s, sessions, id)
    requires forall d :: d in done ==> d in s.registry && !Drains(c, env, s, sessions, d)
    ensures var t := ScanArm(c, env, PartialTick(c, env, s, sessions, done), id, s.registry[id], FirstNamed(sessions, id));
            && t.pending.None?
            && (t.workers == s.workers <==>
                !(id in Confirmed(s.registry, sessions) &&
                  ConnectAllowed(c, env, LeftFor(s, sessions, done, id), s.pending.value, false)))
  {
    hide PartialTick, PartialRegistry, Conflicts, FirstNamed;
    QueueUntouched(c, env, s, sessions, done);
    if s.pending.value < |c.profiles| {
      SameConflicts(c, env, s.registry, sessions, done, id, s.pending.value);
    }
  }

  lemma FirstDrainDecides(c: Config, env: Env, s: State, order: seq<ProfileId>, sessions: seq<Session>, k: nat)
    requires Enumerates(order, s.registry) && s.pending.Some? && k < |order|
    requires Drains(c, env, s, sessions, order[k]) && forall j :: 0 <= j < k ==> !Drains(c, env, s, sessions, order[j])
    ensures ReconcileAll(c, env, s, s.registry, order, sessions).workers == s.workers
       <==> !QueueFiresAt(c, env, s, order, sessions, k)
  {
    hide ScanArm, PartialTick, Drains, ConnectAllowed, Confirmed;
    QuietWalk(c, env, s, order[..k], sessions);
    ReconcileIsPointwise(c, env, s, order[..k], sessions);
    DrainDecides(c, env, s, sessions, Ids(order[..k]), order[k]);
    assert order[..k + 1][..k] == order[..k];
    WalkWithoutQueue(c, env, s, order, sessions, k + 1, |order|);
    assert order[..|order|] == order;
  }

  /**
   * A tick is the pointwise function exactly when no queued connect fires on the way, which the
   * registry, the scan and the order of the walk decide beforehand.
   */
  lemma TickIsPointwiseIff(c: Config, env: Env, s: State, order: seq<ProfileId>, sessions: seq<Session>)
    requires Enumerates(order, s.registry)
    ensures ScanTick(c, env, s, order, sessions) == PointwiseTick(c, env, s, sessions)
       <==> !QueueFires(c, env, s, order, sessions)
  {
    PointwiseUnlessSpawned(c, env, s, order, sessions);
    if s.pending.None? || forall j :: 0 <= j < |order| ==> !Drains(c, env, s, sessions, order[j]) {
      TickIsPointwise(c, env, s, order, sessions);
    } else {
      var k := FirstDrain(c, env, s, order, sessions);
      FirstDrainDecides(c, env, s, order, sessions, k);
    }
  }

  lemma FirstDrain(c: Config, env: Env, s: State, order: seq<ProfileId>, sessions: seq<Session>) returns (k: nat)
    requires exists j :: 0 <= j < |order| && Drains(c, env, s, sessions, order[j])
    ensures k < |order| && Drains(c, env, s, sessions, order[k])
    ensures forall j :: 0 <= j < k ==> !Drains(c, env, s, sessions, order[j])
  {
    k := 0;
    while !Drains(c, env, s, sessions, order[k])
      invariant k < |order| && forall j :: 0 <= j < k ==> !Drains(c, env, s, sessions, order[j])
      decreases |order| - k
    {
      k := k + 1;
    }
  }

  function TwoProfiles(a: ProfileId, b: ProfileId): Config {
    Config([Profile(a, false), Profile(b, false)], 30, 3, 2, 300, true, 3)
  }

  /** `a` is being torn down, a connect to `b` is queued behind it, `b` itself still shows as up. */
  function QueuedSwitch(a: ProfileId, b: ProfileId, details: Details): State {
    INITIAL.(registry := map[a := Disconnecting(0), b := Connected(0, details)], pending := Some(1))
  }

  lemma TeardownThenDrop(a: ProfileId, b: ProfileId, details: Details)
    requires a != b
    ensures var s := QueuedSwitch(a, b, details);
            ScanTick(TwoProfiles(a, b), Env(0, {b}), s, [a, b], []).registry == map[]
  {
    var c, env, s := TwoProfiles(a, b), Env(0, {b}), QueuedSwitch(a, b, details);
    assert [a, b][..1] == [a];
    var s1 := ScanArm(c, env, s, a, s.registry[a], None);
    assert ReconcileAll(c, env, s, s.registry, [a], []) == s1;
    assert s1.registry == map[b := Connecting(0, 1)];
    assert ReconcileAll(c, env, s, s.registry, [a, b], []) == HandleDrop(c, s1, b, true);
  }

  lemma DropThenTeardown(a: ProfileId, b: ProfileId, details: Details)
    requires a != b
    ensures var s := QueuedSwitch(a, b, details);
            ScanTick(TwoProfiles(a, b), Env(0, {b}), s, [b, a], []).registry == map[b := Connecting(0, 1)]
  {
    var c, env, s := TwoProfiles(a, b), Env(0, {b}), QueuedSwitch(a, b, details);
    assert [b, a][..1] == [b];
    var s1 := HandleDrop(c, s, b, true);
    assert ReconcileAll(c, env, s, s.registry, [b], []) == s1;
    assert s1.registry == map[a := Disconnecting(0)];
    assert Position(c.profiles, b) == Some(1);
    assert ReconcileAll(c, env, s, s.registry, [b, a], []) == CompleteDisconnect(c, env, s1, a);
  }

  /**
   * The premise is needed. With a switch to `b` queued behind the teardown of `a`, and `b` gone from
   * the kernel too, the tick keeps the queued connect or throws it away as a drop according to which
   * of the two it visits first.
   */
  lemma QueuedConnectDependsOnOrder(a: ProfileId, b: ProfileId, details: Details)
    requires a != b
    ensures var c, env, s := TwoProfiles(a, b), Env(0, {b}), QueuedSwitch(a, b, details);
            && Enumerates([a, b], s.registry) && Enumerates([b, a], s.registry)
            && !NoDrain(s, [])
            && b !in ScanTick(c, env, s, [a, b], []).registry
            && b in ScanTick(c, env, s, [b, a], []).registry
  {
    TeardownThenDrop(a, b, details);
    DropThenTeardown(a, b, details);
    assert a in Confirmed(QueuedSwitch(a, b, details).registry, []);
  }

  // ---------------------------------------------------------------------- one entry at a time

  /** `t` holds for `id` what a tick makes of registry `r`. */
  ghost predicate TickEntry(c: Config, env: Env, r: Registry, sessions: seq<Session>, t: Registry, id: ProfileId) {
    if id in r then
      var after := EntryAfter(c, env, id, r[id], FirstNamed(sessions, id));
      if after.Some? then id in t && t[id] == after.value else id !in t
    else if id in Adopted(c, r.Keys, sessions) then
      FirstNamed(sessions, id).Some? && id in t && t[id] == ConnectedFrom(env, LastNamed(sessions, id))
    else id !in t
  }

  ghost predicate TickRegistry(c: Config, env: Env, r: Registry, sessions: seq<Session>, t: Registry) {
    forall id :: TickEntry(c, env, r, sessions, t, id)
  }

  lemma TickEntries(c: Config, env: Env, s: State, sessions: seq<Session>)
    ensures TickRegistry(c, env, s.registry, sessions, PointwiseTick(c, env, s, sessions).registry)
  {
    var kept := PartialRegistry(c, env, s.registry, sessions, s.registry.Keys);
    var added := AdoptedEntries(c, env, s.registry.Keys, sessions);
    forall id ensures TickEntry(c, env, s.registry, sessions, kept + added, id) {
      if id in Adopted(c, s.registry.Keys, sessions) {
        FirstNamedOfAdopted(c, s.registry.Keys, sessions, id);
        assert id !in s.registry;
      }
    }
  }

  // ---------------------------------------------------------------------- convergence

  ghost predicate DistinctNames(sessions: seq<Session>) {
    forall i, j :: 0 <= i < j < |sessions| ==> sessions[i].name != sessions[j].name
  }

  lemma {:induction false} LastIsFirst(sessions: seq<Session>, name: ProfileId)
    requires DistinctNames(sessions) && FirstNamed(sessions, name).Some?
    ensures LastNamed(sessions, name) == FirstNamed(sessions, name).value
  {
    var last, first := LastNamed(sessions, name), FirstNamed(sessions, name).value;
    var i :| 0 <= i < |sessions| && sessions[i] == last;
    var j :| 0 <= j < |sessions| && sessions[j] == first;
    assert i == j;
  }

  /** Nothing in the registry moves under this scan any more. */
  ghost predicate Settled(c: Config, env: Env, registry: Registry, sessions: seq<Session>) {
    (forall id :: id in registry ==> EntryAfter(c, env, id, registry[id], FirstNamed(sessions, id)) == Some(registry[id])) &&
    Adopted(c, registry.Keys, sessions) == {}
  }

  /** After one tick no drop, confirmation or timeout is left to find. */
  ghost predicate Cleared(c: Config, env: Env, registry: Registry, sessions: seq<Session>) {
    (forall id :: id in registry ==> EntryAfter(c, env, id, registry[id], FirstNamed(sessions, id)).Some?) &&
    (forall id :: id in registry && registry[id].Connected? ==> FirstNamed(sessions, id).Some?)
  }

  lemma TickClears(c: Config, env: Env, s: State, sessions: seq<Session>)
    ensures Cleared(c, env, PointwiseTick(c, env, s, sessions).registry, sessions)
  {
    TickEntries(c, env, s, sessions);
    TickedIsCleared(c, env, s.registry, sessions, PointwiseTick(c, env, s, sessions).registry);
  }

  lemma TickedIsCleared(c: Config, env: Env, r: Registry, sessions: seq<Session>, t: Registry)
    requires TickRegistry(c, env, r, sessions, t)
    ensures Cleared(c, env, t, sessions)
  {
    forall id | id in t
      ensures EntryAfter(c, env, id, t[id], FirstNamed(sessions, id)).Some?
      ensures t[id].Connected? ==> FirstNamed(sessions, id).Some?
    {
      assert TickEntry(c, env, r, sessions, t, id);
    }
  }

  lemma NoneRearmed(c: Config)
    ensures DropRetries(c, {}) == map[] && DropTimers(c, {}) == multiset{}
  {
    assert Rearmed(c, {}) == {};
  }

  lemma ClearedFindsNothing(c: Config, env: Env, r: Registry, sessions: seq<Session>)
    requires Cleared(c, env, r, sessions)
    ensures Dropped(r, sessions) == {} && Confirmed(r, sessions) == {} && Overdue(c, env, r, sessions) == {}
    ensures PartialRegistry(c, env, r, sessions, r.Keys).Keys == r.Keys
  {
  }

  lemma NothingFound(c: Config, env: Env, s: State, sessions: seq<Session>, done: set<ProfileId>)
    requires Dropped(s.registry, sessions) == {} && Confirmed(s.registry, sessions) == {} && Overdue(c, env, s.registry, sessions) == {}
    ensures PartialTick(c, env, s, sessions, done) == s.(registry := PartialRegistry(c, env, s.registry, sessions, done))
  {
    NoneRearmed(c);
    var none: set<ProfileId> := {};
    assert none * done == none;
    assert s.retry + map[] == s.retry;
    assert s.scheduled + multiset{} == s.scheduled;
  }

  lemma AdoptedKeys(c: Config, env: Env, r: Registry, sessions: seq<Session>)
    requires PartialRegistry(c, env, r, sessions, r.Keys).Keys == r.Keys
    ensures (PartialRegistry(c, env, r, sessions, r.Keys) + AdoptedEntries(c, env, r.Keys, sessions)).Keys
         == r.Keys + Adopted(c, r.Keys, sessions)
  {
    assert AdoptedEntries(c, env, r.Keys, sessions).Keys == Adopted(c, r.Keys, sessions);
  }

  /** On a cleared registry a tick changes the registry alone. */
  lemma ClearedTick(c: Config, env: Env, s: State, sessions: seq<Session>)
    requires Cleared(c, env, s.registry, sessions)
    ensures Confirmed(s.registry, sessions) == {}
    ensures PointwiseTick(c, env, s, sessions) == s.(registry := PointwiseTick(c, env, s, sessions).registry)
    ensures s.registry.Keys + Adopted(c, s.registry.Keys, sessions) == PointwiseTick(c, env, s, sessions).registry.Keys
  {
    ClearedFindsNothing(c, env, s.registry, sessions);
    NothingFound(c, env, s, sessions, s.registry.Keys);
    AdoptedKeys(c, env, s.registry, sessions);
  }

  lemma SettledRegistry(c: Config, env: Env, r: Registry, sessions: seq<Session>)
    requires Settled(c, env, r, sessions)
    ensures PartialRegistry(c, env, r, sessions, r.Keys) == r
    ensures AdoptedEntries(c, env, r.Keys, sessions) == map[]
  {
  }

  lemma SettledTick(c: Config, env: Env, s: State, sessions: seq<Session>)
    requires Cleared(c, env, s.registry, sessions) && Settled(c, env, s.registry, sessions)
    ensures PointwiseTick(c, env, s, sessions) == s
  {
    ClearedTick(c, env, s, sessions);
    SettledRegistry(c, env, s.registry, sessions);
    assert s.registry + map[] == s.registry;
  }

  /** A tick from a cleared registry settles every entry it found, and leaves nothing to adopt. */
  lemma ClearedTickSettlesEntries(c: Config, env: Env, r: Registry, sessions: seq<Session>, t: Registry, id: ProfileId)
    requires Cleared(c, env, r, sessions) && TickEntry(c, env, r, sessions, t, id) && id in t
    requires id in r || DistinctNames(sessions)
    ensures EntryAfter(c, env, id, t[id], FirstNamed(sessions, id)) == Some(t[id])
  {
    if id !in r {
      LastIsFirst(sessions, id);
    }
  }

  lemma NothingLeftToAdopt(c: Config, env: Env, s: State, sessions: seq<Session>)
    requires Cleared(c, env, s.registry, sessions)
    ensures Adopted(c, PointwiseTick(c, env, s, sessions).registry.Keys, sessions) == {}
  {
    ClearedTick(c, env, s, sessions);
  }

  lemma ClearedTickSettles(c: Config, env: Env, s: State, sessions: seq<Session>)
    requires Cleared(c, env, s.registry, sessions)
    requires DistinctNames(sessions) || Adopted(c, s.registry.Keys, sessions) == {}
    ensures Settled(c, env, PointwiseTick(c, env, s, sessions).registry, sessions)
  {
    var t := PointwiseTick(c, env, s, sessions).registry;
    ClearedTick(c, env, s, sessions);
    NothingLeftToAdopt(c, env, s, sessions);
    TickEntries(c, env, s, sessions);
    forall id | id in t ensures EntryAfter(c, env, id, t[id], FirstNamed(sessions, id)) == Some(t[id]) {
      assert TickEntry(c, env, s.registry, sessions, t, id);
      ClearedTickSettlesEntries(c, env, s.registry, sessions, t, id);
    }
  }

  /**
   * Repeating a scan at a fixed clock converges. From the second tick on nothing at all changes,
   * and the second tick itself changes only the registry: it may adopt what the first tick gave up
   * on, but counts no drop and arms no retry.
   */
  lemma RepeatedScanConverges(c: Config, env: Env, s: State, sessions: seq<Session>, s1: State, s2: State,
                              o0: seq<ProfileId>, o1: seq<ProfileId>, o2: seq<ProfileId>)
    requires s.pending.None? && DistinctNames(sessions)
    requires Enumerates(o0, s.registry) && s1 == ScanTick(c, env, s, o0, sessions)
    requires Enumerates(o1, s1.registry) && s2 == ScanTick(c, env, s1, o1, sessions)
    requires Enumerates(o2, s2.registry)
    ensures ScanTick(c, env, s2, o2, sessions) == s2
    ensures s2 == s1.(registry := s2.registry)
  {
    TickIsPointwise(c, env, s, o0, sessions);
    TickClears(c, env, s, sessions);
    TickIsPointwise(c, env, s1, o1, sessions);
    TickClears(c, env, s1, sessions);
    ClearedTick(c, env, s1, sessions);
    ClearedTickSettles(c, env, s1, sessions);
    TickIsPointwise(c, env, s2, o2, sessions);
    SettledTick(c, env, s2, sessions);
  }

  /** A name reported twice costs one tick more: adopted from its last session, refreshed from its first. */
  lemma RepeatedScanConvergesWithDuplicates(c: Config, env: Env, s: State, sessions: seq<Session>)
    requires s.pending.None?
    ensures var s3 := PointwiseTick(c, env, PointwiseTick(c, env, PointwiseTick(c, env, s, sessions), sessions), sessions);
            PointwiseTick(c, env, s3, sessions) == s3
  {
    var s1 := PointwiseTick(c, env, s, sessions);
    var s2 := PointwiseTick(c, env, s1, sessions);
    var s3 := PointwiseTick(c, env, s2, sessions);
    TickClears(c, env, s, sessions);
    TickClears(c, env, s1, sessions);
    TickClears(c, env, s2, sessions);
    NothingLeftToAdopt(c, env, s1, sessions);
    ClearedTickSettles(c, env, s2, sessions);
    SettledTick(c, env, s3, sessions);
  }

  // ---------------------------------------------------------------------- who is Connected

  function ConnectedIds(registry: Registry): set<ProfileId> {
    set id | id in registry && registry[id].Connected?
  }

  /** The profile whose connect is queued. */
  function Target(c: Config, s: State): set<ProfileId> {
    if s.pending.Some? && s.pending.value < |c.profiles| then {c.profiles[s.pending.value].name} else {}
  }

  /** The tunnel a queued connect takes over, if it fires. */
  function Switched(c: Config, env: Env, s: State, order: seq<ProfileId>, sessions: seq<Session>): set<ProfileId> {
    if QueueFires(c, env, s, order, sessions) then Target(c, s) else {}
  }

  /** From `s` to `t` the tunnels `lost` were counted out, and at most one queued connect has fired. */
  ghost predicate CountedOut(c: Config, s: State, t: State, lost: set<ProfileId>) {
    && ConnectedIds(t.registry) == ConnectedIds(s.registry) - lost - (if t.workers != s.workers then Target(c, s) else {})
    && t.drops == s.drops + |lost|
    && (t.pending == s.pending || t.pending.None?) && s.workers <= t.workers
    && (t.workers != s.workers ==> t.pending.None? && s.pending.Some?)
  }

  lemma CountedTwice(c: Config, s: State, t: State, u: State, lost: set<ProfileId>, more: set<ProfileId>)
    requires CountedOut(c, s, t, lost) && CountedOut(c, t, u, more) && lost !! more
    ensures CountedOut(c, s, u, lost + more)
  {
    hide ConnectedIds;
    assert |lost + more| == |lost| + |more|;
    assert u.workers == s.workers <==> t.workers == s.workers && u.workers == t.workers;
  }

  /** What one arm does to the set of Connected tunnels. */
  lemma ArmConnected(c: Config, env: Env, s: State, name: ProfileId, snap: Connection, seen: Option<Session>)
    requires IsConnectedIn(s.registry, name) ==> snap.Connected?
    ensures CountedOut(c, s, ScanArm(c, env, s, name, snap, seen), if snap.Connected? && seen.None? then {name} else {})
  {
    match (snap, seen)
    case (Disconnecting(_), None) => DrainConnected(c, env, s, name);
    case (Disconnecting(_), Some(_)) =>
    case (Connecting(_, _), _) =>
    case (Connected(_, _), Some(session)) => RefreshKeepsConnected(c, s, name, session);
    case (Connected(_, _), None) =>
    case (Disconnected(_), _) =>
    case (_, Some(session)) => RefreshKeepsConnected(c, s, name, session);
    case (_, None) =>
  }

  predicate IsConnectedIn(registry: Registry, id: ProfileId) {
    id in registry && registry[id].Connected?
  }

  lemma RefreshKeepsConnected(c: Config, s: State, name: ProfileId, session: Session)
    ensures ConnectedIds(RefreshConnected(c, s, name, session).registry) == ConnectedIds(s.registry)
  {
  }

  lemma DrainConnected(c: Config, env: Env, s: State, name: ProfileId)
    requires !IsConnectedIn(s.registry, name)
    ensures CountedOut(c, s, CompleteDisconnect(c, env, s, name), {})
  {
    var gone := s.registry - {name};
    assert ConnectedIds(gone) == ConnectedIds(s.registry);
    if s.pending.Some? && s.pending.value < |c.profiles| {
      var target := c.profiles[s.pending.value].name;
      assert forall entry: Connection :: entry.Connecting? ==> ConnectedIds(gone[target := entry]) == ConnectedIds(gone) - {target};
    }
  }

  lemma OnlyOut(c: Config, s: State, t: State, lost: set<ProfileId>, id: ProfileId)
    requires CountedOut(c, s, t, lost)
    ensures IsConnectedIn(t.registry, id) ==> IsConnectedIn(s.registry, id)
  {
    assert id in ConnectedIds(t.registry) ==> id in ConnectedIds(s.registry);
  }

  lemma AddLost(dropped: set<ProfileId>, init: seq<ProfileId>, last: ProfileId)
    requires last !in init
    ensures dropped * Ids(init + [last]) == dropped * Ids(init) + if last in dropped then {last} else {}
    ensures dropped * Ids(init) !! if last in dropped then {last} else {}
  {
    assert Ids(init + [last]) == Ids(init) + {last};
  }

  /** Walked so far: the dropped tunnels are out and counted, and at most one queued connect has fired. */
  lemma {:induction false} WalkConnected(c: Config, env: Env, s: State, order: seq<ProfileId>, sessions: seq<Session>)
    requires forall id :: id in order ==> id in s.registry
    requires forall i, j :: 0 <= i < j < |order| ==> order[i] != order[j]
    ensures CountedOut(c, s, ReconcileAll(c, env, s, s.registry, order, sessions), Dropped(s.registry, sessions) * Ids(order))
  {
    if order == [] {
      assert Dropped(s.registry, sessions) * Ids(order) == {};
    } else {
      hide CountedOut, ScanArm, Dropped, Ids;
      var init, last := order[..|order| - 1], order[|order| - 1];
      WalkConnected(c, env, s, init, sessions);
      assert order == init + [last] && last !in init;
      ArmCounts(c, env, s, ReconcileAll(c, env, s, s.registry, init, sessions), init, last, sessions);
    }
  }

  /** One more entry of the walk. */
  lemma ArmCounts(c: Config, env: Env, s: State, before: State, init: seq<ProfileId>, last: ProfileId, sessions: seq<Session>)
    requires last in s.registry && last !in init && CountedOut(c, s, before, Dropped(s.registry, sessions) * Ids(init))
    ensures CountedOut(c, s, ScanArm(c, env, before, last, s.registry[last], FirstNamed(sessions, last)),
                       Dropped(s.registry, sessions) * Ids(init + [last]))
  {
    hide CountedOut, ScanArm, Dropped, Ids;
    var dropped := Dropped(s.registry, sessions);
    OnlyOut(c, s, before, dropped * Ids(init), last);
    ArmConnected(c, env, before, last, s.registry[last], FirstNamed(sessions, last));
    WhoIsDropped(s.registry, sessions, last);
    AddLost(dropped, init, last);
    CountedTwice(c, s, before, ScanArm(c, env, before, last, s.registry[last], FirstNamed(sessions, last)), dropped * Ids(init),
                 if last in dropped then {last} else {});
  }

  lemma WhoIsDropped(r: Registry, sessions: seq<Session>, id: ProfileId)
    requires id in r
    ensures id in Dropped(r, sessions) <==> r[id].Connected? && FirstNamed(sessions, id).None?
  {
  }

  lemma AdoptionConnected(c: Config, env: Env, t: State, handled: set<ProfileId>, sessions: seq<Session>)
    ensures var u := AdoptAll(c, env, t, handled, sessions);
            ConnectedIds(u.registry) == ConnectedIds(t.registry) + Adopted(c, handled, sessions) && u.drops == t.drops
  {
    AdoptIsPointwise(c, env, t, handled, sessions);
    AdoptedEntriesAre(c, env, handled, sessions);
    var added := AdoptedEntries(c, env, handled, sessions);
    forall id
      ensures id in ConnectedIds(t.registry + added) <==> id in ConnectedIds(t.registry) + Adopted(c, handled, sessions)
    {
      if id in Adopted(c, handled, sessions) {
        assert added[id] == ConnectedFrom(env, LastNamed(sessions, id));
      }
    }
  }

  /** Whether a queued connect has fired shows in the workers. */
  lemma FiredShows(c: Config, env: Env, s: State, order: seq<ProfileId>, sessions: seq<Session>)
    requires Enumerates(order, s.registry)
    ensures QueueFires(c, env, s, order, sessions) <==> ReconcileAll(c, env, s, s.registry, order, sessions).workers != s.workers
  {
    PointwiseUnlessSpawned(c, env, s, order, sessions);
    TickIsPointwiseIff(c, env, s, order, sessions);
  }

  /**
   * A tick loses exactly the dropped tunnels, each counted once, and the one a queued connect takes
   * over if it fires, and gains exactly the adopted ones.
   */
  lemma TickConnectedIds(c: Config, env: Env, s: State, order: seq<ProfileId>, sessions: seq<Session>)
    requires Enumerates(order, s.registry)
    ensures var t := ScanTick(c, env, s, order, sessions);
            && ConnectedIds(t.registry) == ConnectedIds(s.registry) - Dropped(s.registry, sessions)
                                         - Switched(c, env, s, order, sessions) + Adopted(c, s.registry.Keys, sessions)
            && Dropped(s.registry, sessions) <= ConnectedIds(s.registry)
            && Adopted(c, s.registry.Keys, sessions) !! s.registry.Keys
            && t.drops == s.drops + |Dropped(s.registry, sessions)|
  {
    hide ScanArm, QueueFires, ConnectedIds, Adopted;
    WalkConnected(c, env, s, order, sessions);
    AdoptionConnected(c, env, ReconcileAll(c, env, s, s.registry, order, sessions), s.registry.Keys, sessions);
    FiredShows(c, env, s, order, sessions);
    AllWalked(s.registry, order, sessions);
    NotYetEntered(c, s.registry, sessions);
  }

  lemma AllWalked(r: Registry, order: seq<ProfileId>, sessions: seq<Session>)
    requires Enumerates(order, r)
    ensures Dropped(r, sessions) * Ids(order) == Dropped(r, sessions) <= ConnectedIds(r)
  {
  }

  lemma NotYetEntered(c: Config, r: Registry, sessions: seq<Session>)
    ensures Adopted(c, r.Keys, sessions) !! r.Keys
  {
  }

  /** A refresh takes the session's metadata and keeps everything else, the start time included. */
  lemma RefreshKeepsIdentity(c: Config, env: Env, s: State, order: seq<ProfileId>, sessions: seq<Session>, id: ProfileId)
    requires Enumerates(order, s.registry) && !QueueFires(c, env, s, order, sessions)
    requires id in ConnectedIds(s.registry) && InCatalog(c, id) && FirstNamed(sessions, id).Some?
    ensures var t := ScanTick(c, env, s, order, sessions);
            var was := s.registry[id];
            id in t.registry && t.registry[id] ==
              Connected(was.since, Details(was.details.interface, was.details.authoritative, FirstNamed(sessions, id).value.metadata))
  {
    TickIsPointwiseIff(c, env, s, order, sessions);
    TickEntries(c, env, s, sessions);
    assert TickEntry(c, env, s.registry, sessions, PointwiseTick(c, env, s, sessions).registry, id);
  }

  /**
   * After a disconnect at one time, a scan at another removes the entry as soon as the kernel no longer
   * shows the tunnel, and otherwise exactly when the timeout has run out since the request.
   */
  lemma TeardownTimeout(c: Config, asked: Env, s: State, id: ProfileId, env: Env, order: seq<ProfileId>, sessions: seq<Session>)
    requires s.pending.None? && id in s.registry && InCatalog(c, id)
    requires Enumerates(order, DisconnectSpecific(c, asked, s, id).registry)
    ensures var t := ScanTick(c, env, DisconnectSpecific(c, asked, s, id), order, sessions);
            id in t.registry <==>
              FirstNamed(sessions, id).Some? && c.disconnectTimeout > 0 && env.now < asked.now + c.disconnectTimeout
  {
    hide PointwiseTick, ScanTick, FirstNamed, InCatalog, ConnectedFrom;
    var d := DisconnectSpecific(c, asked, s, id);
    TickIsPointwise(c, env, d, order, sessions);
    TickEntries(c, env, d, sessions);
    assert TickEntry(c, env, d.registry, sessions, PointwiseTick(c, env, d, sessions).registry, id);
  }
}
