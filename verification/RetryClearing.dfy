/**
 * Clearing the way for a retry chain: how the other tunnels and the queue can be got out of its way by
 * events the program itself produces. Results come from workers that owe one, timeouts from tunnels
 * that are coming up; everything else goes by scans.
 */
module RetryClearing {
  import opened Wrappers
  import opened Lifecycle
  import opened Reconciliation
  import opened LifecycleRuns
  import opened RetryChain
  import opened RetryQueue

  // ---------------------------------------------------------------------- runs

  /** Some feasible run of the chain of `a` leads from `y` to `z` with `n` retry connects. */
  ghost predicate Leads(c: Config, y: Sys, z: Sys, a: ProfileId, n: nat) {
    exists ys: seq<Sys>, es: seq<Event> ::
      FeasibleRun(c, ys, es, a) && ys[0] == y && ys[|es|] == z && RetryTotal(ys, es, a, |es|) == n
  }

  /** No feasible run of the chain of `a` from here starts more retry connects than the budget. */
  ghost predicate WithinBudget(c: Config, y: Sys, a: ProfileId) {
    forall ys: seq<Sys>, es: seq<Event> :: FeasibleRun(c, ys, es, a) && ys[0] == y ==> RetryTotal(ys, es, a, |es|) <= c.maxRetries
  }

  lemma LeadsNowhere(c: Config, y: Sys, a: ProfileId)
    requires !IsConnected(y.core, a)
    ensures Leads(c, y, y, a, 0)
  {
    assert FeasibleRun(c, [y], [], a) && RetryTotal([y], [], a, 0) == 0;
  }

  lemma {:induction false} TotalOfPrefix(ys: seq<Sys>, es: seq<Event>, ys': seq<Sys>, es': seq<Event>, a: ProfileId, n: nat)
    requires |ys| == |es| + 1 && |ys'| == |es'| + 1 && ys <= ys' && es <= es' && n <= |es|
    ensures RetryTotal(ys', es', a, n) == RetryTotal(ys, es, a, n)
  {
    if n > 0 {
      TotalOfPrefix(ys, es, ys', es', a, n - 1);
    }
  }

  lemma ExtendRun(c: Config, ys: seq<Sys>, es: seq<Event>, e: Event, z: Sys, a: ProfileId)
    requires FeasibleRun(c, ys, es, a) && ChainStep(c, ys[|es|], e, z) && Feasible(ys[|es|], e) && !IsConnected(z.core, a)
    ensures FeasibleRun(c, ys + [z], es + [e], a)
  {
    hide SysStep, Step, Feasible, Wellformed;
    var zs, fs := ys + [z], es + [e];
    forall i | 0 <= i < |fs| ensures ChainStep(c, zs[i], fs[i], zs[i + 1]) && Feasible(zs[i], fs[i]) {
      if i < |es| {
        StepOfChain(c, ys, es, a, i);
        assert Feasible(ys[i], es[i]);
        assert zs[i] == ys[i] && zs[i + 1] == ys[i + 1] && fs[i] == es[i];
      }
    }
  }

  lemma LeadsOn(c: Config, y: Sys, z: Sys, a: ProfileId, n: nat, e: Event, u: Sys)
    requires Leads(c, y, z, a, n) && ChainStep(c, z, e, u) && Feasible(z, e) && !IsConnected(u.core, a)
    ensures Leads(c, y, u, a, n + RetryConnects(z, e, u, a))
  {
    hide ChainStep, Feasible, RetryConnects;
    var ys: seq<Sys>, es: seq<Event> :|
      FeasibleRun(c, ys, es, a) && ys[0] == y && ys[|es|] == z && RetryTotal(ys, es, a, |es|) == n;
    ExtendRun(c, ys, es, e, u, a);
    TotalOfPrefix(ys, es, ys + [u], es + [e], a, |es|);
    assert (ys + [u])[|es + [e]|] == u;
  }

  lemma Overrun(c: Config, y: Sys, z: Sys, a: ProfileId, n: nat)
    requires Leads(c, y, z, a, n) && n > c.maxRetries
    ensures !WithinBudget(c, y, a)
  {
  }

  // ---------------------------------------------------------------------- clearing the way: timeouts

  ghost predicate OthersInactive(s: State, a: ProfileId) {
    forall id :: id in s.registry && id != a ==> s.registry[id].Disconnected?
  }

  function OthersComingUp(s: State, a: ProfileId): set<ProfileId> {
    set id | id in s.registry && id != a && ComingUp(s, id)
  }

  /** The state after the timeouts of `gone`. */
  function Expired(s: State, gone: set<ProfileId>): State {
    s.(registry := s.registry - gone, retry := s.retry - gone, pending := if gone == {} then s.pending else None)
  }

  /** An event that starts nothing and reports nothing changes the core alone. */
  lemma CoreStep(c: Config, y: Sys, e: Event, core: State)
    requires SysWellformed(y, e) && !e.User? && !e.NetworkChange? && !e.TimerFires? && !e.ConnectResult?
    requires Step(c, y.core, e) == core && core.scheduled == y.core.scheduled && core.workers == y.core.workers
    ensures ChainStep(c, y, e, Sys(core, y.asleep, y.inFlight))
  {
    hide Step;
    assert y.asleep + (core.scheduled - y.core.scheduled) == y.asleep;
    assert y.inFlight + (core.workers - y.core.workers) == y.inFlight;
  }

  lemma ExpireOne(c: Config, y: Sys, gone: set<ProfileId>, id: ProfileId)
    requires id !in gone && ComingUp(y.core, id)
    ensures var z := Sys(Expired(y.core, gone), y.asleep, y.inFlight);
            var u := Sys(Expired(y.core, gone + {id}), y.asleep, y.inFlight);
            ChainStep(c, z, Timeout(id), u) && Feasible(z, Timeout(id)) && u.core.workers == z.core.workers
  {
    var z := Sys(Expired(y.core, gone), y.asleep, y.inFlight);
    var u := Sys(Expired(y.core, gone + {id}), y.asleep, y.inFlight);
    assert y.core.registry - gone - {id} == y.core.registry - (gone + {id});
    assert y.core.retry - gone - {id} == y.core.retry - (gone + {id});
    CoreStep(c, z, Timeout(id), u.core);
  }

  lemma StillNotUp(s: State, gone: set<ProfileId>, a: ProfileId)
    requires !IsConnected(s, a)
    ensures !IsConnected(Expired(s, gone), a)
  {
  }

  /** The other tunnels that are coming up time out one by one. */
  lemma ExpireOthers(c: Config, y0: Sys, y: Sys, a: ProfileId, n: nat) returns (z: Sys)
    requires Leads(c, y0, y, a, n) && !IsConnected(y.core, a)
    ensures Leads(c, y0, z, a, n)
    ensures z == Sys(Expired(y.core, OthersComingUp(y.core, a)), y.asleep, y.inFlight)
  {
    hide Leads;
    var gone: set<ProfileId> := {};
    var rest := OthersComingUp(y.core, a);
    z := y;
    assert y.core.registry - {} == y.core.registry && y.core.retry - {} == y.core.retry;
    while rest != {}
      invariant gone + rest == OthersComingUp(y.core, a) && gone !! rest
      invariant z == Sys(Expired(y.core, gone), y.asleep, y.inFlight) && Leads(c, y0, z, a, n)
    {
      hide ChainStep, Feasible, Expired, IsConnected;
      var id :| id in rest;
      var u := Sys(Expired(y.core, gone + {id}), y.asleep, y.inFlight);
      ExpireOne(c, y, gone, id);
      StillNotUp(y.core, gone + {id}, a);
      LeadsOn(c, y0, z, a, n, Timeout(id), u);
      gone, rest, z := gone + {id}, rest - {id}, u;
    }
    assert gone == OthersComingUp(y.core, a);
  }

  // ---------------------------------------------------------------------- clearing the way: a scan

  /** The registry, entry by entry, in some order. */
  lemma Listing(r: Registry) returns (order: seq<ProfileId>)
    ensures Enumerates(order, r)
  {
    order := [];
    var rest := r.Keys;
    while rest != {}
      invariant rest <= r.Keys
      invariant forall id :: id in order <==> id in r && id !in rest
      invariant forall i, j :: 0 <= i < j < |order| ==> order[i] != order[j]
    {
      var id :| id in rest;
      order := order + [id];
      rest := rest - {id};
    }
  }

  /** A time at which every teardown in the registry is overdue. */
  lemma LateEnough(c: Config, r: Registry) returns (now: nat)
    ensures forall id :: id in r && r[id].Disconnecting? ==> r[id].startedAt + c.disconnectTimeout <= now
  {
    now := 0;
    var rest := r.Keys;
    while rest != {}
      invariant rest <= r.Keys
      invariant forall id :: id in r && id !in rest && r[id].Disconnecting? ==> r[id].startedAt + c.disconnectTimeout <= now
    {
      var id :| id in rest;
      rest := rest - {id};
      if r[id].Disconnecting? && now < r[id].startedAt + c.disconnectTimeout {
        now := r[id].startedAt + c.disconnectTimeout;
      }
    }
  }

  function SessionOf(id: ProfileId): Session {
    Session(id, None, "", false, EMPTY_METADATA)
  }

  /** The kernel still shows exactly the tunnels being torn down. */
  function Dying(order: seq<ProfileId>, r: Registry): (sessions: seq<Session>)
    ensures forall x :: x in sessions ==> x.name in order && x.name in r && r[x.name].Disconnecting?
    ensures forall id :: id in order && id in r && r[id].Disconnecting? ==> SessionOf(id) in sessions
  {
    if order == [] then []
    else
      var id := order[0];
      (if id in r && r[id].Disconnecting? then [SessionOf(id)] else []) + Dying(order[1..], r)
  }

  lemma DyingAreSeen(order: seq<ProfileId>, r: Registry, id: ProfileId)
    requires id in order && id in r
    ensures FirstNamed(Dying(order, r), id).Some? <==> r[id].Disconnecting?
  {
    if r[id].Disconnecting? {
      FirstNamedExists(Dying(order, r), SessionOf(id));
    }
  }

  function Kept(r: Registry): Registry {
    map id | id in r && (r[id].Connecting? || r[id].Disconnected?) :: r[id]
  }

  predicate AnyTeardown(r: Registry) {
    exists id :: id in r && r[id].Disconnecting?
  }

  /** What a tick does that confirms no teardown, field by field. */
  lemma CalmTick(c: Config, env: Env, s: State, order: seq<ProfileId>, sessions: seq<Session>, dropped: set<ProfileId>)
    requires Enumerates(order, s.registry)
    requires Confirmed(s.registry, sessions) == {} && Dropped(s.registry, sessions) == dropped
    ensures var t := ScanTick(c, env, s, order, sessions);
            && t.retry == s.retry + DropRetries(c, dropped) && t.scheduled == s.scheduled + DropTimers(c, dropped)
            && t.workers == s.workers
            && t.pending == (if Overdue(c, env, s.registry, sessions) == {} then s.pending else None)
    ensures TickRegistry(c, env, s.registry, sessions, ScanTick(c, env, s, order, sessions).registry)
  {
    TickIsPointwise(c, env, s, order, sessions);
    TickEntries(c, env, s, sessions);
    hide ScanTick, TickRegistry, AdoptedEntries, PartialRegistry, Confirmed, DropRetries, DropTimers;
    assert dropped * s.registry.Keys == dropped;
    assert Overdue(c, env, s.registry, sessions) * s.registry.Keys == Overdue(c, env, s.registry, sessions);
    var none: set<ProfileId> := {};
    assert none * s.registry.Keys == none;
  }

  /** Teardowns that have timed out and tunnels that have vanished go; nothing that is queued fires. */
  lemma ClearingScan(c: Config, env: Env, s: State, order: seq<ProfileId>, dropped: set<ProfileId>)
    requires Enumerates(order, s.registry)
    requires forall id :: id in s.registry && s.registry[id].Disconnecting? ==> s.registry[id].startedAt + c.disconnectTimeout <= env.now
    requires dropped == Dropped(s.registry, Dying(order, s.registry))
    ensures var t := ScanTick(c, env, s, order, Dying(order, s.registry));
            && t.registry == Kept(s.registry) && t.workers == s.workers
            && t.pending == (if AnyTeardown(s.registry) then None else s.pending)
            && t.retry == s.retry + DropRetries(c, dropped) && t.scheduled == s.scheduled + DropTimers(c, dropped)
    ensures forall id :: id in dropped <==> IsConnected(s, id)
  {
    var sessions := Dying(order, s.registry);
    forall id | id in s.registry ensures FirstNamed(sessions, id).Some? <==> s.registry[id].Disconnecting? {
      DyingAreSeen(order, s.registry, id);
    }
    assert Confirmed(s.registry, sessions) == {};
    hide ScanTick, TickRegistry, Kept, FirstNamed, DropRetries, DropTimers;
    CalmTick(c, env, s, order, sessions, dropped);
    ClearingRegistry(c, env, s, order, ScanTick(c, env, s, order, sessions).registry);
    assert forall id :: id in s.registry && s.registry[id].Disconnecting? ==> id in Overdue(c, env, s.registry, sessions);
  }

  lemma ClearingRegistry(c: Config, env: Env, s: State, order: seq<ProfileId>, t: Registry)
    requires Enumerates(order, s.registry)
    requires forall id :: id in s.registry && s.registry[id].Disconnecting? ==> s.registry[id].startedAt + c.disconnectTimeout <= env.now
    requires TickRegistry(c, env, s.registry, Dying(order, s.registry), t)
    ensures t == Kept(s.registry)
  {
    var sessions := Dying(order, s.registry);
    forall id ensures id in t <==> id in Kept(s.registry)
      ensures id in t ==> t[id] == s.registry[id]
    {
      assert TickEntry(c, env, s.registry, sessions, t, id);
      if id in s.registry {
        DyingAreSeen(order, s.registry, id);
      }
    }
  }

  // ---------------------------------------------------------------------- the others are out of the way

  /** `b` was up or had failed, and nothing has happened to it but that a scan has taken it down. */
  predicate Undisturbed(s: State, t: State, b: ProfileId) {
    && (b in s.registry ==> s.registry[b].Connected? || s.registry[b].Disconnected?)
    && (IsDown(t, b) <==> IsDown(s, b)) && IsGone(t, b)
    && (IsDown(s, b) ==> RetryKept(s, t, b))
  }

  /** Nothing about `a` has changed, and no other tunnel is active. */
  ghost predicate Alone(c: Config, y: Sys, z: Sys, a: ProfileId) {
    && Inv(c, z.core) && OthersInactive(z.core, a)
    && EntryKept(y.core, z.core, a) && RetryKept(y.core, z.core, a)
    && (forall m :: Aims(c, m, a) ==> z.asleep[m] == y.asleep[m])
  }

  /** The queue has been emptied, or it is as it was and so are the others. */
  ghost predicate QueueAsBefore(y: Sys, z: Sys, a: ProfileId) {
    z.core.pending.None? ||
    (z.core.pending == y.core.pending && y.asleep <= z.asleep && forall b :: b != a ==> Undisturbed(y.core, z.core, b))
  }

  lemma OthersMiss(c: Config, dropped: set<ProfileId>, a: ProfileId, m: Timer)
    requires a !in dropped && Aims(c, m, a)
    ensures DropTimers(c, dropped)[m] == 0
  {
  }

  lemma OthersKeepRetry(c: Config, s: State, t: State, dropped: set<ProfileId>, b: ProfileId)
    requires b !in dropped && t.retry == s.retry + DropRetries(c, dropped)
    ensures RetryKept(s, t, b)
  {
  }

  lemma ScanStep(c: Config, y: Sys, env: Env, order: seq<ProfileId>, sessions: seq<Session>, core: State, timers: multiset<Timer>)
    requires Enumerates(order, y.core.registry) && core == ScanTick(c, env, y.core, order, sessions)
    requires core.scheduled == y.core.scheduled + timers && core.workers == y.core.workers
    ensures ChainStep(c, y, Scan(env, order, sessions), Sys(core, y.asleep + timers, y.inFlight))
  {
    GrowthOnly(y.core.scheduled, timers);
    assert y.inFlight + (core.workers - y.core.workers) == y.inFlight;
  }

  lemma ClearOthers(c: Config, y0: Sys, y: Sys, a: ProfileId, n: nat) returns (z: Sys)
    requires Leads(c, y0, y, a, n) && Inv(c, y.core) && Idle(y.core.registry, a)
    ensures Leads(c, y0, z, a, n) && Alone(c, y, z, a) && QueueAsBefore(y, z, a) && z.inFlight == y.inFlight
  {
    hide Leads, ScanTick, Alone, QueueAsBefore, Dying;
    var x := ExpireOthers(c, y0, y, a, n);
    var order := Listing(x.core.registry);
    var now := LateEnough(c, x.core.registry);
    var env, sessions := Env(now, {}), Dying(order, x.core.registry);
    var core := ScanTick(c, env, x.core, order, sessions);
    var dropped := Dropped(x.core.registry, sessions);
    ClearingScan(c, env, x.core, order, dropped);
    z := Sys(core, x.asleep + DropTimers(c, dropped), x.inFlight);
    ExpiryKeepsInv(c, y.core, OthersComingUp(y.core, a));
    ScanLeads(c, y0, x, a, n, env, order, sessions, z, DropTimers(c, dropped));
    ClearedIsAlone(c, y, x, z, dropped, a);
  }

  /** A scan as the next event of a run. */
  lemma ScanLeads(c: Config, y0: Sys, y: Sys, a: ProfileId, n: nat, env: Env, order: seq<ProfileId>, sessions: seq<Session>,
                  z: Sys, timers: multiset<Timer>)
    requires Leads(c, y0, y, a, n) && Inv(c, y.core) && Enumerates(order, y.core.registry)
    requires z == Sys(ScanTick(c, env, y.core, order, sessions), y.asleep + timers, y.inFlight)
    requires z.core.scheduled == y.core.scheduled + timers && z.core.workers == y.core.workers && !IsConnected(z.core, a)
    ensures Leads(c, y0, z, a, n) && Inv(c, z.core)
  {
    hide Leads, ScanTick, Inv;
    ScanStep(c, y, env, order, sessions, z.core, timers);
    LeadsOn(c, y0, y, a, n, Scan(env, order, sessions), z);
    StepKeepsInv(c, y.core, Scan(env, order, sessions));
  }

  lemma ExpiryKeepsInv(c: Config, s: State, gone: set<ProfileId>)
    requires Inv(c, s)
    ensures Inv(c, Expired(s, gone))
  {
  }

  lemma ClearedIsAlone(c: Config, y: Sys, x: Sys, z: Sys, dropped: set<ProfileId>, a: ProfileId)
    requires Idle(y.core.registry, a) && Inv(c, z.core)
    requires x == Sys(Expired(y.core, OthersComingUp(y.core, a)), y.asleep, y.inFlight)
    requires forall id :: id in dropped <==> IsConnected(x.core, id)
    requires z.core.registry == Kept(x.core.registry) && z.core.retry == x.core.retry + DropRetries(c, dropped)
    requires z.core.pending == if AnyTeardown(x.core.registry) then None else x.core.pending
    requires z.asleep == x.asleep + DropTimers(c, dropped)
    ensures Alone(c, y, z, a) && QueueAsBefore(y, z, a)
  {
    OthersKeepRetry(c, x.core, z.core, dropped, a);
    forall m | Aims(c, m, a) ensures z.asleep[m] == y.asleep[m] {
      OthersMiss(c, dropped, a, m);
    }
    if z.core.pending.Some? {
      assert OthersComingUp(y.core, a) == {};
      forall b | b != a ensures Undisturbed(y.core, z.core, b) {
        assert b in y.core.registry ==> !ComingUp(y.core, b) by {
          assert b !in OthersComingUp(y.core, a);
        }
        if IsDown(y.core, b) {
          OthersKeepRetry(c, x.core, z.core, dropped, b);
        }
      }
    }
  }

  // ---------------------------------------------------------------------- emptying the queue

  /** Every entry is coming up or has failed. */
  predicate NoneUp(r: Registry) {
    forall id :: id in r ==> r[id].Connecting? || r[id].Disconnected?
  }

  function Up(env: Env, r: Registry, b: ProfileId): Registry {
    r[b := ConnectedFrom(env, SessionOf(b))]
  }

  /** A tunnel started from outside is adopted. */
  lemma AdoptingScan(c: Config, env: Env, s: State, order: seq<ProfileId>, b: ProfileId)
    requires Enumerates(order, s.registry) && NoneUp(s.registry) && b !in s.registry && InCatalog(c, b)
    ensures var t := ScanTick(c, env, s, order, [SessionOf(b)]);
            && t.registry == Up(env, s.registry, b) && t.workers == s.workers && t.pending == s.pending
            && t.retry == s.retry && t.scheduled == s.scheduled
  {
    var sessions := [SessionOf(b)];
    assert Dropped(s.registry, sessions) == {} && Confirmed(s.registry, sessions) == {} && Overdue(c, env, s.registry, sessions) == {};
    CalmTick(c, env, s, order, sessions, {});
    NoneRearmed(c);
    hide ScanTick, Dropped, Confirmed, Overdue;
    assert s.retry + map[] == s.retry && s.scheduled + multiset{} == s.scheduled;
    AdoptedRegistry(c, env, s.registry, ScanTick(c, env, s, order, sessions).registry, b);
  }

  lemma AdoptedRegistry(c: Config, env: Env, r: Registry, t: Registry, b: ProfileId)
    requires NoneUp(r) && b !in r && InCatalog(c, b) && TickRegistry(c, env, r, [SessionOf(b)], t)
    ensures t == Up(env, r, b)
  {
    var sessions := [SessionOf(b)];
    assert sessions[0] == SessionOf(b) && LastNamed(sessions, b) == SessionOf(b);
    forall id ensures id in t <==> id in Up(env, r, b) ensures id in t ==> t[id] == Up(env, r, b)[id] {
      assert TickEntry(c, env, r, sessions, t, id);
    }
  }

  /** A scan adopts `b`, which is started from outside. */
  lemma AdoptOther(c: Config, y0: Sys, y: Sys, a: ProfileId, n: nat, env: Env, b: ProfileId) returns (z: Sys)
    requires Leads(c, y0, y, a, n) && Inv(c, y.core) && NoneUp(y.core.registry)
    requires b != a && InCatalog(c, b) && b !in y.core.registry
    ensures Leads(c, y0, z, a, n) && Inv(c, z.core) && z.asleep == y.asleep && z.inFlight == y.inFlight
    ensures z.core.registry == Up(env, y.core.registry, b) && z.core.pending == y.core.pending && z.core.retry == y.core.retry
  {
    hide Leads, ScanTick, Inv;
    var order := Listing(y.core.registry);
    AdoptingScan(c, env, y.core, order, b);
    z := Sys(ScanTick(c, env, y.core, order, [SessionOf(b)]), y.asleep + multiset{}, y.inFlight);
    assert y.asleep + multiset{} == y.asleep && y.core.scheduled + multiset{} == y.core.scheduled;
    ScanLeads(c, y0, y, a, n, env, order, [SessionOf(b)], z, multiset{});
  }

  /** A late failure of a connect of `b`, reported while `b` is up, empties the queue. */
  lemma UnblockUp(c: Config, y0: Sys, y: Sys, a: ProfileId, n: nat, b: ProfileId) returns (z: Sys)
    requires Leads(c, y0, y, a, n) && Inv(c, y.core) && OthersInactive(y.core, a) && Idle(y.core.registry, a)
    requires y.core.pending.Some? && b != a && InCatalog(c, b) && b !in y.core.registry && b in y.inFlight
    ensures Leads(c, y0, z, a, n) && Alone(c, y, z, a) && z.core.pending.None? && z.inFlight == y.inFlight - multiset{b}
  {
    hide Leads, Inv, Step, SysStep;
    var x := AdoptOther(c, y0, y, a, n, Env(0, {}), b);
    var e := ConnectResult(Env(0, {}), b, false, None, None, None);
    z := SysStep(c, x, e);
    LateFailure(c, x, e, b);
    ChainStepKeepsInv(c, x, e, z);
    assert Feasible(x, e);
    hide Feasible;
    LeadsOn(c, y0, x, a, n, e, z);
  }

  lemma LateFailure(c: Config, x: Sys, e: Event, b: ProfileId)
    requires e.ConnectResult? && e.profile == b && !e.success && IsConnected(x.core, b) && x.core.pending.Some? && InCatalog(c, b)
    ensures var z := SysStep(c, x, e);
            && z.core == x.core.(registry := x.core.registry[b := Disconnected(Some(e.error.GetOr("unknown error")))],
                                 retry := x.core.retry - {b}, pending := None)
            && z.asleep == x.asleep && z.inFlight == x.inFlight - multiset{b}
  {
    GrowthOnly(x.core.scheduled, multiset{});
    GrowthOnly(x.core.workers, multiset{});
  }

  /** A tunnel that vanishes is dropped and re-armed. */
  lemma DroppingScan(c: Config, env: Env, s: State, order: seq<ProfileId>, b: ProfileId)
    requires Enumerates(order, s.registry) && IsConnected(s, b) && NoneUp(s.registry - {b})
    ensures var t := ScanTick(c, env, s, order, []);
            && t.registry == s.registry - {b} && t.pending == s.pending && t.workers == s.workers
            && t.retry == s.retry + DropRetries(c, {b}) && t.scheduled == s.scheduled + DropTimers(c, {b})
  {
    assert forall id :: id in s.registry && id != b ==> id in s.registry - {b};
    assert Dropped(s.registry, []) == {b} && Confirmed(s.registry, []) == {} && Overdue(c, env, s.registry, []) == {};
    CalmTick(c, env, s, order, [], {b});
    hide ScanTick, Dropped, Confirmed, Overdue, DropRetries, DropTimers;
    var t := ScanTick(c, env, s, order, []).registry;
    forall id ensures id in t <==> id in s.registry - {b} ensures id in t ==> t[id] == s.registry[id] {
      assert TickEntry(c, env, s.registry, [], t, id);
    }
  }

  /** A tunnel that comes up from outside and vanishes again leaves a live timer behind. */
  lemma ArmOther(c: Config, y0: Sys, y: Sys, a: ProfileId, n: nat, b: ProfileId) returns (z: Sys)
    requires Leads(c, y0, y, a, n) && Inv(c, y.core) && NoneUp(y.core.registry) && c.autoReconnect
    requires b != a && InCatalog(c, b) && b !in y.core.registry
    ensures Leads(c, y0, z, a, n) && Inv(c, z.core) && Armed(c, z, b)
    ensures z.core.registry == y.core.registry && z.core.pending == y.core.pending
    ensures RetryKept(y.core, z.core, a) && z.asleep == y.asleep + multiset{DropTimer(c, b)}
  {
    hide Leads, Inv, ScanTick;
    var env := Env(0, {});
    var x := AdoptOther(c, y0, y, a, n, env, b);
    var order := Listing(x.core.registry);
    assert x.core.registry - {b} == y.core.registry;
    DroppingScan(c, env, x.core, order, b);
    OneRearmed(c, b);
    z := Sys(ScanTick(c, env, x.core, order, []), x.asleep + DropTimers(c, {b}), x.inFlight);
    ScanLeads(c, y0, x, a, n, env, order, [], z, DropTimers(c, {b}));
    assert RetryMatches(c, z.core, DropTimer(c, b).idx, 1) && MatchesName(c, DropTimer(c, b), b);
  }

  lemma OneRearmed(c: Config, b: ProfileId)
    requires c.autoReconnect && InCatalog(c, b)
    ensures DropTimers(c, {b}) == multiset{DropTimer(c, b)} && DropRetries(c, {b}) == map[b := RetryAfterDrop(c, b)]
  {
    assert Rearmed(c, {b}) == {b};
    assert (set id | id in Rearmed(c, {b}) :: DropTimer(c, id)) == {DropTimer(c, b)};
  }

  /** A retry connect of `b` that then times out empties the queue. */
  lemma FireOther(c: Config, y0: Sys, y: Sys, a: ProfileId, n: nat, b: ProfileId) returns (z: Sys)
    requires Leads(c, y0, y, a, n) && Inv(c, y.core) && IsGone(y.core, a) && OthersInactive(y.core, a)
    requires b != a && Armed(c, y, b)
    ensures Leads(c, y0, z, a, n) && Alone(c, y, z, a) && z.core.pending.None?
  {
    hide Leads, Step, SysStep, Inv;
    var t :| t in y.asleep && RetryMatches(c, y.core, t.idx, t.attempt) && MatchesName(c, t, b);
    var e := TimerFires(Env(0, {b}), t);
    var x := Sys(StartConnect(e.env, y.core, b), y.asleep - multiset{t}, y.inFlight + multiset{b});
    OtherConnects(c, y, e, b);
    LeadsOn(c, y0, y, a, n, e, x);
    ChainStepKeepsInv(c, y, e, x);
    z := TimeOutOther(c, y0, x, a, n, b);
    forall m | Aims(c, m, a) ensures z.asleep[m] == y.asleep[m] {
      assert c.profiles[m.idx].name == a;
    }
  }

  lemma TimeOutOther(c: Config, y0: Sys, y: Sys, a: ProfileId, n: nat, b: ProfileId) returns (z: Sys)
    requires Leads(c, y0, y, a, n) && Inv(c, y.core) && IsGone(y.core, a) && b != a && IsConnecting(y.core, b)
    ensures Leads(c, y0, z, a, n) && Inv(c, z.core) && z == Sys(ConnectionTimeout(y.core, b), y.asleep, y.inFlight)
  {
    hide Leads, Inv;
    z := Sys(ConnectionTimeout(y.core, b), y.asleep, y.inFlight);
    CoreStep(c, y, Timeout(b), z.core);
    StepKeepsInv(c, y.core, Timeout(b));
    LeadsOn(c, y0, y, a, n, Timeout(b), z);
  }

  lemma OtherConnects(c: Config, y: Sys, e: Event, b: ProfileId)
    requires Inv(c, y.core) && !AnyActive(y.core.registry)
    requires e.TimerFires? && e.timer in y.asleep && b in e.env.ready
    requires RetryMatches(c, y.core, e.timer.idx, e.timer.attempt) && MatchesName(c, e.timer, b)
    ensures ChainStep(c, y, e, Sys(StartConnect(e.env, y.core, b), y.asleep - multiset{e.timer}, y.inFlight + multiset{b}))
  {
    assert !Conflicts(c, y.core.registry, e.timer.idx);
    GrowthOnly(y.core.scheduled, multiset{});
    GrowthOnly(y.core.workers, multiset{b});
  }

  // ---------------------------------------------------------------------- the way is free

  /** Nothing about `a` has changed; the queue is empty and no other tunnel is active. */
  ghost predicate Freed(c: Config, y: Sys, z: Sys, a: ProfileId) {
    Alone(c, y, z, a) && z.core.pending.None? && (a in y.inFlight ==> a in z.inFlight)
  }

  lemma AloneTwice(c: Config, y: Sys, x: Sys, z: Sys, a: ProfileId)
    requires Alone(c, y, x, a) && Alone(c, x, z, a)
    ensures Alone(c, y, z, a)
  {
  }

  lemma FreeWhileUp(c: Config, y0: Sys, y: Sys, a: ProfileId, n: nat) returns (z: Sys)
    requires Leads(c, y0, y, a, n) && Inv(c, y.core) && IsConnecting(y.core, a)
    requires y.core.pending.Some? ==> !StuckUp(c, y, a)
    ensures Leads(c, y0, z, a, n) && Freed(c, y, z, a)
  {
    var x := ClearOthers(c, y0, y, a, n);
    z := x;
    if x.core.pending.Some? {
      var b :| b != a && InCatalog(c, b) && !Harmless(y, b);
      assert Undisturbed(y.core, x.core, b);
      z := UnblockUp(c, y0, x, a, n, b);
      AloneTwice(c, y, x, z, a);
    }
  }

  lemma FreeWhileDown(c: Config, y0: Sys, y: Sys, a: ProfileId, n: nat) returns (z: Sys)
    requires Leads(c, y0, y, a, n) && Inv(c, y.core) && IsGone(y.core, a) && c.autoReconnect
    requires y.core.pending.Some? ==> !StuckDown(c, y, a)
    ensures Leads(c, y0, z, a, n) && Alone(c, y, z, a) && z.core.pending.None?
  {
    var x := ClearOthers(c, y0, y, a, n);
    z := x;
    if x.core.pending.Some? {
      var b :| b != a && InCatalog(c, b) && !(IsDown(y.core, b) && !Armed(c, y, b));
      assert Undisturbed(y.core, x.core, b);
      var w := x;
      if b !in x.core.registry {
        w := ArmOther(c, y0, x, a, n, b);
        StillAlone(c, x, w, a, b);
      } else {
        StillArmed(c, y, x, b);
      }
      z := FireOther(c, y0, w, a, n, b);
      AloneTwice(c, x, w, z, a);
      AloneTwice(c, y, x, z, a);
    }
  }

  lemma StillAlone(c: Config, x: Sys, w: Sys, a: ProfileId, b: ProfileId)
    requires b != a && InCatalog(c, b) && Inv(c, w.core) && OthersInactive(x.core, a)
    requires w.core.registry == x.core.registry && RetryKept(x.core, w.core, a)
    requires w.asleep == x.asleep + multiset{DropTimer(c, b)}
    ensures Alone(c, x, w, a)
  {
    assert !Aims(c, DropTimer(c, b), a);
  }

  lemma StillArmed(c: Config, y: Sys, x: Sys, b: ProfileId)
    requires Armed(c, y, b) && y.asleep <= x.asleep && RetryKept(y.core, x.core, b)
    ensures Armed(c, x, b)
  {
    var t :| t in y.asleep && RetryMatches(c, y.core, t.idx, t.attempt) && MatchesName(c, t, b);
    assert t in x.asleep && RetryMatches(c, x.core, t.idx, t.attempt);
  }
}
