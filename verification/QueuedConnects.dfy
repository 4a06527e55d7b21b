/**
 * A queued connect comes up. Reconnecting, switching and choosing a row all take a tunnel down and leave
 * another connect, or the same one, in the queue; the scan that confirms the teardown brings it up. The
 * statements run over both events, in terms of the registry and the workers.
 */
module QueuedConnects {
  import opened Wrappers
  import opened Lifecycle
  import opened Reconciliation
  import opened LifecycleRuns
  import opened RetryChain
  import opened Outcomes

  // ---------------------------------------------------------------------- the confirming scan

  /** The scan neither confirms this teardown nor gives it up. */
  predicate StillGoing(c: Config, env: Env, s: State, sessions: seq<Session>, id: ProfileId) {
    id in s.registry && s.registry[id].Disconnecting? ==>
      FirstNamed(sessions, id).Some? && c.disconnectTimeout > 0 && env.now < s.registry[id].startedAt + c.disconnectTimeout
  }

  /** The walk's first completed teardown is that of `down`, at place `k`, and the scan confirms it. */
  ghost predicate ConfirmsFirst(c: Config, env: Env, s: State, order: seq<ProfileId>, sessions: seq<Session>, k: nat, down: ProfileId) {
    && Enumerates(order, s.registry) && k < |order| && order[k] == down
    && s.registry[down].Disconnecting? && FirstNamed(sessions, down).None?
    && forall j :: 0 <= j < k ==> StillGoing(c, env, s, sessions, order[j])
  }

  /** Profile `idx` takes the default route from nobody but, at most, the tunnel that has just gone. */
  predicate NoRival(c: Config, r: Registry, idx: nat, gone: ProfileId)
    requires idx < |c.profiles|
  {
    !WouldTakeOver(c, r - {gone}, idx)
  }

  /** `b` is coming up, with one worker more, and the queue is empty. */
  predicate CameUp(env: Env, s: State, t: State, b: ProfileId) {
    && b in t.registry && t.registry[b] == Connecting(env.now, ShownAttempt(s, b))
    && t.workers == s.workers + multiset{b} && t.pending.None?
  }

  /** The rest of the walk leaves `b` as the drained queue has left it. */
  lemma {:induction false} RestKeeps(c: Config, env: Env, s: State, order: seq<ProfileId>, sessions: seq<Session>, b: ProfileId, m: nat, n: nat)
    requires m <= n <= |order| && forall id :: id in order ==> id in s.registry
    requires Idle(s.registry, b) || forall j :: m <= j < |order| ==> order[j] != b
    requires ReconcileAll(c, env, s, s.registry, order[..m], sessions).pending.None?
    ensures var t := ReconcileAll(c, env, s, s.registry, order[..m], sessions);
            var u := ReconcileAll(c, env, s, s.registry, order[..n], sessions);
            EntryKept(t, u, b) && u.pending.None? && u.workers == t.workers
    decreases n
  {
    hide ScanArm;
    WalkWithoutQueue(c, env, s, order, sessions, m, n);
    if m < n {
      RestKeeps(c, env, s, order, sessions, b, m, n - 1);
      assert order[..n][..n - 1] == order[..n - 1];
      var before := ReconcileAll(c, env, s, s.registry, order[..n - 1], sessions);
      ArmTouches(c, env, before, order[n - 1], s.registry[order[n - 1]], FirstNamed(sessions, order[n - 1]), b);
    }
  }

  lemma QuietUntil(c: Config, env: Env, s: State, order: seq<ProfileId>, sessions: seq<Session>, k: nat, down: ProfileId)
    requires ConfirmsFirst(c, env, s, order, sessions, k, down)
    ensures Ids(order[..k]) <= s.registry.Keys && down !in Ids(order[..k])
    ensures forall d :: d in Ids(order[..k]) ==> !Drains(c, env, s, sessions, d)
    ensures ReconcileAll(c, env, s, s.registry, order[..k], sessions) == PartialTick(c, env, s, sessions, Ids(order[..k]))
  {
    assert forall j :: 0 <= j < k ==> StillGoing(c, env, s, sessions, order[j]);
    QuietWalk(c, env, s, order[..k], sessions);
    ReconcileIsPointwise(c, env, s, order[..k], sessions);
  }

  /** What the arm of the confirmed teardown does. */
  lemma DrainBringsUp(c: Config, env: Env, s: State, sessions: seq<Session>, done: set<ProfileId>, down: ProfileId, idx: nat)
    requires s.pending == Some(idx) && idx < |c.profiles| && c.profiles[idx].name in env.ready
    requires NoRival(c, s.registry, idx, down)
    requires down in s.registry && s.registry[down].Disconnecting? && FirstNamed(sessions, down).None?
    requires down !in done && done <= s.registry.Keys && forall d :: d in done ==> !Drains(c, env, s, sessions, d)
    requires var b := c.profiles[idx].name; b == down || Idle(s.registry, b)
    ensures CameUp(env, s, ScanArm(c, env, PartialTick(c, env, s, sessions, done), down, s.registry[down], None), c.profiles[idx].name)
  {
    hide PartialTick, PartialRegistry, Conflicts, Dropped, FirstNamed, Drains, WouldTakeOver, CompleteDisconnect, CameUp;
    var before := PartialTick(c, env, s, sessions, done);
    var less := s.registry - (Dropped(s.registry, sessions) * done + {down});
    QueueUntouched(c, env, s, sessions, done);
    SameConflicts(c, env, s.registry, sessions, done, down, idx);
    TakeOverIsConflict(c, s.registry - {down}, idx);
    FewerConflicts(c, s.registry - {down}, less, idx);
    OthersRetryKept(c, env, s, sessions, done, c.profiles[idx].name);
    DrainedConnect(c, env, s, before, down, idx);
  }

  lemma DrainedConnect(c: Config, env: Env, s: State, before: State, down: ProfileId, idx: nat)
    requires s.pending == before.pending == Some(idx) && before.workers == s.workers
    requires idx < |c.profiles| && c.profiles[idx].name in env.ready && !Conflicts(c, before.registry - {down}, idx)
    requires RetryKept(s, before, c.profiles[idx].name)
    ensures CameUp(env, s, CompleteDisconnect(c, env, before, down), c.profiles[idx].name)
  {
  }

  lemma FewerConflicts(c: Config, r: Registry, less: Registry, idx: nat)
    requires idx < |c.profiles| && !Conflicts(c, r, idx) && forall id :: id in less ==> id in r && less[id] == r[id]
    ensures !Conflicts(c, less, idx)
  {
  }

  lemma OthersRetryKept(c: Config, env: Env, s: State, sessions: seq<Session>, done: set<ProfileId>, b: ProfileId)
    requires b in s.registry ==> !s.registry[b].Connected?
    ensures RetryKept(s, PartialTick(c, env, s, sessions, done), b)
  {
    assert b !in Rearmed(c, Dropped(s.registry, sessions) * done);
  }

  /**
   * The scan that confirms a teardown brings the queued profile up, if its gates are open, it is not up
   * itself, and it is not at the same time started from outside.
   */
  lemma QueuedComesUp(c: Config, env: Env, s: State, order: seq<ProfileId>, sessions: seq<Session>, k: nat, down: ProfileId, idx: nat)
    requires ConfirmsFirst(c, env, s, order, sessions, k, down)
    requires s.pending == Some(idx) && idx < |c.profiles| && c.profiles[idx].name in env.ready && NoRival(c, s.registry, idx, down)
    requires var b := c.profiles[idx].name; b == down || Idle(s.registry, b)
    requires var b := c.profiles[idx].name; b in s.registry || FirstNamed(sessions, b).None?
    ensures CameUp(env, s, Step(c, s, Scan(env, order, sessions)), c.profiles[idx].name)
  {
    hide ReconcileAll, AdoptAll, CameUp, NoRival;
    WalkBringsUp(c, env, s, order, sessions, k, down, idx);
    AdoptionKeepsUp(c, env, s, ReconcileAll(c, env, s, s.registry, order, sessions), sessions, c.profiles[idx].name);
  }

  lemma WalkBringsUp(c: Config, env: Env, s: State, order: seq<ProfileId>, sessions: seq<Session>, k: nat, down: ProfileId, idx: nat)
    requires ConfirmsFirst(c, env, s, order, sessions, k, down)
    requires s.pending == Some(idx) && idx < |c.profiles| && c.profiles[idx].name in env.ready && NoRival(c, s.registry, idx, down)
    requires var b := c.profiles[idx].name; b == down || Idle(s.registry, b)
    ensures CameUp(env, s, ReconcileAll(c, env, s, s.registry, order, sessions), c.profiles[idx].name)
  {
    hide ScanArm, PartialTick, NoRival, Ids, Drains;
    var b := c.profiles[idx].name;
    QuietUntil(c, env, s, order, sessions, k, down);
    DrainBringsUp(c, env, s, sessions, Ids(order[..k]), down, idx);
    assert order[..k + 1][..k] == order[..k] && order[..|order|] == order;
    RestKeeps(c, env, s, order, sessions, b, k + 1, |order|);
  }

  lemma AdoptionKeepsUp(c: Config, env: Env, s: State, t: State, sessions: seq<Session>, b: ProfileId)
    requires CameUp(env, s, t, b) && (b in s.registry || FirstNamed(sessions, b).None?)
    ensures CameUp(env, s, AdoptAll(c, env, t, s.registry.Keys, sessions), b)
  {
    AdoptIsPointwise(c, env, t, s.registry.Keys, sessions);
    NotAdopted1(c, s.registry.Keys, sessions, b);
  }

  lemma NotAdopted1(c: Config, handled: set<ProfileId>, sessions: seq<Session>, b: ProfileId)
    requires b in handled || FirstNamed(sessions, b).None?
    ensures b !in Adopted(c, handled, sessions)
  {
  }

  // ---------------------------------------------------------------------- commands that queue

  /** What the command and then the scan make of the state. */
  ghost function AskThenScan(c: Config, s: State, ask: Event, scan: Event): State
    requires ask.User? && Wellformed(Step(c, s, ask), scan)
  {
    Step(c, Step(c, s, ask), scan)
  }

  /** A reconnect of the tunnel on show comes back up. */
  lemma ReconnectComesBack(c: Config, s: State, asked: Env, a: ProfileId, env: Env, order: seq<ProfileId>, sessions: seq<Session>, k: nat)
    requires a in s.registry && s.registry[a].Connected? && InCatalog(c, a) && a in env.ready
    requires var ask := User(asked, ViewConnected(a), ReconnectLast);
             ConfirmsFirst(c, env, Step(c, s, ask), order, sessions, k, a)
    requires NoRival(c, s.registry, Position(c.profiles, a).value, a)
    ensures var t := AskThenScan(c, s, User(asked, ViewConnected(a), ReconnectLast), Scan(env, order, sessions));
            && a in t.registry && t.registry[a] == Connecting(env.now, 1)
            && t.workers == s.workers + multiset{a} && t.pending.None?
  {
    var mid := Step(c, s, User(asked, ViewConnected(a), ReconnectLast));
    assert mid.registry - {a} == s.registry - {a};
    QueuedComesUp(c, env, mid, order, sessions, k, a, Position(c.profiles, a).value);
  }

  /** With nothing on show a reconnect brings the last connected profile up at once. */
  lemma ReconnectLastConnected(c: Config, s: State, env: Env, a: ProfileId)
    requires s.lastConnected == Some(a) && InCatalog(c, a) && a in env.ready
    requires !WouldTakeOver(c, s.registry, Position(c.profiles, a).value)
    ensures var t := Step(c, s, User(env, ViewDisconnected, ReconnectLast)); BroughtUp(env, s, t, a) && t.pending == s.pending
  {
    TakeOverIsConflict(c, s.registry, Position(c.profiles, a).value);
  }

  /** Switching takes the tunnel on show down and brings the chosen profile up. */
  lemma SwitchComesUp(c: Config, s: State, asked: Env, view: View, idx: nat, env: Env, order: seq<ProfileId>, sessions: seq<Session>, k: nat)
    requires !view.ViewDisconnected? && view.profile in s.registry && InCatalog(c, view.profile)
    requires idx < |c.profiles| && c.profiles[idx].name in env.ready && NoRival(c, s.registry, idx, view.profile)
    requires var b := c.profiles[idx].name;
             (b == view.profile || Idle(s.registry, b)) && (b in s.registry || FirstNamed(sessions, b).None?)
    requires ConfirmsFirst(c, env, Step(c, s, User(asked, view, SwitchExclusive(idx))), order, sessions, k, view.profile)
    ensures var t := AskThenScan(c, s, User(asked, view, SwitchExclusive(idx)), Scan(env, order, sessions));
            var b := c.profiles[idx].name;
            && b in t.registry && t.registry[b] == Connecting(env.now, if b == view.profile then 1 else ShownAttempt(s, b))
            && t.workers == s.workers + multiset{b} && t.pending.None?
            && (b != view.profile ==> view.profile !in t.registry)
  {
    var mid := Step(c, s, User(asked, view, SwitchExclusive(idx)));
    var a, b := view.profile, c.profiles[idx].name;
    assert mid == DisconnectSpecific(c, asked, s.(pending := Some(idx)), a);
    assert mid.registry - {a} == s.registry - {a};
    QueuedComesUp(c, env, mid, order, sessions, k, a, idx);
    if b != a {
      ConfirmedIsGone(c, env, mid, order, sessions, a, idx);
    }
  }

  lemma {:induction false} WalkRemoves(c: Config, env: Env, s: State, order: seq<ProfileId>, sessions: seq<Session>, a: ProfileId)
    requires forall id :: id in order ==> id in s.registry
    requires forall i, j :: 0 <= i < j < |order| ==> order[i] != order[j]
    requires a in s.registry && s.registry[a].Disconnecting? && FirstNamed(sessions, a).None?
    requires s.pending.Some? && s.pending.value < |c.profiles| ==> c.profiles[s.pending.value].name != a
    ensures var t := ReconcileAll(c, env, s, s.registry, order, sessions);
            && (a in order ==> a !in t.registry) && (t.pending == s.pending || t.pending.None?)
  {
    if order != [] {
      var init, last := order[..|order| - 1], order[|order| - 1];
      WalkRemoves(c, env, s, init, sessions, a);
      assert order == init + [last];
      var before := ReconcileAll(c, env, s, s.registry, init, sessions);
      if last == a {
        GoneAfterDrain(c, env, before, a);
      } else {
        ArmTouches(c, env, before, last, s.registry[last], FirstNamed(sessions, last), a);
      }
    }
  }

  lemma GoneAfterDrain(c: Config, env: Env, s: State, a: ProfileId)
    requires s.pending.Some? && s.pending.value < |c.profiles| ==> c.profiles[s.pending.value].name != a
    ensures var t := CompleteDisconnect(c, env, s, a); a !in t.registry && t.pending.None?
  {
  }

  lemma ConfirmedIsGone(c: Config, env: Env, s: State, order: seq<ProfileId>, sessions: seq<Session>, a: ProfileId, idx: nat)
    requires Enumerates(order, s.registry) && s.pending == Some(idx) && idx < |c.profiles| && c.profiles[idx].name != a
    requires a in s.registry && s.registry[a].Disconnecting? && FirstNamed(sessions, a).None?
    ensures a !in ScanTick(c, env, s, order, sessions).registry
  {
    WalkRemoves(c, env, s, order, sessions, a);
    AdoptIsPointwise(c, env, ReconcileAll(c, env, s, s.registry, order, sessions), s.registry.Keys, sessions);
    NotAdopted1(c, s.registry.Keys, sessions, a);
  }

  /** Choosing the row on show restarts it. */
  lemma SelectedComesBack(c: Config, s: State, asked: Env, idx: nat, env: Env, order: seq<ProfileId>, sessions: seq<Session>, k: nat)
    requires idx < |c.profiles| && c.profiles[idx].name in s.registry && c.profiles[idx].name in env.ready
    requires NoRival(c, s.registry, idx, c.profiles[idx].name)
    requires var a := c.profiles[idx].name;
             ConfirmsFirst(c, env, Step(c, s, User(asked, ViewConnected(a), Selected(idx))), order, sessions, k, a)
    ensures var a := c.profiles[idx].name;
            var t := AskThenScan(c, s, User(asked, ViewConnected(a), Selected(idx)), Scan(env, order, sessions));
            && a in t.registry && t.registry[a] == Connecting(env.now, 1)
            && t.workers == s.workers + multiset{a} && t.pending.None?
  {
    var a := c.profiles[idx].name;
    var mid := Step(c, s, User(asked, ViewConnected(a), Selected(idx)));
    assert InCatalog(c, a);
    assert mid.registry - {a} == s.registry - {a};
    QueuedComesUp(c, env, mid, order, sessions, k, a, idx);
  }

  /** A row toggled while another tunnel is going down comes up once that one has gone. */
  lemma ToggledComesUp(c: Config, s: State, asked: Env, down: ProfileId, idx: nat, env: Env, order: seq<ProfileId>, sessions: seq<Session>, k: nat)
    requires idx < |c.profiles| && c.profiles[idx].name in env.ready && NoRival(c, s.registry, idx, down)
    requires var b := c.profiles[idx].name;
             && (b == down || IsOff(s, b)) && (b in s.registry || FirstNamed(sessions, b).None?)
    requires ConfirmsFirst(c, env, s, order, sessions, k, down)
    ensures var b := c.profiles[idx].name;
            var t := Step(c, Step(c, s, User(asked, ViewDisconnecting(down), Toggle(idx))), Scan(env, order, sessions));
            && b in t.registry && t.registry[b] == Connecting(env.now, 1)
            && t.workers == s.workers + multiset{b} && t.pending.None?
  {
    var mid := Step(c, s, User(asked, ViewDisconnecting(down), Toggle(idx)));
    assert mid == s.(retry := s.retry - {c.profiles[idx].name}, pending := Some(idx));
    assert forall j :: 0 <= j < k ==> StillGoing(c, env, s, sessions, order[j]) && StillGoing(c, env, mid, sessions, order[j]);
    QueuedComesUp(c, env, mid, order, sessions, k, down, idx);
  }

  predicate IsOff(s: State, id: ProfileId) {
    id in s.registry ==> s.registry[id].Disconnected?
  }

  // ---------------------------------------------------------------------- the other arms of the toggle

  /** What a toggle does where it queues nothing: it takes its own row down, brings it up, or only drops its retry entry. */
  lemma ToggleOutcome(c: Config, env: Env, s: State, view: View, idx: nat)
    requires idx < |c.profiles|
    ensures var a := c.profiles[idx].name;
            var t := Step(c, s, User(env, view, Toggle(idx)));
            var up := a in s.registry && s.registry[a].Connected?;
            var coming := a in s.registry && s.registry[a].Connecting?;
            var quiet := t == s.(retry := t.retry) && t.retry == s.retry - {a};
            if up then TakenDown(env, s, t, a) && t.pending == s.pending
            else if coming then quiet
            else match view
              case ViewConnecting(_) => quiet
              case ViewDisconnecting(_) => t == s.(retry := t.retry, pending := Some(idx)) && t.retry == s.retry - {a}
              case ViewConnected(shown) => if shown == a then TakenDown(env, s, t, a) && t.pending.None? else quiet
              case ViewDisconnected =>
                if a in env.ready && !WouldTakeOver(c, s.registry, idx) then
                  && t.registry == s.registry[a := Connecting(env.now, 1)] && t.workers == s.workers + multiset{a}
                  && t == s.(registry := t.registry, workers := t.workers, retry := t.retry) && t.retry == s.retry - {a}
                else quiet
  {
    TakeOverIsConflict(c, s.registry, idx);
    assert InCatalog(c, c.profiles[idx].name);
  }

  // ---------------------------------------------------------------------- adoption and the scanner

  /** The session a scan reports first, and last, under a name. */
  lemma {:induction false} FirstNamedIsFirst(sessions: seq<Session>, name: ProfileId) returns (i: nat)
    requires exists x :: x in sessions && x.name == name
    ensures i < |sessions| && sessions[i].name == name && FirstNamed(sessions, name) == Some(sessions[i])
    ensures forall j :: 0 <= j < i ==> sessions[j].name != name
  {
    if sessions[0].name == name {
      i := 0;
    } else {
      assert sessions == [sessions[0]] + sessions[1..];
      i := FirstNamedIsFirst(sessions[1..], name);
      i := i + 1;
    }
  }

  lemma {:induction false} LastNamedIsLast(sessions: seq<Session>, name: ProfileId) returns (i: nat)
    requires FirstNamed(sessions, name).Some?
    ensures i < |sessions| && sessions[i].name == name && LastNamed(sessions, name) == sessions[i]
    ensures forall j :: i < j < |sessions| ==> sessions[j].name != name
  {
    var n := |sessions| - 1;
    if sessions[n].name == name {
      i := n;
    } else {
      FirstNamedPrefix(sessions, name);
      i := LastNamedIsLast(sessions[..n], name);
    }
  }

  /** An adopted tunnel is up since its session began, or since now, on the session's interface, with all the session tells. */
  lemma AdoptedEntry(c: Config, env: Env, s: State, order: seq<ProfileId>, sessions: seq<Session>, id: ProfileId, i: nat)
    requires Enumerates(order, s.registry) && id !in s.registry && InCatalog(c, id)
    requires i < |sessions| && sessions[i].name == id && forall j :: i < j < |sessions| ==> sessions[j].name != id
    ensures var t := Step(c, s, Scan(env, order, sessions));
            var since := match sessions[i].startedAt case Some(time) => time case None => env.now;
            && id in t.registry && t.registry[id].Connected? && t.registry[id].since == since
            && t.registry[id].details.interface == sessions[i].interface
            && t.registry[id].details.authoritative == sessions[i].authoritative
            && t.registry[id].details.metadata == sessions[i].metadata
  {
    assert sessions[i] in sessions;
    FirstNamedExists(sessions, sessions[i]);
    var last := LastNamedIsLast(sessions, id);
    assert last == i;
    AdoptedEntriesAre(c, env, s.registry.Keys, sessions);
    AdoptIsPointwise(c, env, ReconcileAll(c, env, s, s.registry, order, sessions), s.registry.Keys, sessions);
  }

  /** After a poll one scan is listened to: the same one if it is still running, else a new one. */
  lemma PollListens(c: Config, s: State, env: Env, recv: Recv, order: seq<ProfileId>)
    requires Wellformed(s, Poll(env, recv, order))
    ensures var t := Step(c, s, Poll(env, recv, order));
            if s.scannerRx.Some? && recv.Empty? then t == s
            else
              && t.scannerRx == Some(s.scansStarted) && t.scansStarted == s.scansStarted + 1
              && (s.scannerRx.Some? && recv.Ready? ==>
                    var after := Step(c, s.(scannerRx := None), Scan(env, order, recv.sessions));
                    t == after.(scannerRx := t.scannerRx, scansStarted := t.scansStarted))
              && (s.scannerRx.None? || recv.Closed? ==> t == s.(scannerRx := t.scannerRx, scansStarted := t.scansStarted))
  {
    if s.scannerRx.Some? && recv.Ready? {
      ScanStartsNoScan(c, env, s.(scannerRx := None), order, recv.sessions);
    }
  }

  lemma {:induction false} WalkStartsNoScan(c: Config, env: Env, s: State, snaps: Registry, order: seq<ProfileId>, sessions: seq<Session>)
    requires forall id :: id in order ==> id in snaps
    ensures ReconcileAll(c, env, s, snaps, order, sessions).scansStarted == s.scansStarted
  {
    if order != [] {
      WalkStartsNoScan(c, env, s, snaps, order[..|order| - 1], sessions);
    }
  }

  lemma ScanStartsNoScan(c: Config, env: Env, s: State, order: seq<ProfileId>, sessions: seq<Session>)
    requires Enumerates(order, s.registry)
    ensures ScanTick(c, env, s, order, sessions).scansStarted == s.scansStarted
  {
    WalkStartsNoScan(c, env, s, s.registry, order, sessions);
    AdoptIsPointwise(c, env, ReconcileAll(c, env, s, s.registry, order, sessions), s.registry.Keys, sessions);
  }
}
