# Vortix, modelled and proved

Vortix manages several VPN tunnels from one terminal program. Three independent sources drive its
registry of tunnels: worker threads that report connect and disconnect results, retry timers, and a
background scan of the kernel. This project models that lifecycle machine and the program's
self-contained kernels (calendar, checksum, netmasks, backoff, DNS packets, text editing, URL
truncation, fresh file names, the kill switch's record) and proves what they keep.

## How it is laid out

- `Lifecycle.dfy`: the machine as a value: `State`, one function per handler, `Step` over `Event`.
- `App.dfy`: the same handlers on the fields of one object, step by step. Every method is proved to
  compute its function of `Lifecycle`, any sequence of messages is proved to be a run of the machine,
  and `RunFresh` states the run theorems of the object itself. The election of the primary tunnel and
  the single-tunnel view read off it live here.
- `Outcomes.dfy`, `QueuedConnects.dfy`: what each message comes to, read off the states before and after
  it without mention of the handlers, and what becomes of a queued connect over two messages.
- `Reconciliation.dfy`: one scan tick as a function applied to every profile at once, when the loop
  agrees with it, and convergence of repeated scans.
- `LifecycleRuns.dfy`: what every run keeps: a disconnect is final, interface names have two
  sources, every tunnel that leaves Connected is accounted for.
- `RetryChain.dfy`: how many retry connects one chain can start, whoever begins it, with any retry
  entry and any queue. `RetryQueue.dfy` says what a filled queue does to a chain, `RetryClearing.dfy`
  how the other tunnels and the queue can be got out of its way, and `RetryOverrun.dfy` when exactly a
  chain overruns its budget.
- `ScanFreshness.dfy`: which scan results can reach the reconciliation loop.
- `Backoff.dfy`, `Civil.dfy`, `Checksum.dfy`, `Netmask.dfy`, `OvpnRoutes.dfy`, `Dns.dfy`, `Utf8.dfy`,
  `TextField.dfy`, `ReportUrl.dfy`, `UniquePath.dfy`, `KillSwitchRecord.dfy`: one kernel each.
- `Wrappers.dfy`, `Bytes.dfy`, `Powers.dfy`, `Names.dfy`: what they share.

Runs are arbitrary: events come in any order and number, scans and results have any content, timers
fire at any time. `State.scheduled` and `State.workers` record every timer and every connect worker
ever started, which is what the retry and reconciliation theorems count. In the functions the registry
is walked in any order; the object walks it sorted by name, as the program does, so its tick is a
function of its state. Iteration over other hash maps is any order.

Upper bounds on retry chains hold of all runs. Where a lemma says that some run exceeds a bound, the run
is feasible: a result comes from a worker that has not reported yet, a connection timeout from a tunnel
that is coming up, and a timer fires once.

## What was found

Each of these is a lemma that gives the failing input, or an exact condition.

- **A queued connect makes a tick depend on its order.** A connect drained in mid-tick is overwritten
  or not according to whether its profile comes later or earlier in the walk.
  `Reconciliation.TickIsPointwiseIff` says exactly when a queued connect fires in a tick; when none
  does, every order gives the same result.
- **A drop ignores a retry budget of zero.** `scanner_handle_drop` schedules its first attempt without
  looking at `connect_max_retries`; the true bound for drop chains is `max(1, connect_max_retries)`.
- **A timer left over from an earlier chain restarts the count.** It matches on index and attempt
  alone. When it fires while the same profile's connect on that attempt is in flight, the retry entry is
  thrown away and the count begins again. Connecting, failing and connecting again before the timer
  fires is enough (`RetryOverrun.LeftOverTimerArises`).
- **A filled queue ends a chain.** A connect that fails while another is queued is not retried, so where
  nothing else can empty the queue the budget binds whatever timers are left over.
- **The backoff differs from its formula** only for a base of one second, beyond attempt 64, under a
  cap above 2^63 seconds.
- **The atomic write is atomic exactly when the flush succeeds.** Its outcome is ignored, so a crash
  after the rename can expose a file that never reached the disk. The documentation promises the
  prior file survives any failure point; the model follows the code.
- **`handle_manage_auth` seeds the cursor with a byte length.** For a text that is not ASCII the cursor
  then lies beyond the text, and one backspace more than it has characters removes a character from an
  empty string, which panics. `TextFields.PanicsIff` says by counts exactly which keys panic.
- **The DNS writer caps the length byte of a label above 63 bytes but writes all its bytes.** The labels
  read back by their length bytes are those written exactly when every one has 1 to 63 bytes. The one
  name the program asks for is a constant with short labels, so no input of the program gets there.
- **A non-canonical netmask becomes /32**, which loses addresses the directive routes; it never claims
  one the directive does not route.

## Model

| member | source | states |
|---|---|---|
| Reconciliation.TickIsPointwiseIff | crates/vortix/src/app/update.rs:1024-1141 | A scan tick, walked in any order and with duplicate session names, equals the pointwise function (each entry decided by itself, its session and the clock) exactly when no queued connect passes its gates at the first teardown the walk completes; the condition reads the state before the tick. |
| Reconciliation.TickIsPointwise | crates/vortix/src/app/update.rs:1024-1141 | With nothing queued, or no teardown confirmed, registry, retry table, timers and drop count after a tick do not depend on the walk. |
| Reconciliation.QueuedConnectDependsOnOrder | crates/vortix/src/app/connection.rs:402-414 | Two walks of the same two-profile registry end in different registries when a queued connect fires. |
| Reconciliation.TickEntries | crates/vortix/src/app/update.rs:1042-1141 | What one tick leaves under every profile name: the entry's own outcome, an adopted session, or nothing. |
| Reconciliation.RepeatedScanConverges | crates/vortix/src/app/update.rs:1042-1141 | At a fixed clock with nothing queued, the third and later ticks of the same scan change nothing at all and the second changes only the registry: no drop, no timer, no retry entry. |
| Reconciliation.RepeatedScanConvergesWithDuplicates | crates/vortix/src/app/connection.rs:513-620 | With duplicate session names the fixed point is reached one tick later. |
| Reconciliation.TickConnectedIds | crates/vortix/src/app/update.rs:1096-1107 | A tick, whatever it drains, takes out of Connected exactly the unseen tunnels, each counted once, and the one a queued connect takes over, and adds exactly the adopted ones. |
| Reconciliation.RefreshKeepsIdentity | crates/vortix/src/app/connection.rs:554-620 | A tick gives a Connected entry that is seen the session's metadata and keeps its start time, interface and authority. |
| Reconciliation.TeardownTimeout | crates/vortix/src/app/update.rs:1047-1059 | After a disconnect, a scan removes the entry when the kernel no longer shows the tunnel, and otherwise exactly when the timeout has run out since the request. |
| Outcomes.SuccessCompletes | crates/vortix/src/app/update.rs:539-591 | After an accepted success the entry is Connected since now on the protocol layer's interface, with the process and otherwise empty metadata; its retry entry is gone, it is the last connected profile, and queue, counters, timers and all other profiles are as before. |
| Outcomes.SuccessDisarmsTimers | crates/vortix/src/app/update.rs:543-549 | In every run after a success, no timer starts a connect of that profile until a drop or a failure re-arms it. |
| Outcomes.FailureOutcome | crates/vortix/src/app/update.rs:592-668 | After an accepted failure the entry shows it, the queue is empty, and the retry entry has moved on one attempt with one timer, or is gone; nothing else changes. |
| Outcomes.StaleResultsChangeNothing | crates/vortix/src/app/update.rs:456-537 | A connect result for a profile neither coming up nor up, and every disconnect result, changes nothing. |
| Outcomes.ConnectGates | crates/vortix/src/app/connection.rs:168-327 | A connect goes through exactly when the profile exists, is ready and takes the default route from no tunnel that is up or coming up; forced, without the last; it then adds one entry and one worker, else changes nothing. |
| Outcomes.DisconnectOutcome | crates/vortix/src/app/connection.rs:875-1027 | Disconnecting a row marks exactly that tunnel, drops its retry entry and the scan in flight, and touches nothing else; a row that is down is left alone. |
| Outcomes.DisconnectKeyOutcome | crates/vortix/src/app/connection.rs:727-775 | The disconnect key takes the tunnel on show down; during its teardown it restarts the clock alone. |
| Outcomes.EveryoneIsTakenDown | crates/vortix/src/app/connection.rs:900-917 | Disconnecting everything marks every tunnel named and drops its retry entry, and touches no other profile. |
| Outcomes.TimerOutcome | crates/vortix/src/app/update.rs:1372-1412 | A timer connects on the matching entry when nothing is active and the profile is ready, throws the entry away when something is active, and is otherwise ignored. |
| Outcomes.TimeoutOutcome | crates/vortix/src/app/update.rs:1477-1493 | A connection timeout clears the entry, its retry entry and the queue, and nothing else. |
| Outcomes.NetworkOutcome | crates/vortix/src/app/update.rs:1414-1475 | When idle with automatic reconnect on, a network change starts exactly the automatic retry entries over at attempt 1, each with one timer; in every other case and field nothing changes. |
| QueuedConnects.QueuedComesUp | crates/vortix/src/app/connection.rs:402-414 | The scan that confirms a teardown brings the queued profile up with one worker of its own, if its gates are open, it is not up and is not started from outside at the same time. |
| QueuedConnects.ReconnectComesBack | crates/vortix/src/app/connection.rs:1062-1092 | A reconnect of the tunnel on show, then the scan that no longer shows it: it is coming up again, on attempt 1, with one worker more. |
| QueuedConnects.ReconnectLastConnected | crates/vortix/src/app/connection.rs:1062-1092 | With nothing on show a reconnect brings the last connected profile up at once. |
| QueuedConnects.SwitchComesUp | crates/vortix/src/app/update.rs:118-137 | A switch, then the scan that confirms the teardown: the old tunnel is gone and the chosen one is coming up. |
| QueuedConnects.SelectedComesBack | crates/vortix/src/app/update.rs:174-192 | Choosing the row on show, then the confirming scan: it is coming up again. |
| QueuedConnects.ToggledComesUp | crates/vortix/src/app/connection.rs:18-106 | A row toggled during a teardown, then the confirming scan: the row is coming up. |
| QueuedConnects.ToggleOutcome | crates/vortix/src/app/connection.rs:18-106 | Every arm of the toggle by its effect: the row is taken down, brought up, queued, or only loses its retry entry. |
| QueuedConnects.AdoptedEntry | crates/vortix/src/app/update.rs:1296-1335 | An adopted tunnel is up since its session began, or since now, on the session's interface and authority, with the session's metadata. |
| QueuedConnects.PollListens | crates/vortix/src/app/telemetry_poll.rs:40-109 | A poll leaves a scan that is still running alone, and otherwise hands a finished one over once and listens to exactly one new scan. |
| QueuedConnects.FirstNamedIsFirst | crates/vortix/src/app/update.rs:1042-1046 | The session an entry is reconciled with is the first of that name. |
| LifecycleRuns.RunKeepsInv | crates/vortix/src/app/update.rs:38-372 | In every run entries belong to catalogue profiles and a retry entry remembers its own profile's index and an attempt within the budget. |
| LifecycleRuns.StepKeepsInv | crates/vortix/src/app/update.rs:38-372 | Every message keeps that invariant. |
| LifecycleRuns.DisconnectTearsDown | crates/vortix/src/app/connection.rs:929-1027 | A disconnect leaves the profile Disconnecting or absent, with no retry entry, whatever state it was in. |
| LifecycleRuns.StepKeepsTornDown | crates/vortix/src/app/update.rs:1047-1094 | No message but a user command or an adoption brings a torn-down profile back, counts it as a drop or gives it a retry entry. |
| LifecycleRuns.DisconnectIsFinal | crates/vortix/src/app/update.rs:456-506 | From the disconnect until the entry is removed, in any interleaving of scans, late results, timers, timeouts and network changes, the profile is not Connected, not a drop and has no retry entry; after removal this holds until a scan reports it again. |
| LifecycleRuns.InterfaceAuthority | crates/vortix/src/app/connection.rs:455-620 | In every run, queued switches included, a Connected entry shows interface and authority of the last accepted connect success or adoption that wrote it. |
| LifecycleRuns.StepInterfaces | crates/vortix/src/app/update.rs:543-576 | One message extends that history by exactly its own writes. |
| LifecycleRuns.ConnectedOnlyByContract | crates/vortix/src/app/update.rs:1061-1070 | A tunnel becomes Connected only by an accepted success of the protocol layer or an adoption. |
| LifecycleRuns.ScanExitsAreDrops | crates/vortix/src/app/update.rs:1209-1234 | A tick counts exactly the tunnels it takes out of Connected, however many vanish at once, but for one that a queued connect takes over. |
| LifecycleRuns.StepCountsDrops | crates/vortix/src/app/update.rs:1209-1234 | Nothing but a scan touches the drop counter. |
| LifecycleRuns.ConnectionsConserved | crates/vortix/src/app/connection.rs:622-687 | Over any run, queued switches included: entries into Connected = Connected now + counted drops + exits by command, failure, timeout or a queued connect that takes the tunnel over. |
| RetryChain.RetryConnectsAreGuarded | crates/vortix/src/app/update.rs:1372-1412 | In any run a retry connect comes of a timer that matches the live retry entry while no tunnel is active, one connect at a time, on the attempt of the timer. |
| RetryChain.FailureSchedulesNextAttempt | crates/vortix/src/app/update.rs:592-668 | A failed connect schedules attempt n+1, keeping the automatic mark, or ends the chain and empties the queue; the delay is min(max, base·2^n) exactly when n < 64, or base is not 1, or max ≤ 2^63. |
| RetryChain.StepKeepsChain | crates/vortix/src/app/update.rs:592-668 | With any queue, every message inside a chain keeps its timers in step with the retry entry and pays each retry connect out of a potential. |
| RetryChain.RunKeepsChain | crates/vortix/src/app/update.rs:592-668 | A chain starts at most its initial potential of retry connects. |
| RetryChain.EveryConnectStartsChain | crates/vortix/src/app/connection.rs:168-327 | Whatever brings a profile up (any command, a queued connect, a timer) starts a connect chain with one worker of its own in flight, with any queue and any retry entry. |
| RetryChain.ConnectChainBound | crates/vortix/src/app/update.rs:592-668 | A connect in progress on attempt r, with any queue and no timer left over, leads to at most `connect_max_retries` − r retry connects. |
| RetryOverrun.ConnectChainBoundIff | crates/vortix/src/app/update.rs:1372-1412 | For every connect in progress, with any retry entry, queue and timers: all its runs keep within the budget exactly when the budget is zero, no left-over timer is ahead of the retry entry or beside the one that matches it, or nothing but its own failure can empty the queue. |
| RetryOverrun.LeftOverOverruns | crates/vortix/src/app/update.rs:1391-1412 | With such a left-over timer, whatever the retry entry, a feasible run starts more retry connects than the budget. |
| RetryOverrun.LeftOverTimerArises | crates/vortix/src/app/connection.rs:18-106 | From the initial state, connecting, failing and connecting again reaches a chain that overruns its budget. |
| RetryQueue.QueueBound | crates/vortix/src/app/update.rs:617-668 | Where the budget is zero or only the failure of the profile itself can empty the queue, a connect chain has no retry connect, and a profile that is down at most one. |
| RetryChain.DropChainBound | crates/vortix/src/app/update.rs:1255-1288 | A chain begun by a counted drop, with any queue, starts at most max(1, budget) retry connects; with automatic reconnect off, none unless a connect of the profile is queued. |
| RetryOverrun.DropConnects | crates/vortix/src/app/update.rs:1255-1288 | From every re-armed drop that leaves the profile down a feasible run starts a retry connect, whatever the budget and the queue. |
| RetryOverrun.DropChainBoundIff | crates/vortix/src/app/update.rs:1255-1288 | The exact condition for the chain of a re-armed drop to keep within the budget, with any queue: where the profile is down, a budget of at least one and no left-over timer or a stuck queue; where a queued connect has brought it back, a budget of zero or no left-over timer. |
| ScanFreshness.CommandChannel | crates/vortix/src/app/connection.rs:929-1027 | A user command lets go of the scan channel exactly when it asks for a teardown. |
| ScanFreshness.StepChannel | crates/vortix/src/app/telemetry_poll.rs:40-109 | Whatever the message, a channel held afterwards is new, or the old one with no teardown and no delivery in between. |
| ScanFreshness.DeliveredScanIsFresh | crates/vortix/src/app/telemetry_poll.rs:40-109 | No teardown was asked for or completed between the start of a scan and the delivery of its result, in any run. |
| ScanFreshness.DeliveredOnceInOrder | crates/vortix/src/app/telemetry_poll.rs:40-109 | Results are delivered in the order of their start, each at most once. |
| AppMachine.App.RecomputePrimary | crates/vortix/src/vortix_core/engine/registry.rs:902-925 | The primary is a Connected tunnel whose trusted interface holds the default route; there is none only if no such tunnel exists. |
| AppMachine.App.SetConnection | crates/vortix/src/vortix_core/engine/registry.rs:352-389 | Upsert one entry, nothing else, and elect again. |
| AppMachine.App.SetConnecting | crates/vortix/src/vortix_core/engine/registry.rs:418-453 | Upsert a Connecting entry without an election. |
| AppMachine.App.SetDisconnecting | crates/vortix/src/vortix_core/engine/registry.rs:459-475 | Does nothing to the registry on a missing entry. |
| AppMachine.App.SetDisconnected | crates/vortix/src/vortix_core/engine/registry.rs:396-410 | Removes the entry and elects again. |
| AppMachine.App.SnapshotAll | crates/vortix/src/vortix_core/engine/registry.rs:527-536 | Yields every entry exactly once, sorted by name. |
| AppMachine.OneWalk | crates/vortix/src/vortix_core/engine/registry.rs:533-534 | There is only one such order, so a tick of the object is a function of its state. |
| AppMachine.App.DetectConflict | crates/vortix/src/vortix_core/engine/registry.rs:1057-1090 | Returns another tunnel, up or coming up, that claims the default route the profile claims, exactly when there is one. |
| AppMachine.App.LegacyState | crates/vortix/src/app/helpers.rs:26-93 | The view shows the primary if any, else the first active tunnel by name, else nothing. |
| AppMachine.ViewTells | crates/vortix/src/app/helpers.rs:26-93 | The view shows something exactly when something is active, states that tunnel's condition truthfully, and names the primary, or without one the first active tunnel. |
| AppMachine.App.ActiveTunnelCount | crates/vortix/src/app/helpers.rs:210-217 | The number of entries that are not Disconnected. |
| AppMachine.App.RequestDisconnectAll | crates/vortix/src/app/update.rs:150-163 | More than one active tunnel asks first and changes nothing; otherwise the active one is disconnected. |
| AppMachine.App.HandleMessage | crates/vortix/src/app/update.rs:38-372 | Each message is one step of the machine on the object, under the view its registry shows. |
| AppMachine.App.HandleAll | crates/vortix/src/app/update.rs:38-372 | Any sequence of messages is a run of the machine. |
| AppMachine.RunFresh | crates/vortix/src/app/update.rs:38-372 | So a fresh object, after any messages, satisfies the invariant, interface authority and conservation. |
| AppMachine.App.Connect | crates/vortix/src/app/connection.rs:168-327 | The gates, the attempt shown, the Connecting entry and the one worker. |
| AppMachine.App.FinishDisconnect | crates/vortix/src/app/connection.rs:364-419 | Removal, scan discarded, queue drained into a connect. |
| AppMachine.App.DisconnectNamed | crates/vortix/src/app/connection.rs:929-1027 | Retry entry and scan dropped before the entry is marked Disconnecting. |
| AppMachine.App.DisconnectOrForceActive | crates/vortix/src/app/connection.rs:727-775 | The disconnect key: teardown of what the view shows, or a restart of its clock. |
| AppMachine.App.DisconnectAllActive | crates/vortix/src/app/connection.rs:900-917 | Exactly the active tunnels are disconnected, each as if named. |
| AppMachine.App.ScannerForceDisconnect | crates/vortix/src/app/update.rs:1148-1163 | The overdue entry goes, and the queue with it. |
| AppMachine.App.ScannerHandleDrop | crates/vortix/src/app/update.rs:1209-1289 | One drop counted if it was Connected, entry removed, attempt 1 armed if automatic reconnect is on. |
| AppMachine.App.ScannerRefreshConnected | crates/vortix/src/app/update.rs:1179-1201 | Metadata refreshed only on an entry that is Connected now; interface, authority and start time stay. |
| AppMachine.App.ScannerAdopt | crates/vortix/src/app/update.rs:1296-1335 | The session becomes a Connected entry with its own interface and authority. |
| AppMachine.App.SyncSystemState | crates/vortix/src/app/update.rs:1024-1141 | The two loops compute the tick, which is the pointwise function of the old state exactly when no queued connect fires. |
| AppMachine.App.HandleConnectResult | crates/vortix/src/app/update.rs:509-668 | Stale results change nothing; accepted ones are the step that `SuccessCompletes` and `FailureOutcome` describe; a success leaves no retry entry. |
| AppMachine.App.HandleRetryConnect | crates/vortix/src/app/update.rs:1372-1412 | Computes the guarded retry connect. |
| AppMachine.App.HandleNetworkChanged | crates/vortix/src/app/update.rs:1414-1475 | Reads the retry table entry by entry, each once, and makes the step that `NetworkOutcome` describes. |
| AppMachine.App.HandleConnectionTimeout | crates/vortix/src/app/update.rs:1477-1493 | Entry, retry entry and queue cleared. |
| AppMachine.App.ToggleConnect | crates/vortix/src/app/connection.rs:18-106 | All branches of the toggle, under the view as it stands. |
| AppMachine.App.ReconnectActive | crates/vortix/src/app/connection.rs:1062-1092 | The step that `ReconnectComesBack` and `ReconnectLastConnected` describe, under the view the registry shows. |
| AppMachine.App.DisconnectProfileByIdx | crates/vortix/src/app/connection.rs:875-884 | Only an active entry is disconnected. |
| AppMachine.App.ConnectSelectedRow | crates/vortix/src/app/update.rs:174-192 | The tunnel on show is restarted through the queue; any other row is toggled. |
| AppMachine.App.Poll | crates/vortix/src/app/telemetry_poll.rs:40-109 | Collect at most the one held result, reconcile, then listen to one new scan. |
| Backoff.DelayIsIdealIff | crates/vortix/src/app/update.rs:629-643 | The saturating u64 delay is min(max, base·2^(attempt−1)) exactly when attempt ≤ 64, or base is not 1, or max ≤ 2^63. |
| Backoff.DelayNeverDecreases | crates/vortix/src/app/update.rs:629-643 | Later attempts never wait less, and never more than the cap. |
| Backoff.TotalWaitGeometric | crates/vortix/src/app/update.rs:629-643 | A chain of n attempts waits at most base·(2^n − 1). |
| Backoff.TotalWaitCapped | crates/vortix/src/app/update.rs:629-643 | And at most n caps. |
| Civil.DaysToYmdIsTheCalendar | crates/vortix/src/cli/commands.rs:1259-1272 | Day 0 is 1970-01-01 and day n+1 the calendar successor of day n, for every integer n. |
| Civil.DayNumberOfYmd | crates/vortix/src/cli/commands.rs:1259-1272 | The result is a valid Gregorian date whose independently defined day number is the input. |
| Civil.YmdOfDayNumber | crates/vortix/src/cli/commands.rs:1259-1272 | The converse: every valid date comes back from its day number. |
| Civil.DaysToYmdIncreases | crates/vortix/src/cli/commands.rs:1259-1272 | Later days have later dates. |
| Civil.EveryDateOnce | crates/vortix/src/cli/commands.rs:1259-1272 | Every valid date is the date of exactly one day. |
| Civil.UnsignedStepsFit | crates/vortix/src/cli/commands.rs:1262-1270 | No unsigned subtraction or cast on the way leaves its range. |
| Civil.TimestampIsExact | crates/vortix/src/cli/commands.rs:1232-1251 | The timestamp's fields are in range and name the very second they were computed from. |
| Netmask.PrefixRoundTrip | crates/vortix/src/app/connection.rs:1254-1270 | p leading ones translate back to p, for p from 0 to 32. |
| Netmask.OtherMasksAreHosts | crates/vortix/src/app/connection.rs:1254-1270 | Every other mask gives 32. |
| Netmask.AddressesKeptIff | crates/vortix/src/app/connection.rs:1206-1270 | The emitted block covers the addresses the directive routes exactly when the mask is canonical. |
| OvpnRoutes.ExtractOvpnRoutes | crates/vortix/src/app/connection.rs:1206-1252 | The loop over the lines emits what each line contributes, in order. |
| OvpnRoutes.RoutesKeepMeaning | crates/vortix/src/app/connection.rs:1206-1252 | All blocks together never claim an address no line routes, and claim every routed one if the masks are canonical. |
| OvpnRoutes.LineMeaningIff | crates/vortix/src/app/connection.rs:1227-1241 | One line keeps its IPv4 addresses exactly when its mask, if any, is canonical. |
| OvpnRoutes.Ipv6LinesKept | crates/vortix/src/app/connection.rs:1243-1248 | Every readable IPv6 block is emitted as it stands, in order, and no other. |
| Checksum.InternetChecksum | crates/vortix/src/core/icmp.rs:124-140 | The two loops, in wrapping 32-bit arithmetic, compute the checksum of RFC 1071 for up to 65537 words. |
| Checksum.NoOverflowIff | crates/vortix/src/core/icmp.rs:124-133 | The 32-bit accumulator cannot overflow exactly up to 65537 words. |
| Checksum.Fold | crates/vortix/src/core/icmp.rs:134-140 | The fold ends, and in the ones' complement value of the sum. |
| Checksum.StoredChecksumIsZero | crates/vortix/src/core/icmp.rs:111-140 | Storing the checksum in a zeroed field at an even offset makes the packet's checksum zero. |
| Checksum.SealAndCheck | crates/vortix/src/core/icmp.rs:111-140 | The program's own check of a packet it sealed returns 0. |
| Checksum.ChecksumIgnoresWordOrder | crates/vortix/src/core/icmp.rs:124-140 | Packets that are permutations of each other's words have equal checksums. |
| Checksum.OddIsPadded | crates/vortix/src/core/icmp.rs:131-133 | A packet of odd length is summed as if a zero byte followed. |
| Checksum.WordsAreBytePairs | crates/vortix/src/core/icmp.rs:127-130 | Each word is two bytes, the first the more significant. |
| Checksum.BuildEchoPacket | crates/vortix/src/core/icmp.rs:111-121 | Type, code, identifier and sequence in place, and a checksum that verifies. |
| Dns.SkipName | crates/vortix/src/core/dns_leak.rs:118-132 | The loop ends and computes where a name ends. |
| Dns.ParseFirstTxt | crates/vortix/src/core/dns_leak.rs:80-116 | The walker's loops compute the packet's first TXT string, or nothing, or the out-of-range read. |
| Dns.BuildQuery | crates/vortix/src/core/dns_leak.rs:63-78 | The writer emits the header and the dotted name's labels, then type and class. |
| Dns.SplitJoin | crates/vortix/src/core/dns_leak.rs:63-78 | Splitting a dotted name gives back its labels. |
| Dns.JoinSplit | crates/vortix/src/core/dns_leak.rs:63-78 | Every name is the join of the labels it splits into. |
| Dns.QueryIsOneQuestion | crates/vortix/src/core/dns_leak.rs:63-78 | The query is the encoded message with that one question and no other record. |
| Dns.SkipNameFindsQtype | crates/vortix/src/core/dns_leak.rs:63-132 | For labels of 1 to 63 bytes the walker lands exactly on QTYPE of the written query. |
| Dns.SkipEncodedName | crates/vortix/src/core/dns_leak.rs:118-132 | Every encoded name, plain or ending in a compression pointer, is skipped exactly. |
| Dns.WalkReadsFirstTxt | crates/vortix/src/core/dns_leak.rs:80-116 | On every encoded message the walker selects the first TXT string of the answers and never reads past the packet. |
| Dns.LabelsReadBackIff | crates/vortix/src/core/dns_leak.rs:63-78 | Written labels are read back by their length bytes exactly when every one has 1 to 63 bytes. |
| Dns.QueryNamesLabelsIff | crates/vortix/src/core/dns_leak.rs:63-78 | So the query as written names the labels asked for exactly then. |
| Dns.LongLabels | crates/vortix/src/core/dns_leak.rs:118-132 | Behind a label of 64 bytes `a` the walker runs off the packet; behind one of 161 it lands on the root byte and still reads other labels. |
| Utf8.EncodedIsWellFormed | crates/vortix/src/app/input.rs:576-622 | What the encoder writes meets the syntax of RFC 3629, section 4. |
| Utf8.WellFormedIsEncoded | crates/vortix/src/app/input.rs:576-622 | Every well-formed buffer is the encoding of some text. |
| Utf8.EncodedCodePoint | crates/vortix/src/app/input.rs:576-622 | The bits of an encoded character are its code point. |
| TextFields.TextField.Press | crates/vortix/src/app/input.rs:578-622 | Under any cursor, beyond the text included, each key does to the byte buffer what the character-level function says, and panics where that has no result. |
| TextFields.TextField.PressAll | crates/vortix/src/app/input.rs:578-622 | Any key sequence keeps the buffer well-formed and panics exactly on a stray backspace; a cursor within the text stays there and the keys edit at the gap. |
| TextFields.PressInRange | crates/vortix/src/app/input.rs:578-622 | Within the text a key never panics and does what it does to a text with a gap at the cursor. |
| TextFields.PanicsIff | crates/vortix/src/app/input.rs:597-607 | A key sequence panics exactly when some backspace comes with the cursor still beyond the text and as many backspaces as characters behind it, by counts over text, cursor and keys. |
| TextFields.SeededCursorPanicsIff | crates/vortix/src/app/update.rs:400-403 | A byte-length cursor can be driven into a panic exactly when the text is not ASCII. |
| TextFields.TextField.ByteIndex | crates/vortix/src/app/input.rs:599-616 | The byte index of a character, found by walking the buffer, if there is such a character. |
| TextFields.TypeThenErase | crates/vortix/src/app/input.rs:597-618 | Typing a text inserts it, as many backspaces take it out again. |
| TextFields.KeyLaws | crates/vortix/src/app/input.rs:582-612 | Left and Right undo each other, Delete is Backspace from one further right, Home and End reach the ends, moves keep the text. |
| TextFields.ByteLengthIsACursorIff | crates/vortix/src/app/update.rs:400-403 | A byte length is a character position exactly for ASCII texts. |
| ReportUrl.DecodeEncoded | crates/vortix/src/cli/report.rs:605-606 | Reading escapes as bytes and every other character as itself gives back the encoded bytes. |
| ReportUrl.EncodedAlphabet | crates/vortix/src/cli/report.rs:605-606 | An encoded text is made of unreserved characters and whole upper-case escapes, nothing else. |
| ReportUrl.EncodedByte | crates/vortix/src/cli/report.rs:605-606 | A byte of the unreserved set stands for itself as one character, every other byte takes three. |
| ReportUrl.ShorterFits | crates/vortix/src/cli/report.rs:628-647 | Fitting is monotone in the prefix, multi-byte characters included; the search rests on it. |
| ReportUrl.SearchPrefix | crates/vortix/src/cli/report.rs:623-650 | The binary search returns the longest prefix whose encoded form with the note fits, or the bare prefix only if none does. |
| ReportUrl.BuildUrl | crates/vortix/src/cli/report.rs:597-650 | All three outcomes for any limit; within the limit whenever the base prefix is. |
| ReportUrl.BuildGithubUrl | crates/vortix/src/cli/report.rs:597-650 | With the shipped constants the link has at most 8100 characters; cut at `#`, `?`, `&` and `=`, its `body` parameter is all that follows the base prefix, and decodes to the report, to a prefix of it with the note, or is empty. |
| UniquePath.ProbesDistinct | crates/vortix/src/utils.rs:790-801 | No two probes are the same name. |
| UniquePath.NumberedKeepsExtension | crates/vortix/src/utils.rs:782-799 | The counter goes between stem and extension; without an extension it goes last, and an empty extension goes with its dot. |
| UniquePath.GetUniquePath | crates/vortix/src/utils.rs:778-805 | Returns the first free name of the sequence after at most one more probe than the directory has entries. |
| KillSwitchRecord.Record.FinishLoad | crates/vortix/src/core/killswitch.rs:199-230 | In place: the loaded record lets through exactly what the raw one said, of interfaces that still exist, with mode and state unchanged. |
| KillSwitchRecord.Record.Coerce | crates/vortix/src/core/killswitch.rs:129-141 | In place: the migrated record lets through what the old one said. |
| KillSwitchRecord.Record.DropPhantoms | crates/vortix/src/core/killswitch.rs:147-168 | The in-place filter; no interface list, no change. |
| KillSwitchRecord.LiveOnlyIsTheLiveSublist | crates/vortix/src/core/killswitch.rs:147-168 | The filter leaves an order-preserving sublist with every live tunnel as often as before and no other. |
| KillSwitchRecord.MigrationIsIdempotent | crates/vortix/src/core/killswitch.rs:129-141 | Migrating twice is migrating once, and the loader leaves a migrated record alone. |
| KillSwitchRecord.LoadKeepsMeaning | crates/vortix/src/core/killswitch.rs:176-230 | Of any record, old, new or of an unknown schema, a load keeps the interfaces and server addresses it names (in the tunnel list, or in the single-tunnel fields where there is no list) in order: those whose interface exists, or all if the interfaces are unknown. |
| KillSwitchRecord.MigratedTunnel | crates/vortix/src/core/killswitch.rs:129-141 | Migration keeps what the record said; a tunnel made of the single-tunnel fields is primary and declares no blocks; an existing list is left as it is. |
| KillSwitchRecord.MigrationKeepsMeaning | crates/vortix/src/core/killswitch.rs:176-271 | Loading any record, saving and loading again gives the same tunnels, mode and state as the first load, which are those the record named. |
| KillSwitchRecord.Store.AtomicWrite | crates/vortix/src/core/killswitch.rs:298-311 | Until the rename every step leaves all files but the temporary one alone; the rename puts the new contents in place and removes it. |
| KillSwitchRecord.SaveRecord | crates/vortix/src/core/killswitch.rs:241-311 | A crash at any point exposes the old or the new record whole, exactly when the flush succeeded. |
| KillSwitchRecord.SaveState | crates/vortix/src/core/killswitch.rs:176-271 | Save, crash at any point, load: with a successful flush the load gives what it gave before or the saved record whole, and after the save the saved record. |

## Left out

- Configuration files are fixed during a run, and so are the catalogue and its order: sorting,
  renaming, deleting and importing profiles are not modelled.
- A profile carries only whether it claims the default route. Aggregating allowed addresses into that
  fact, overlap of address blocks and the roles shown in the interface are not modelled.
- Dependency, root, protocol and credential gates of a connect are one set of ready profiles, chosen
  freely for each event. Conflict and authentication overlays themselves are not modelled.
- Worker threads, processes, sockets and firewall calls: their outcomes are arbitrary events. Kill
  switch transitions, session start, last use, toasts, logs and telemetry are not recorded.
- Wall clock and monotonic clock are one natural number.
- The engine behind `Reconnecting` and `AwaitingUserInput`, and `CancelConnect`: the two states exist,
  nothing modelled produces them.
- `Tick` is not one event: the timeouts and polls it may issue are events of their own, for any
  profile at any time.
- In runs the single-tunnel view is an arbitrary input of each event; `AppMachine.App` computes it from
  the primary and the registry. The primary may for a moment name a tunnel that is being
  reconnected by force.
- RetryOverrun.ConnectChainBoundIff: a feasible timeout may come from any tunnel that is coming up; the
  program raises it for the one its single-tunnel view shows, after a delay that is not modelled.
- AppMachine.App.Connect: the dependency, root and credential gates are the one set of ready profiles
  named above.
- Dns.ParseFirstTxt: stops at the bytes of the string; reading them as an IP address is not modelled.
  TXT data that ends the packet before its length byte is the outcome `IndexPanic`.
- OvpnRoutes.ExtractOvpnRoutes: starts from trimmed, split and parsed lines; the text of an IPv6 block
  is carried along unread.
- Civil.DaysToYmdIsTheCalendar: does not model i64 overflow within 719468 days of the type's ends.
- UniquePath.GetUniquePath: does not model overflow of the i32 counter; the directory is fixed during
  the call.
- KillSwitchRecord.SaveRecord: takes rename as one durable step in order with the flush; a missing
  home directory and failures before the rename leave the disk as one of the points listed. The JSON
  codec is a parameter, and turning live tunnels into records (`persisted_from_active`) is left out.
- Panels, scrolling, themes, search, help, provider tables, real-IP cache and command-line dispatch:
  plain branching or input and output.
