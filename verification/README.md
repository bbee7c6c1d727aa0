# Verification of ssh-perma-tunnel's algorithms and protocols

ssh-perma-tunnel keeps SSH tunnels up. Most of it wires libraries together; this
project models the parts that decide something over an unbounded graph, history or
interleaving, and proves what they guarantee.

| file | what it models |
|---|---|
| `DependencyKinds.dfy` | the build script's search that labels every linked crate with its dependency kind |
| `DeviceFlow.dfy` | the device-authorization polling loop, sections 3.4 and 3.5 of RFC 8628 |
| `Debounce.dfy` | the debouncer that decides when a config file change is stable |
| `Teardown.dfy` | reload tasks, the lock of the config cell, the watcher's shutdown handshake and the orchestrator's shutdown gate, interleaved |
| `Joining.dfy` | the wait for a signalled polling task: no deadlock, and a bound on the steps left |
| `Scenarios.dfy` | runs of that protocol that do happen, from a reload to a whole shutdown |
| `Reload.dfy` | the reload plan, its application, and the last-applied config cell |
| `Totp.dfy` | one-time codes, section 5.3 of RFC 4226 and sections 4.2 and 5.2 of RFC 6238 |
| `SecretRefs.dfy`, `Principals.dfy`, `Text.dfy` | two parsers with their printers, and the string operations under them |
| `Percentiles.dfy` | benchmark summaries |
| `EventBindings.dfy` | the mapping of configured event bindings onto live sinks |
| `Basics.dfy` | definitions and arithmetic facts the others share |

`dafny verify dfyconfig.toml` checks everything.

## Main results

- The worklist computes a minimax labelling: a package is labelled exactly when a walk
  from a workspace member reaches it, with the best over all walks of the weakest edge:
  Normal iff some walk has only edges that list Normal or nothing, at most Build iff some
  walk has only edges that list Normal, Build or nothing.
  This holds for cycles, parallel edges, ids without a node and stale frontier entries.
  Members are pushed once, other packages at most three times, every push is popped, and
  the labels do not depend on any order.
- The poll loop, for every adversarial sequence of delays and replies, equals a
  specification that recomputes interval, backoff and clock from the history, and every
  request goes out when the numbers of the source say. Requests
  and slow-downs are bounded by the expiry, slow-downs logarithmically. Polling is
  bounded against every environment if and only if the interval is positive or the
  expiry is zero; `login` always supplies a positive one.
- The debouncer's in-place update equals a definition over the poll history; a file that
  still has the initial signature never fires; `k` fires take at least `k` debounce
  windows.
- In every interleaving, once the watcher is joined only MCP calls still run, and some can
  be in flight exactly when MCP is served. Once the profile map is drained it stays empty.
  When the drain has happened and no call is in flight any more, every supervisor ever
  spawned, displaced ones included, has ended or is being stopped by the drain, which may
  outlast its deadline.
- The join ends: a signalled poller or a client ahead of it in the queue for the
  config cell's lock can always step, and together they take boundedly many steps before
  the poller exits, however everything else interleaves.
- A reload leaves the running profiles equal to the config exactly when everything its
  plan rebuilds does build, and so does any sequence of reloads.

## Where the code and its own words differ

- `crates/spt-auth-sspi/src/lib.rs:268-269` says the part after `@` in `service@host`
  becomes the instance. The code makes it the realm, and so does the model: `HostForm`,
  at an input `HostFormExample`. It never fills the instance: `HostIsTheRealm`.
- `crates/spt-bin/src/cli_dispatch.rs:1561-1562` says no reload can be in flight during
  the drain. A reload that came in over MCP can be, whether or not a watcher and a remote
  poller were there to be stopped first: `McpReloadCanRaceTheDrain`. The statement holds
  exactly when MCP is not served: `DrainRaceIff`. The gate catches the rest:
  `RacingStartIsDiscarded`, `NothingLeaks`.
- `crates/spt-bin/src/controller.rs:243-246` says that when a profile cannot be provided
  a restart stops its running instance. The code leaves the instance alone, in every
  reload: `FailedRestartKeepsPrior`, at an input `FailedRestartExample`. The cell moves on
  to the new config all the same, so reloading the same file later does not retry the
  build: `FailedBuildIsNotRetried`, at an input `FailedBuildExample`, and
  `StaleUntilTouched`.
- `crates/spt-supervisor/src/orchestrator.rs:194-199` says a start tears the old instance
  down before it spawns the new one. An MCP failover, session drain or benchmark run may
  have a clone of the old handle, and then both are alive: `DisplacedCanLinger`. The old
  one ends at once exactly when no such call has it, and otherwise at the latest when the
  clones are given back: `DisplacedEnds`.
- `crates/spt-bin/src/cli_dispatch.rs:2713-2714` describes the fallback binding for a
  config without bindings. The code also installs it when bindings exist and none has a
  live sink: `FallbackUnlessSurvivor`, at an input `DeadBindingGetsFallback`.
- `crates/spt-auth/src/totp.rs:71-72` gives the window as now_step ± skew. The code scans
  that window exactly when the skew is not `i32::MIN` and now_step + |skew| is below 2^63:
  `WindowExactIff`. Otherwise it aborts or looks elsewhere: step 2^63 - 1 with skew 1
  overflows, skew `i32::MIN` overflows at every step, and from step 2^63 on the cast to
  i64 makes the step negative: `WindowFailures`.
- A `File` secret reference whose path starts with `/::` loses its slash when printed
  and parsed again: `RoundTripIff`, `SlashLost`.

## Model

| member | source | states |
|---|---|---|
| `DependencyKinds.Classify` | crates/spt-bin/build.rs:54-92 | On exit the labels are minimax over all walks from workspace members (reachable packages and no others), and by the kinds that edges list: 0 iff some walk has only edges that list Normal or nothing, at most 1 iff some walk has only edges that list Normal, Build or nothing; members stay Normal, no label exceeds 2, so no u8::MAX remains; members are pushed once, others at most three times, all pushes at most members + 3 times the other packages, and every push is popped |
| `DependencyKinds.RelaxAll` | crates/spt-bin/build.rs:67-91 | Handling one popped entry, stale or not, keeps every label and entry attained by a walk, keeps every labelled package waiting or relaxed, never raises the potential 2 * remaining levels + frontier length, and keeps pushes equal to pops plus waiting entries for every package |
| `DependencyKinds.RelaxEdge` | crates/spt-bin/build.rs:72-90 | One edge lowers its target's label and pushes it, or leaves both, and changes no other label or entry; it is relaxed afterwards along with all edges relaxed before |
| `DependencyKinds.SeedLabels` | crates/spt-bin/build.rs:55-59 | Exactly the members are labelled, with 0 |
| `DependencyKinds.SeedFrontier` | crates/spt-bin/build.rs:63-66 | Exactly the members enter the frontier with kind 0, each pushed once |
| `DependencyKinds.EdgeKindIsMinimum` | crates/spt-bin/build.rs:72-82 | An edge counts as its strongest kind: as Normal iff it lists Normal or nothing, and as at most Build iff it lists Normal, Build or nothing |
| `DependencyKinds.NodeByIdKeepsLast` | crates/spt-bin/build.rs:52 | Among nodes with one id the last provides the edges |
| `DependencyKinds.FixpointIsOptimal` | crates/spt-bin/build.rs:61-62 | With nothing waiting and every edge relaxed, no walk beats a label |
| `DependencyKinds.LoweringProgress` | crates/spt-bin/build.rs:86-90 | Every push strictly lowers the number of remaining label levels |
| `DependencyKinds.MinimaxIsUnique` | crates/spt-bin/build.rs:47-50 | A graph has one minimax labelling, so the result does not depend on the order of pops |
| `DependencyKinds.LabelIsThreshold` | crates/spt-bin/build.rs:83-85 | A label is at most k iff some walk uses only edges of kind at most k |
| `DependencyKinds.LabelsByListing` | crates/spt-bin/build.rs:72-90 | For every minimax labelling and package: labelled 0, at most 1, or at all, iff some walk has only edges of the listed kinds |
| `DependencyKinds.OrderIndependent` | crates/spt-bin/build.rs:52-92 | Reordering nodes, dependencies or members leaves the labels unchanged |
| `DeviceFlow.PollForToken` | crates/spt-auth/src/oidc_device_flow.rs:398-440 | The loop sends exactly the requests the history dictates, all before the deadline and none after a decisive reply, each at the nanosecond that the previous one, its reply, the interval and the backoff give in numbers, and returns the verdict of the last reply or of the deadline |
| `DeviceFlow.Spacing` | crates/spt-auth/src/oidc_device_flow.rs:401-437 | A request goes out at least the interval in force after the previous reply was handled, plus the backoff after a transport error; the interval never shrinks, and only slow_down changes it, by 5 s below 5 s and by doubling from there on |
| `DeviceFlow.NextTurn` | crates/spt-auth/src/oidc_device_flow.rs:417-437 | One turn moves the history-defined interval, the backoff min(250 ms * 2^j, 30 s) and the clock as the loop's assignments do |
| `DeviceFlow.RunInNumbers` | crates/spt-auth/src/oidc_device_flow.rs:401-437 | For every run and request but the first: its interval is the previous one, plus 5 s or doubled after slow_down, and it goes out exactly latency, backoff with jitter after a transport error, and that interval after the previous one |
| `DeviceFlow.RequestsInNumbers` | crates/spt-auth/src/oidc_device_flow.rs:391-410 | The first request goes out one interval after the start; every request is before the deadline, and every one but the last was answered with pending, slow_down or a transport error |
| `DeviceFlow.BackoffInNumbers` | crates/spt-auth/src/oidc_device_flow.rs:400-436 | After j transport errors in a row the backoff is 250, 500, 1000, 2000, 4000, 8000, 16000 ms, and 30000 ms from the eighth on |
| `DeviceFlow.RunEnds` | crates/spt-auth/src/oidc_device_flow.rs:415-427 | A run ends in a token or an error iff its last reply is that token or error, and is still waiting iff no reply was decisive and the environment has ended |
| `DeviceFlow.RunStopsAtDeadline` | crates/spt-auth/src/oidc_device_flow.rs:402-408 | A run that stops without a decisive reply is Expired, and the next request would have gone out at or after the deadline |
| `DeviceFlow.RequestsBounded` | crates/spt-auth/src/oidc_device_flow.rs:398-408 | n requests imply n * interval < expiry |
| `DeviceFlow.SlowDownsLogarithmic` | crates/spt-auth/src/oidc_device_flow.rs:422-426 | After k slow_downs the interval is at least interval * 2^k and interval + 5k s, and interval * (2^k - 1) < expiry |
| `DeviceFlow.SlowDownNeverOverflows` | crates/spt-auth/src/oidc_device_flow.rs:422-436 | At every request the interval is below the expiry, so doubling and +5 s stay within any range holding 2 * expiry and expiry + 5 s; the backoff never exceeds 30 s |
| `DeviceFlow.RunIsUnique` | crates/spt-auth/src/oidc_device_flow.rs:401-440 | The environment determines the requests sent, hence the outcome |
| `DeviceFlow.FirstDecisiveReplyDecides` | crates/spt-auth/src/oidc_device_flow.rs:415-439 | The first reply that is not pending, slow_down or a transport error decides by its class and is the last exchange |
| `DeviceFlow.DeadlineDecides` | crates/spt-auth/src/oidc_device_flow.rs:402-408 | If the deadline comes first the result is Expired and the late request is never sent |
| `DeviceFlow.SettlesIffIntervalPositive` | crates/spt-auth/src/oidc_device_flow.rs:391-408 | Some number of exchanges settles the outcome against every environment iff the interval is positive or the expiry is zero |
| `DeviceFlow.LoginAlwaysSettles` | crates/spt-auth/src/oidc_device_flow.rs:514-517 | Through login the loop sends fewer requests than the code lives seconds and settles within that many exchanges |
| `DeviceFlow.LoginInNumbers` | crates/spt-auth/src/oidc_device_flow.rs:514-515 | Interval and expiry are as many seconds as given, and one second when zero is given |
| `DeviceFlow.Classify` | crates/spt-auth/src/oidc_device_flow.rs:458-502 | Polling continues exactly after a transport failure or an error response saying authorization_pending or slow_down; a token needs a successful, decodable response and is the one in it; each terminal error is returned for exactly its own code, with its description, OauthError for exactly the unknown codes and MalformedResponse for exactly the undecodable bodies; no reply is classified as the local expiry |
| `Debounce.Debouncer.Poll` | crates/spt-bin/src/config_watcher.rs:74-108 | The poll fires iff its signature is readable, differs from the last fired one, is not the first of its run and the run has lasted the debounce; it never fires while all polls read the initial signature; `applied` and `pending` equal their definitions over the history |
| `Debounce.Debouncer.constructor` | crates/spt-bin/src/config_watcher.rs:64-70 | A new debouncer has the initial signature as applied, nothing pending, and satisfies the invariant for the empty history |
| `Debounce.RunStartIsMaximal` | crates/spt-bin/src/config_watcher.rs:86-105 | The pending run is the maximal run of equal signatures ending at the poll |
| `Debounce.UnchangedNeverFires` | crates/spt-bin/src/config_watcher.rs:53-55 | While every poll reads the initial signature no poll fires |
| `Debounce.FiresIff` | crates/spt-bin/src/config_watcher.rs:74-105 | A poll fires iff it reads a file, its run began at an earlier poll at least the debounce ago, and its signature differs from that of the last poll that fired, or from the initial one if none has |
| `Debounce.FiresOncePerRun` | crates/spt-bin/src/config_watcher.rs:48-50 | A change that stays put fires once |
| `Debounce.ConsecutiveFires` | crates/spt-bin/src/config_watcher.rs:86-105 | Consecutive fires carry different signatures and are at least the debounce apart |
| `Debounce.FireRate` | crates/spt-bin/src/config_watcher.rs:61-108 | k fires take at least k debounce windows, whatever is written |
| `Debounce.FiresWhenDue` | crates/spt-bin/src/config_watcher.rs:88-98 | In a run of a new signature some poll fires once the debounce has passed |
| `Debounce.FiresWithinThreeOrFour` | crates/spt-bin/src/config_watcher.rs:139-144 | At the chosen polling interval it fires by the third poll, or the fourth for an odd debounce above 500 ms |
| `Debounce.PollNumbers` | crates/spt-bin/src/config_watcher.rs:142-144 | The polling interval is 250 ms up to a debounce of 500 ms and half the debounce above |
| `Debounce.ThirdPollTooEarly` | crates/spt-bin/src/config_watcher.rs:142-144 | For an odd debounce above 500 ms the third poll can be too early |
| `Teardown.QuietAtDrain` | crates/spt-bin/src/cli_dispatch.rs:1556-1571 | From the drain on the watcher and the remote poller have exited and no SIGHUP reload runs; only MCP calls can be in flight, and only if MCP is served |
| `Teardown.OnlyMcpAfterJoin` | crates/spt-bin/src/config_watcher.rs:117-129 | In every continuation after the join only MCP clients take steps: no on_change runs or starts again |
| `Teardown.AtMostOneLateReload` | crates/spt-bin/src/config_watcher.rs:169-184 | After the shutdown signal a polling task starts at most one more reload, the one whose tick had already won the select |
| `Scenarios.LateReload` | crates/spt-bin/src/config_watcher.rs:169-184 | That one reload does happen: from every state in which the tick won before the signal, the watcher reloads to the end and exits |
| `Scenarios.LateReloadIsDrained` | crates/spt-bin/src/cli_dispatch.rs:1556-1577 | A whole run in which a reload begins after the signal, starts a profile, and the drain still leaves nothing |
| `Scenarios.WatcherReloads` | crates/spt-bin/src/config_watcher.rs:172-184 | A run in which the watcher polls without a change, sees one, and starts a profile |
| `Scenarios.SighupStops` | crates/spt-bin/src/cli_dispatch.rs:1499-1505 | A run in which a SIGHUP reload stops that profile |
| `Scenarios.McpStops` | crates/spt-bin/src/controller.rs:430-433 | A run in which an MCP call stops it without the config lock |
| `Teardown.ReloadsExclude` | crates/spt-bin/src/controller.rs:118-135 | The config cell's lock keeps reloads apart: of two clients inside orchestrator calls at once, one came in over MCP, whose direct start and stop run without the lock |
| `Joining.JoinNeverDeadlocks` | crates/spt-bin/src/config_watcher.rs:119-128 | In every reachable state a signalled poller that has not exited, or a client ahead of it in the queue for the lock, has an enabled step |
| `Joining.OwnStepsBounded` | crates/spt-bin/src/config_watcher.rs:169-184 | In every run a signalled poller takes at most as many steps of its own as the calls left in its plans allow; every one lowers that measure |
| `Joining.StepShortensWait` | crates/spt-bin/src/controller.rs:124-135 | Once the poller has decided, every step of it or of a client ahead of it shortens the wait and no step of anyone else lengthens it; before that only its own step counts, and that step is the decision |
| `Joining.JoinBounded` | crates/spt-bin/src/config_watcher.rs:119-184 | In every run from every signalled state the poller and the clients ahead of it take at most the computed number of steps before it exits, for plans of any bounded length; a poll that had already won the select is counted from its decision, before which no step counts |
| `Joining.WaitAtMost` | crates/spt-bin/src/config_watcher.rs:119-184 | With at most b calls left to every plan, that number is at most 4b + 4 and 4b + 2 more for each client ahead |
| `Teardown.InvKept` | crates/spt-supervisor/src/orchestrator.rs:231-294 | Every step of every task keeps the profile map, the gate, the queue for the config cell's lock, the phases of the main task and the ownership of every supervisor consistent, and lets a displaced supervisor linger only while its handle is lent |
| `Teardown.GateStaysShut` | crates/spt-supervisor/src/orchestrator.rs:450-462 | Once drained, the profile map stays empty in every continuation |
| `Scenarios.NoSpawnOnceGated` | crates/spt-supervisor/src/orchestrator.rs:231-242 | Once the gate is up, a client that is not already past the unlocked check of a start never spawns again, in any continuation |
| `Scenarios.GatedReloadIsSkipped` | crates/spt-supervisor/src/orchestrator.rs:375-384 | A reload that gets the lock after the gate is up makes no call and changes nothing |
| `Scenarios.DisabledStartOnlyRemoves` | crates/spt-supervisor/src/orchestrator.rs:244-256 | A start of a disabled profile removes what runs under its name and spawns nothing |
| `Teardown.EverySupervisorHasOnePlace` | crates/spt-supervisor/src/orchestrator.rs:244-294 | Every supervisor ever spawned has ended, is in the map under one name, is draining, is in the hands of one task, or was displaced while an MCP call has a clone of its handle |
| `Teardown.DisplacedEnds` | crates/spt-supervisor/src/orchestrator.rs:244-248 | In every run, the instance a start displaces has ended at once iff no MCP call has a clone of its handle, and otherwise in every state in which none has |
| `Teardown.DisplacedCanLinger` | crates/spt-supervisor/src/orchestrator.rs:506-543 | For every choice of watcher and remote poller, some run leaves a displaced instance alive beside the one that replaced it |
| `Scenarios.LastCloneEnds` | crates/spt-supervisor/src/profile.rs:437-450 | A call can always give its clones back, and a displaced supervisor then ends iff no other call has one |
| `Teardown.RacingStartIsDiscarded` | crates/spt-supervisor/src/orchestrator.rs:274-294 | In every run from a drained state, a supervisor that a start still has in hand has ended for good once its starter has taken a step |
| `Teardown.NothingLeaks` | crates/spt-supervisor/src/orchestrator.rs:54-63 | With the gate up and no call in flight, calls that only have a clone of a handle included, every supervisor ever spawned has ended or is being stopped by the drain |
| `Teardown.McpReloadCanRaceTheDrain` | crates/spt-bin/src/cli_dispatch.rs:1561-1574 | With MCP served, for every choice of watcher and remote poller, some run passes both joins and the drain with a reload over MCP holding the supervisor it restarted a profile with |
| `Teardown.DrainRaceIff` | crates/spt-bin/src/cli_dispatch.rs:1556-1577 | For every choice of watcher and remote poller, some run has a client in flight past the joins iff MCP is served |
| `Reload.Compute` | crates/spt-supervisor/src/reload.rs:49-116 | With the unique names validation guarantees, what the plan says about a profile is a function of its old and new config alone; stops of removed profiles come first, then starts, then everything else |
| `Reload.NoForwardActionIff` | crates/spt-supervisor/src/reload.rs:119-141 | No forward action is planned iff both profiles have the same forwards, whatever their order |
| `Reload.ForwardActionsIff` | crates/spt-supervisor/src/reload.rs:119-141 | A forward is removed iff only the old profile has its name, added iff only the new one has, and restarted iff both have and differ |
| `Reload.RemovalsFirst` | crates/spt-supervisor/src/reload.rs:119-141 | Removals precede all other forward actions |
| `Reload.RemovedInOrder` | crates/spt-supervisor/src/reload.rs:120-127 | Removals follow the order of the old forwards |
| `Reload.NewInOrder` | crates/spt-supervisor/src/reload.rs:128-140 | Additions and restarts follow the order of the new forwards |
| `Reload.ProfileActionsIff` | crates/spt-supervisor/src/reload.rs:58-99 | Start, stop, restart and the forward diff, each iff the two configurations say so field by field |
| `Reload.PlanIsExact` | crates/spt-supervisor/src/reload.rs:54-116 | The plan rebuilds exactly the enabled profiles whose live part differs, stops exactly those no longer wanted, and says nothing else |
| `Reload.Orchestrator.Apply` | crates/spt-supervisor/src/orchestrator.rs:362-419 | Each profile ends as its own actions dictate: stops remove, starts and restarts replace when the profile builds, or only remove when what was built is disabled, forward changes restart once at the end; nothing happens once shutting down |
| `Reload.LastActionDecides` | crates/spt-supervisor/src/orchestrator.rs:390-412 | For every list of actions on a profile, the last stop, or the last start or restart that builds, decides what the ordered pass leaves |
| `Reload.ForwardActionRestarts` | crates/spt-supervisor/src/orchestrator.rs:385-419 | Any forward action then leaves the built profile, or none if it is disabled |
| `Reload.Orchestrator.RestartProfile` | crates/spt-supervisor/src/orchestrator.rs:231-325 | The old instance goes and the new one takes its place, unless the gate is up or the profile is disabled |
| `Reload.ConfigCell.Reload` | crates/spt-bin/src/controller.rs:124-135 | A config that fails validation changes nothing; otherwise the plan against the last applied config is applied and the cell moves on |
| `Reload.WellNamedIff` | crates/spt-config/src/validate.rs:1904-2086 | What the model takes from validation: no two profiles share a name, and no two forwards of a profile |
| `Reload.ReloadOneProfile` | crates/spt-bin/src/controller.rs:227-279 | A profile the plan rebuilds is right iff it builds or was right already; one the plan leaves alone is right iff it was right before |
| `Reload.ReloadLeaves` | crates/spt-bin/src/controller.rs:227-279 | For every reload and profile: rebuilt and built, it runs exactly as the new config has it, tuning included; rebuilt and not built, or not in the plan, it stays as it was; stopped, it is gone |
| `Reload.ReloadMirrorsIff` | crates/spt-bin/src/controller.rs:197-291 | From a mirrored state a reload ends mirrored iff everything it rebuilds builds |
| `Reload.RunMirrors` | crates/spt-bin/src/controller.rs:118-135 | Over any sequence of reloads, the running profiles mirror the cell after each of the first k iff everything those k have to rebuild builds |
| `Reload.StaleUntilTouched` | crates/spt-bin/src/controller.rs:131-134 | A profile that is wrong stays as it is through every later reload whose config leaves it unchanged |
| `Reload.ReloadingAgainDoesNothing` | crates/spt-supervisor/src/reload.rs:49-116 | Reloading the config in the cell changes nothing |
| `Reload.FailedBuildIsNotRetried` | crates/spt-bin/src/controller.rs:241-277 | For every reload from a mirrored state, a profile whose rebuild fails is still as it was, and wrong, after the same file is reloaded, whatever builds by then |
| `Reload.FailedBuildExample` | crates/spt-bin/src/controller.rs:241-277 | An input on which that happens: a new profile that does not build |
| `Reload.FailedRestartKeepsPrior` | crates/spt-bin/src/controller.rs:241-277 | For every reload from a mirrored state, a profile whose rebuild fails stays as it was: right for the prior config, wrong for the one in the cell |
| `Reload.FailedRebuildKeeps` | crates/spt-bin/src/controller.rs:241-277 | For every reload from any state, a profile whose rebuild fails stays as it was |
| `Reload.FailedRestartExample` | crates/spt-bin/src/controller.rs:241-277 | An input on which that happens: a running profile with a changed connection |
| `Totp.TruncateIs31BitBigEndian` | crates/spt-auth/src/totp.rs:137-142 | For every digest the indices are in range and the shifted, or-ed bytes are the low 31 bits of the big-endian word at the offset |
| `Totp.CodeReadsBack` | crates/spt-auth/src/totp.rs:143-145 | A code has exactly `digits` decimal characters and reads back as the 31-bit value modulo 10^digits, and that modulus fits a u32 |
| `Totp.BeBytesRoundTrip` | crates/spt-auth/src/totp.rs:119 | The big-endian bytes of a counter determine it |
| `Totp.Scan` | crates/spt-auth/src/totp.rs:102-113 | The loop finds whether any non-negative step of the window has the code, and overflows iff an end of the window leaves i64 |
| `Totp.Verify` | crates/spt-auth/src/totp.rs:73-114 | For all inputs: InvalidConfig iff the step length is zero or the digits are outside 1 to 9, Overflow and acceptance each under exactly the stated condition; acceptance means the code of some non-negative step within the skew of the i64 step |
| `Totp.GeneratedCodeIsAccepted` | crates/spt-auth/src/totp.rs:47-114 | A code generated at t, with k steps * length <= t < k + 1 steps, is accepted at every u in a step l within d of k, for skew d or -d and l + d below 2^63 |
| `Totp.StepIsUnique` | crates/spt-auth/src/totp.rs:64-100 | The step of a time is the one k with k * length <= time < (k + 1) * length |
| `Totp.GeneratesStepCode` | crates/spt-auth/src/totp.rs:47-66 | For all inputs: a generated code is that of the step the time falls in, or InvalidConfig iff the step length is zero or the digits are outside 1 to 9 |
| `Totp.OverflowInNumbers` | crates/spt-auth/src/totp.rs:100-104 | verify aborts iff the skew is i32::MIN or the window crosses 2^63, from below or from above |
| `Totp.ScannedInNumbers` | crates/spt-auth/src/totp.rs:100-107 | The scanned steps, for skew d or -d: those within d below 2^63, and the ones that wrap around from there on |
| `Totp.ValueReads` | crates/spt-auth/src/totp.rs:143-145 | What reading a code means: the characters 0 to 9 are the digits, most significant first |
| `Totp.MacLengths` | crates/spt-auth/src/totp.rs:118-136 | The digests are 20, 32 and 64 bytes long |
| `Totp.MaskLow` | crates/spt-auth/src/totp.rs:137-142 | Masking with the low k bits is the remainder modulo 2^k |
| `Totp.WindowExactIff` | crates/spt-auth/src/totp.rs:71-107 | For every step and every skew, verify scans exactly the window step ± skew without aborting iff the skew is not i32::MIN and step + skew is below 2^63 |
| `Totp.WindowFailures` | crates/spt-auth/src/totp.rs:99-103 | The failing inputs: step 2^63 - 1 with skew 1, skew i32::MIN at every step, and every step from 2^63 on |
| `Totp.SameTimeAcceptedIff` | crates/spt-auth/src/totp.rs:99-107 | Its consequence for a code at its own time without skew: accepted iff the step is below 2^63 |
| `Totp.InWindowMeansValue` | crates/spt-auth/src/totp.rs:108-113 | Accepting a code means accepting its number: equal strings iff equal values of full width |
| `SecretRefs.VaultIff` | crates/spt-auth/src/secret_ref.rs:66-87 | An input parses to a vault entry iff its trimmed form is exactly that entry's spelling, with a non-empty slash-free namespace and a non-empty name |
| `SecretRefs.EnvIff` | crates/spt-auth/src/secret_ref.rs:88-93 | An input parses to a variable iff its trimmed form is the scheme and that non-empty name |
| `SecretRefs.FileIff` | crates/spt-auth/src/secret_ref.rs:94-107 | An input parses to a file iff its trimmed form is a file URI whose non-empty path, past one optional slash, normalises to that file |
| `SecretRefs.RejectedIff` | crates/spt-auth/src/secret_ref.rs:64-109 | Each of the six errors, carrying the trimmed input, is returned under exactly its condition on that input |
| `SecretRefs.LiteralVault` | crates/spt-auth/src/secret_ref.rs:66-115 | `secret://ns/name` parses to and prints from that namespace and name |
| `SecretRefs.LiteralEnv` | crates/spt-auth/src/secret_ref.rs:88-116 | `env:NAME` parses to and prints from that name |
| `SecretRefs.LiteralFile` | crates/spt-auth/src/secret_ref.rs:93-107 | `file://path` and `file:///path` parse to the path as it is if its second character is a colon, and with a leading slash otherwise |
| `SecretRefs.LiteralFilePrint` | crates/spt-auth/src/secret_ref.rs:117-123 | Such a path prints with three slashes |
| `SecretRefs.PaddedReads` | crates/spt-auth/src/secret_ref.rs:65 | Whitespace around a reference changes nothing |
| `Text.TrimCuts` | crates/spt-auth/src/secret_ref.rs:65 | Trimming takes whitespace off both ends and nothing else |
| `Text.TrimIsUnique` | crates/spt-auth/src/secret_ref.rs:65 | What is left is determined by that |
| `Text.WhitespaceListed` | crates/spt-auth/src/secret_ref.rs:65 | Whitespace is the 25 characters with the Unicode White_Space property |
| `SecretRefs.AcceptedIff` | crates/spt-auth/src/secret_ref.rs:64-109 | Acceptance by the shape of the trimmed input alone |
| `SecretRefs.ParsableIff` | crates/spt-auth/src/secret_ref.rs:64-109 | Exactly which references parse can return |
| `SecretRefs.RoundTripIff` | crates/spt-auth/src/secret_ref.rs:112-126 | For every reference, printing and parsing gives it back iff parse can return it and its path does not start with `/::` |
| `SecretRefs.SecondPassIsStable` | crates/spt-auth/src/secret_ref.rs:93-125 | For every accepted input a second pass of printing and parsing changes nothing |
| `SecretRefs.SlashLost` | crates/spt-auth/src/secret_ref.rs:99-105 | A concrete input whose first pass loses the slash |
| `Principals.AcceptedIffSpelling` | crates/spt-auth-sspi/src/lib.rs:303-357 | Parsing and printing are inverse bijections between accepted strings and well-formed principals |
| `Principals.ErrorsByGrammar` | crates/spt-auth-sspi/src/lib.rs:303-335 | Each error, and acceptance, holds exactly under its condition on separators: at most one `@`, at most one `/` before it, no empty component |
| `Principals.HostIsTheRealm` | crates/spt-auth-sspi/src/lib.rs:304-315 | Of every accepted string, what follows `@` is the realm, and there is an instance iff there is a `/` before it |
| `Principals.HostForm` | crates/spt-auth-sspi/src/lib.rs:304-340 | `service@host` parses to a service and a realm, with no instance |
| `Principals.FullForm` | crates/spt-auth-sspi/src/lib.rs:304-340 | `service/instance@realm` parses to its three parts |
| `Principals.HostFormExample` | crates/spt-auth-sspi/src/lib.rs:268-269 | An input that shows it: `host@h` |
| `Percentiles.FromSamples` | crates/spt-benchmark/src/result.rs:37-72 | The slice ends sorted with the same elements, and the summary is that of the sorted samples |
| `Percentiles.NearestRank` | crates/spt-benchmark/src/result.rs:42-45 | The index is the nearest rank, halves rounded up, and the clamp never acts |
| `Percentiles.SummaryInOrder` | crates/spt-benchmark/src/result.rs:61-70 | min <= p50 <= p90 <= p95 <= p99 <= p999 <= max |
| `Percentiles.PercentileRank` | crates/spt-benchmark/src/result.rs:42-45 | A percentile is a sample with at least i+1 samples at most it and n-i at least it |
| `Percentiles.OrderOfSamplesIrrelevant` | crates/spt-benchmark/src/result.rs:37-71 | The summary depends on the samples only as a multiset |
| `Percentiles.MeanInRange` | crates/spt-benchmark/src/result.rs:46-47 | The mean lies between the extremes |
| `Percentiles.MeanAndVariance` | crates/spt-benchmark/src/result.rs:46-57 | n means make up the sum of the samples as given, n - 1 variances their squared deviations from the mean, and one sample has variance zero |
| `Percentiles.OneSample` | crates/spt-benchmark/src/result.rs:47-53 | What one sample contributes to the sum and to the squared deviations |
| `Percentiles.SumAdds` | crates/spt-benchmark/src/result.rs:47 | The sum of two lists is the sum of their sums |
| `Percentiles.DeviationsAdd` | crates/spt-benchmark/src/result.rs:49-55 | The same of the squared deviations |
| `Percentiles.FieldsAre` | crates/spt-benchmark/src/result.rs:61-71 | Which sorted sample each field holds: both extremes and the nearest ranks for 50, 90, 95, 99 and 99.9 percent |
| `Percentiles.EmptySummary` | crates/spt-benchmark/src/result.rs:38-40 | No samples give zeros in every field |
| `Percentiles.SpreadZeroIff` | crates/spt-benchmark/src/result.rs:48-60 | For two or more samples the variance is never negative and is zero iff all samples are equal |
| `Percentiles.ShiftMovesPercentiles` | crates/spt-benchmark/src/result.rs:42-66 | Adding a constant to every sample adds it to every percentile |
| `Percentiles.ShiftMovesMeanOnly` | crates/spt-benchmark/src/result.rs:46-60 | Adding a constant adds it to the mean and leaves the variance unchanged |
| `EventBindings.BuildEventBindings` | crates/spt-bin/src/cli_dispatch.rs:2655-2729 | The survivors in configured order, each as configured, or the fallback over every live sink iff none survives and a sink is live |
| `EventBindings.SurvivorAsConfigured` | crates/spt-bin/src/cli_dispatch.rs:2678-2711 | For every survivor: an explicit level that parses beats the default; a throttle counts iff it parses; a window that parses is the interval and 60 s otherwise; a given key is the only key field, and kind, profile_id, forward_id otherwise |
| `EventBindings.FallbackAsDefault` | crates/spt-bin/src/cli_dispatch.rs:2713-2727 | The fallback is named default-all, matches every kind, has the default level, no dedupe and no throttle, and every live sink once |
| `EventBindings.OnlyLiveSinks` | crates/spt-bin/src/cli_dispatch.rs:2669-2677 | Every binding names at least one sink and only live ones, and there is a binding iff there is a live sink |
| `EventBindings.FallbackUnlessSurvivor` | crates/spt-bin/src/cli_dispatch.rs:2713-2727 | The configured bindings are in force iff one of them names a live sink; otherwise the fallback is, if a sink is live |
| `EventBindings.DeadBindingGetsFallback` | crates/spt-bin/src/cli_dispatch.rs:2713-2727 | An input that shows it: a config whose only binding names a dead sink |
| `EventBindings.LiveRefsConcat` | crates/spt-bin/src/cli_dispatch.rs:2669-2674 | Selecting live sinks keeps their order |
| `EventBindings.LiveRefsOfOne` | crates/spt-bin/src/cli_dispatch.rs:2669-2674 | One action gives one reference if its sink is live and none otherwise |

## Left out

- `Percentiles` idealises f64 to the reals: no NaN, no rounding of products at rank boundaries; the standard deviation is represented by its square, and the library sort by its result.
- `Totp` takes HMAC as any function with the right digest length and does not model constant-time comparison; a code is the sequence of its UTF-8 bytes, one char per byte.
- `DeviceFlow` does not model HTTP, TLS pinning, JSON decoding, discovery or token refresh; a request is issued at the instant the deadline was last checked; overflow of the deadline itself is outside the model; jitter is any delay, not only one below 100 ms.
- `Debounce` takes signatures and instants as inputs; reading the file and the tick timer are outside it.
- `Teardown` and `Joining` let each poll decide freely whether to reload, where the code asks the debouncer, and let a reload's plan be any finite list of calls; the config cell's lock serves its waiters in order of arrival, as the runtime's mutex does; stopping a supervisor is assumed to return; a call that only has a clone of a handle does nothing else in the model; a panicking task is not modelled, since release builds abort; what the MCP shutdown after the drain waits for is not modelled either.
- `SameTimeAcceptedIff`: states the case without skew only, because in a wider window another step's code may coincide; `WindowExactIff` states the window for every skew.
- `Reload` groups the connection-level fields and the restart-only fields of a profile into one value each, and does not model the policy overlay, other validation rules or changes outside profiles.
- `EventBindings` takes the severity and duration parsers as parameters and does not model how the dispatcher matches events.
- `DependencyKinds` stops at the labels: the sorted list of crates and the generated source are formatting.
- The GSSAPI and SSPI backends, the remaining command handlers, the benchmark reports and the platform service code are I/O plumbing or single-branch claims.
