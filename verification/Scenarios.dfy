/**
 Runs of the teardown protocol that do happen: every kind of client reloads or stops to
 the end, a poll that has won the select reloads after the shutdown signal, and the
 daemon shuts down.
 */
module Scenarios {

  import opened Teardown

  // ----- One step at a time -----

  /** Only `c`, the lock, the profile map and the fates may have changed. */
  ghost predicate Beside(s: State, t: State, c: Client)
  {
    && t.mcp == s.mcp && t.main == s.main && t.signalled == s.signalled && t.gate == s.gate
    && OnlyMoves(s, t, c)
  }

  lemma Take(s0: State, run0: seq<Action>, s: State, c: Client, step: Step) returns (run: seq<Action>, t: State)
    requires IsRun(s0, run0, s) && CanStep(s, c, step)
    ensures IsRun(s0, run, t) && run == run0 + [ByClient(c, step)]
    ensures Beside(s, t, c) && t.At(c) == PcAfter(s, c, step) && t.lock == LockAfter(s, c, step)
    ensures t.profiles == ProfilesAfter(s, c, step) && t.fate == FateAfter(s, c, step)
  {
    t := DoStep(s, c, step);
    RunAppend(s0, run0, s, ByClient(c, step));
    run := run0 + [ByClient(c, step)];
  }

  lemma TakeMain(s0: State, run0: seq<Action>, s: State, act: MainStep) returns (run: seq<Action>, t: State)
    requires IsRun(s0, run0, s) && CanMain(s, act)
    ensures IsRun(s0, run, t) && run == run0 + [ByMain(act)] && t == DoMain(s, act)
    ensures forall d :: t.At(d) == s.At(d)
  {
    t := DoMain(s, act);
    RunAppend(s0, run0, s, ByMain(act));
    run := run0 + [ByMain(act)];
    MainLeavesClients(s, act);
  }

  // ----- A reload that starts a profile -----

  /** The same but for where `c` is. */
  ghost predicate OnlyAt(s: State, t: State, c: Client, p: Pc, lock: seq<Client>)
  {
    Beside(s, t, c) && t.At(c) == p && t.lock == lock && t.profiles == s.profiles && t.fate == s.fate
  }

  lemma ReloadGranted(s0: State, run0: seq<Action>, s: State, c: Client, name: ProfileName)
      returns (run: seq<Action>, t: State)
    requires IsRun(s0, run0, s) && s.At(c).Queued? && s.lock == [c] && !s.gate && name !in s.profiles
    ensures IsRun(s0, run, t) && run0 <= run && OnlyAt(s, t, c, Running([Start(name, true)]), [c])
  {
    var plan := [Stop(name), Start(name, true)];
    var run1, s1 := Take(s0, run0, s, c, Grant(plan));
    assert plan[1..] == [Start(name, true)];
    run, t := Take(s0, run1, s1, c, TakeOut);
  }

  lemma ReloadDisplaces(s0: State, run0: seq<Action>, s: State, c: Client, name: ProfileName)
      returns (run: seq<Action>, t: State)
    requires IsRun(s0, run0, s) && !s.gate && name !in s.profiles && s.At(c) == Running([Start(name, true)])
    ensures IsRun(s0, run, t) && run0 <= run && OnlyAt(s, t, c, Building(name, []), s.lock)
  {
    assert [Start(name, true)][1..] == [];
    var run1, s1 := Take(s0, run0, s, c, CheckGate);
    run, t := Take(s0, run1, s1, c, Displace);
    assert s1.profiles - {name} == s.profiles;
  }

  lemma ReloadSpawns(s0: State, run0: seq<Action>, s: State, c: Client, name: ProfileName, id: SupId)
      returns (run: seq<Action>, t: State)
    requires IsRun(s0, run0, s) && s.At(c) == Building(name, []) && id !in s.fate
    ensures IsRun(s0, run, t) && run0 <= run && Beside(s, t, c) && t.At(c) == Holding(name, id, [])
    ensures t.lock == s.lock && t.profiles == s.profiles && t.fate == s.fate[id := Held(c)]
  {
    run, t := Take(s0, run0, s, c, Spawn(id));
  }

  lemma ReloadInserts(s0: State, run0: seq<Action>, s: State, c: Client, name: ProfileName, id: SupId)
      returns (run: seq<Action>, t: State)
    requires IsRun(s0, run0, s) && !s.gate && name !in s.profiles && s.At(c) == Holding(name, id, [])
    ensures IsRun(s0, run, t) && run0 <= run && Beside(s, t, c) && t.At(c) == Running([]) && t.lock == s.lock
    ensures t.profiles == s.profiles[name := id] && t.fate == s.fate[id := Listed(name)]
  {
    run, t := Take(s0, run0, s, c, Insert);
  }

  /** A client next to get the lock applies a plan that restarts `name`, to the end. */
  lemma ReloadStarts(s0: State, run0: seq<Action>, s: State, c: Client, name: ProfileName, id: SupId)
      returns (run: seq<Action>, t: State)
    requires IsRun(s0, run0, s) && s.At(c).Queued? && s.lock == [c] && !s.gate
    requires name !in s.profiles && id !in s.fate
    ensures IsRun(s0, run, t) && run0 <= run && Beside(s, t, c) && t.At(c).Idle? && t.lock == []
    ensures t.profiles == s.profiles[name := id] && t.fate == s.fate[id := Listed(name)]
  {
    var s1;
    run, s1 := ReloadBuilds(s0, run0, s, c, name);
    run, t := ReloadEnds(s0, run, s1, c, name, id);
  }

  lemma ReloadBuilds(s0: State, run0: seq<Action>, s: State, c: Client, name: ProfileName)
      returns (run: seq<Action>, t: State)
    requires IsRun(s0, run0, s) && s.At(c).Queued? && s.lock == [c] && !s.gate && name !in s.profiles
    ensures IsRun(s0, run, t) && run0 <= run && OnlyAt(s, t, c, Building(name, []), [c])
  {
    var run1, s1 := ReloadGranted(s0, run0, s, c, name);
    run, t := ReloadDisplaces(s0, run1, s1, c, name);
  }

  lemma ReloadEnds(s0: State, run0: seq<Action>, s: State, c: Client, name: ProfileName, id: SupId)
      returns (run: seq<Action>, t: State)
    requires IsRun(s0, run0, s) && s.At(c) == Building(name, []) && s.lock == [c] && !s.gate
    requires name !in s.profiles && id !in s.fate
    ensures IsRun(s0, run, t) && run0 <= run && Beside(s, t, c) && t.At(c).Idle? && t.lock == []
    ensures t.profiles == s.profiles[name := id] && t.fate == s.fate[id := Listed(name)]
  {
    var run1, s1 := ReloadSpawns(s0, run0, s, c, name, id);
    var run2, s2 := ReloadInserts(s0, run1, s1, c, name, id);
    assert s2.fate == s.fate[id := Listed(name)];
    run, t := Take(s0, run2, s2, c, EndCall);
  }

  // ----- Every kind of client to the end -----

  /** The watcher polls once without a change, then sees one. */
  lemma WatcherAsks(s0: State) returns (run: seq<Action>, t: State)
    requires s0.At(Watcher).Idle? && Watcher !in s0.signalled
    ensures IsRun(s0, run, t) && OnlyAt(s0, t, Watcher, Queued, s0.lock + [Watcher])
  {
    var s := s0;
    run := [];
    assert IsRun(s0, run, s);
    run, s := Take(s0, run, s, Watcher, Tick);
    run, s := Take(s0, run, s, Watcher, NoChange);
    run, s := Take(s0, run, s, Watcher, Tick);
    run, t := Take(s0, run, s, Watcher, BeginReload);
  }

  /** Then it reloads to the end. */
  lemma WatcherReloads(polling: bool, mcp: bool, name: ProfileName) returns (run: seq<Action>, t: State)
    ensures IsRun(Boot(true, polling, mcp), run, t) && t.main.Serving? && !t.gate && t.lock == []
    ensures t.At(Watcher).Idle? && t.At(Sighup).Idle? && t.At(Mcp(0)).Idle? && t.mcp == mcp
    ensures t.profiles == map[name := 0] && t.fate == map[0 := Listed(name)]
  {
    var s0 := Boot(true, polling, mcp);
    var run1, s := WatcherAsks(s0);
    run, t := ReloadStarts(s0, run1, s, Watcher, name, 0);
  }

  lemma StopTakes(s0: State, run0: seq<Action>, s: State, c: Client, name: ProfileName)
      returns (run: seq<Action>, t: State)
    requires IsRun(s0, run0, s) && s.At(c) == Running([Stop(name)])
    requires s.profiles == map[name := 0] && s.fate == map[0 := Listed(name)]
    ensures IsRun(s0, run, t) && t.At(c) == Stopping(0, []) && t.lock == s.lock
    ensures t.profiles == map[] && t.fate == map[0 := StoppedBy(c)]
  {
    assert [Stop(name)][1..] == [];
    run, t := Take(s0, run0, s, c, TakeOut);
  }

  /** A stop of what runs as `name`, to its end. */
  lemma StopsListed(s0: State, run0: seq<Action>, s: State, c: Client, name: ProfileName)
      returns (run: seq<Action>, t: State)
    requires IsRun(s0, run0, s) && s.At(c) == Running([Stop(name)]) && (s.lock == [c] || s.lock == [])
    requires s.profiles == map[name := 0] && s.fate == map[0 := Listed(name)]
    ensures IsRun(s0, run, t) && t.At(c).Idle? && t.lock == []
    ensures t.profiles == map[] && t.fate == map[0 := Gone]
  {
    var run1, s1 := StopTakes(s0, run0, s, c, name);
    var run2, s2 := Take(s0, run1, s1, c, FinishStop);
    run, t := Take(s0, run2, s2, c, EndCall);
  }

  /** SIGHUP reloads a config without the profile. */
  lemma SighupStops(polling: bool, mcp: bool, name: ProfileName) returns (run: seq<Action>, t: State)
    ensures IsRun(Boot(true, polling, mcp), run, t) && t.At(Sighup).Idle? && t.lock == []
    ensures t.profiles == map[] && t.fate == map[0 := Gone]
  {
    var s0, s := Boot(true, polling, mcp), Boot(true, polling, mcp);
    run, s := WatcherReloads(polling, mcp, name);
    run, s := Take(s0, run, s, Sighup, BeginReload);
    run, s := Take(s0, run, s, Sighup, Grant([Stop(name)]));
    run, t := StopsListed(s0, run, s, Sighup, name);
  }

  /** An MCP call stops the profile without the lock. */
  lemma McpStops(polling: bool, name: ProfileName) returns (run: seq<Action>, t: State)
    ensures IsRun(Boot(true, polling, true), run, t) && t.At(Mcp(0)).Idle? && t.lock == []
    ensures t.profiles == map[] && t.fate == map[0 := Gone]
  {
    var s0, s := Boot(true, polling, true), Boot(true, polling, true);
    run, s := WatcherReloads(polling, true, name);
    run, s := Take(s0, run, s, Mcp(0), BeginStop(name));
    run, t := StopsListed(s0, run, s, Mcp(0), name);
  }

  // ----- The late reload, and the whole shutdown -----

  /** The main task waits for the watcher, whose tick won the select before the signal. */
  ghost predicate SignalledTooLate(s: State)
  {
    && s.main.JoinWatch? && Watcher in s.signalled && s.At(Watcher).Ticked?
    && !s.gate && s.lock == [] && s.profiles == map[] && s.fate == map[]
  }

  lemma RemoteJoined(s0: State, run0: seq<Action>, s: State) returns (run: seq<Action>, t: State)
    requires IsRun(s0, run0, s) && s.main.Serving? && s.At(Sighup).Idle? && s.At(Watcher).Ticked? && !s.gate
    requires s.At(RemotePoller).Idle? || s.At(RemotePoller).Exited?
    requires s.lock == [] && s.profiles == map[] && s.fate == map[]
    ensures IsRun(s0, run, t) && SignalledTooLate(t)
  {
    var u := s;
    run, u := TakeMain(s0, run0, u, BreakLoop);
    run, u := TakeMain(s0, run, u, SendShutdown);
    if u.At(RemotePoller).Idle? {
      run, u := Take(s0, run, u, RemotePoller, SeeShutdown);
    }
    run, u := TakeMain(s0, run, u, Join);
    run, t := TakeMain(s0, run, u, SendShutdown);
  }

  lemma TickBeforeSignal(polling: bool, mcp: bool) returns (run: seq<Action>, t: State)
    ensures IsRun(Boot(true, polling, mcp), run, t) && SignalledTooLate(t)
  {
    var s0, s := Boot(true, polling, mcp), Boot(true, polling, mcp);
    run := [];
    assert IsRun(s0, run, s);
    run, s := Take(s0, run, s, Watcher, Tick);
    run, t := RemoteJoined(s0, run, s);
  }

  /** From there the watcher does start one more reload, and it starts a profile. */
  lemma LateReload(s: State, name: ProfileName) returns (run: seq<Action>, t: State)
    requires SignalledTooLate(s)
    ensures IsRun(s, run, t) && Count(run, ByClient(Watcher, BeginReload)) == 1
    ensures t.main.JoinWatch? && t.At(Watcher).Exited? && !t.gate
    ensures t.profiles == map[name := 0] && t.fate == map[0 := Listed(name)]
  {
    assert IsRun(s, [], s);
    var s1, a := s, ByClient(Watcher, BeginReload);
    run, s1 := Take(s, [], s, Watcher, BeginReload);
    run, s1 := ReloadStarts(s, run, s1, Watcher, name, 0);
    assert run[0] == a;
    run, t := Take(s, run, s1, Watcher, SeeShutdown);
    assert run[0] == a;
    AtMostOneLateReload(s, run, t, Watcher);
  }

  /** The drain stops it, and the daemon is done. */
  lemma DrainsAndFinishes(s: State, name: ProfileName) returns (run: seq<Action>, t: State)
    requires s.main.JoinWatch? && s.At(Watcher).Exited?
    requires s.profiles == map[name := 0] && s.fate == map[0 := Listed(name)]
    ensures IsRun(s, run, t) && t.main.Finished? && t.gate && t.profiles == map[] && t.fate == map[0 := Gone]
  {
    assert IsRun(s, [], s);
    var u := s;
    run, u := TakeMain(s, [], u, Join);
    run, u := TakeMain(s, run, u, DrainAll);
    assert u.fate == map[0 := Draining];
    run, u := TakeMain(s, run, u, DrainedStop(0));
    assert u.fate == map[0 := Gone];
    run, t := TakeMain(s, run, u, LeaveDrain);
  }

  lemma {:induction false} RunsJoin(s: State, a: seq<Action>, t: State, b: seq<Action>, u: State)
    requires IsRun(s, a, t) && IsRun(t, b, u)
    ensures IsRun(s, a + b, u)
    decreases |a|
  {
    if a == [] {
      assert a + b == b;
    } else {
      RunsJoin(Do(s, a[0]), a[1..], t, b, u);
      assert (a + b)[1..] == a[1..] + b;
    }
  }

  /** A whole life: a reload that begins after the signal, and still nothing is left. */
  lemma LateReloadIsDrained(polling: bool, mcp: bool, name: ProfileName) returns (run: seq<Action>, t: State)
    ensures IsRun(Boot(true, polling, mcp), run, t) && ByClient(Watcher, BeginReload) in run
    ensures t.main.Finished? && t.profiles == map[] && t.fate == map[0 := Gone]
  {
    var s0 := Boot(true, polling, mcp);
    var run1, s1 := TickBeforeSignal(polling, mcp);
    var run2, s2 := LateReload(s1, name);
    var run3, s3 := DrainsAndFinishes(s2, name);
    RunsJoin(s0, run1, s1, run2, s2);
    RunsJoin(s0, run1 + run2, s2, run3, s3);
    CountedIsIn(run2, ByClient(Watcher, BeginReload));
    run, t := run1 + run2 + run3, s3;
  }

  lemma {:induction false} CountedIsIn(run: seq<Action>, a: Action)
    requires Count(run, a) > 0
    ensures a in run
  {
    if run[0] != a {
      CountedIsIn(run[1..], a);
    }
  }

  // ----- Once the gate is up -----

  /** Past the unlocked gate check of a start, so that it may still spawn. */
  predicate PastCheck(p: Pc) { p.Displacing? || p.Building? }

  lemma GatedStep(s: State, a: Action, c: Client)
    requires s.gate && Enabled(s, a) && !PastCheck(s.At(c))
    ensures Do(s, a).gate && !PastCheck(Do(s, a).At(c)) && (StepOf(a, c) ==> !a.step.Spawn?)
  {
    if StepOf(a, c) {
      StepMovesOne(s, c, a.step);
    } else {
      OthersStay(s, a, c);
    }
  }

  /** A client that is not past that check never spawns again, in any continuation. */
  lemma {:induction false} NoSpawnOnceGated(s: State, run: seq<Action>, t: State, c: Client, i: nat)
    requires s.gate && !PastCheck(s.At(c)) && IsRun(s, run, t) && i < |run| && StepOf(run[i], c)
    ensures !run[i].step.Spawn?
    decreases |run|
  {
    GatedStep(s, run[0], c);
    if i > 0 {
      NoSpawnOnceGated(Do(s, run[0]), run[1..], t, c, i - 1);
    }
  }

  /** A reload that gets the lock after the gate is up makes no call at all. */
  lemma GatedReloadIsSkipped(s: State, c: Client, plan: seq<Call>)
    requires s.gate && CanStep(s, c, Grant(plan))
    ensures var t := DoStep(s, c, Grant(plan));
            && CanStep(t, c, EndCall)
            && var u := DoStep(t, c, EndCall);
               u.At(c).Idle? && u.profiles == s.profiles && u.fate == s.fate
  {
    StepMovesOne(s, c, Grant(plan));
    var t := DoStep(s, c, Grant(plan));
    StepMovesOne(t, c, EndCall);
  }

  // ----- Starts of disabled profiles, and clones given back -----

  /** A start of a disabled profile removes what runs under its name and spawns nothing. */
  lemma DisabledStartOnlyRemoves(s: State, c: Client, name: ProfileName, rest: seq<Call>)
    requires !s.gate && s.At(c) == Running([Start(name, false)] + rest)
    ensures CanStep(s, c, CheckGate)
    ensures var t := DoStep(s, c, CheckGate);
            && CanStep(t, c, Displace)
            && var u := DoStep(t, c, Displace);
               u.At(c) == Running(rest) && u.profiles == s.profiles - {name}
    ensures Consistent(s) ==> DoStep(DoStep(s, c, CheckGate), c, Displace).fate.Keys == s.fate.Keys
  {
    assert ([Start(name, false)] + rest)[1..] == rest;
    StepMovesOne(s, c, CheckGate);
    var t := DoStep(s, c, CheckGate);
    KeysKept(t, name, s);
    StepMovesOne(t, c, Displace);
  }

  lemma KeysKept(t: State, name: ProfileName, s: State)
    requires t.profiles == s.profiles && t.fate == s.fate
    ensures Consistent(s) ==> Displaced(t, name).Keys == s.fate.Keys
  {
  }

  /** An MCP call can always give its clones back, and the last clone ends a displaced
      supervisor. */
  lemma LastCloneEnds(s: State, c: Client, id: SupId)
    requires s.At(c).Borrowing? && id in s.fate && s.fate[id].Lingering?
    ensures CanStep(s, c, Release)
    ensures var t := DoStep(s, c, Release);
            t.At(c).Idle? && id in t.fate && (t.fate[id].Gone? <==> !s.LentBesides(id, c))
  {
    StepMovesOne(s, c, Release);
  }
}
