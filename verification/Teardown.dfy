/**
 Reloads, the shutdown protocol of the config watcher and the shutdown gate of the
 orchestrator, as one transition system.

 Sources: `spawn` and `ConfigWatchHandle::shutdown` in
 `crates/spt-bin/src/config_watcher.rs`, the signal loop and teardown of
 `tunnel_run` in `crates/spt-bin/src/cli_dispatch.rs`, the config cell and the MCP
 calls in `crates/spt-bin/src/controller.rs`, and `start_profile_with_auth`,
 `stop_profile` and `shutdown_deadline` in `crates/spt-supervisor/src/orchestrator.rs`.

 Each action is one atomic step of one task: everything between two awaits or lock
 sections can interleave with every other task.
 */
module Teardown {

  datatype ProfileName = ProfileName(text: string)

  type SupId = nat

  /** Who reloads: the file watcher, the remote-config poller, SIGHUP handled inline
      by the main task, and any number of MCP calls. */
  datatype Client = Watcher | RemotePoller | Sighup | Mcp(n: nat)

  /** One call into the orchestrator; a restart is a stop and then a start. */
  datatype Call = Start(name: ProfileName, enabled: bool) | Stop(name: ProfileName)

  /** Where a client is. `rest` is what remains of its plan after the current call. */
  datatype Pc =
    | Idle                                                        // waiting for its next trigger
    | Ticked                                                      // the tick won the select; not yet polled
    | Queued                                                      // waiting for the config cell's lock
    | Running(rest: seq<Call>)                                    // between two orchestrator calls
    | Displacing(name: ProfileName, enabled: bool, rest: seq<Call>) // start: past the unlocked gate check
    | Building(name: ProfileName, rest: seq<Call>)                // start: old instance dropped
    | Holding(name: ProfileName, sup: SupId, rest: seq<Call>)     // start: spawned, not yet inserted
    | Stopping(sup: SupId, rest: seq<Call>)                       // stop: removed, awaiting its end
    | Borrowing(sups: set<SupId>)                                 // an MCP call with clones of their handles
    | Exited                                                      // returned for good

  /** Where a supervisor that was ever spawned is now. It lingers when it has been
      displaced while an MCP call still has a clone of its handle. */
  datatype Fate =
    | Held(owner: Client)
    | Listed(name: ProfileName)
    | StoppedBy(owner: Client)
    | Draining
    | Lingering
    | Gone

  datatype MainPc = Serving | SignalRemote | JoinRemote | SignalWatch | JoinWatch | Drain | AwaitStops | Finished

  /** `lock` is the config cell's lock: its first client holds it or is next to, the
      others wait in the order they came. `mcp` says whether MCP is served at all. */
  datatype State = State(
    mcp: bool,
    main: MainPc,
    pc: map<Client, Pc>,
    lock: seq<Client>,
    signalled: set<Client>,
    profiles: map<ProfileName, SupId>,
    gate: bool,
    fate: map<SupId, Fate>
  ) {
    function At(c: Client): Pc { if c in pc then pc[c] else Idle }

    predicate First(c: Client) { lock != [] && lock[0] == c }

    predicate Lends(id: SupId, d: Client) { d in pc && pc[d].Borrowing? && id in pc[d].sups && d.Mcp? }

    /** Some MCP call has a clone of the handle of `id`. */
    predicate Lent(id: SupId) { exists d :: d in pc && Lends(id, d) }

    predicate LentBesides(id: SupId, c: Client) { exists d :: d in pc && d != c && Lends(id, d) }
  }

  /** A step of one client. */
  datatype Step =
    | Tick
    | NoChange
    | BeginReload
    | Grant(plan: seq<Call>)
    | Snapshot(call: Call)
    | BeginStop(name: ProfileName)
    | EndCall
    | SeeShutdown
    | CheckGate
    | Displace
    | Spawn(id: SupId)
    | Insert
    | TakeOut
    | FinishStop
    | Borrow(name: ProfileName)
    | Release

  /** A step of the main task, or of a supervisor it drained. */
  datatype MainStep = BreakLoop | SendShutdown | Join | DrainAll | DrainedStop(id: SupId) | LeaveDrain

  datatype Action = ByClient(c: Client, step: Step) | ByMain(act: MainStep)

  predicate Polls(c: Client) { c.Watcher? || c.RemotePoller? }

  predicate CanStep(s: State, c: Client, step: Step)
  {
    var p := s.At(c);
    match step
    // The select is biased: a pending shutdown wins over the tick.
    case Tick => Polls(c) && p.Idle? && c !in s.signalled
    case NoChange => p.Ticked?
    case BeginReload =>
      if Polls(c) then p.Ticked? else p.Idle? && (if c.Sighup? then s.main.Serving? else s.mcp)
    // The plan is made and applied while the lock is held.
    case Grant(_) => p.Queued? && s.First(c)
    // An MCP start only copies the config under the lock; an MCP stop does not take it.
    case Snapshot(call) => c.Mcp? && p.Queued? && s.First(c) && call.Start?
    case BeginStop(_) => c.Mcp? && s.mcp && p.Idle?
    case EndCall => p == Running([])
    case SeeShutdown => Polls(c) && p.Idle? && c in s.signalled
    case CheckGate => p.Running? && p.rest != [] && p.rest[0].Start?
    case Displace => p.Displacing?
    case Spawn(id) => p.Building? && id !in s.fate
    case Insert => p.Holding?
    case TakeOut => p.Running? && p.rest != [] && p.rest[0].Stop?
    case FinishStop => p.Stopping?
    // A failover, a session drain or a benchmark run looks a supervisor up and keeps
    // its handle across awaits.
    case Borrow(name) => c.Mcp? && s.mcp && (p.Idle? || p.Borrowing?) && name in s.profiles
    case Release => p.Borrowing?
  }

  function PcAfter(s: State, c: Client, step: Step): Pc
    requires CanStep(s, c, step)
  {
    var p := s.At(c);
    match step
    case Tick => Ticked
    case NoChange => Idle
    case BeginReload => Queued
    // Applying a plan is skipped as a whole once the gate is up.
    case Grant(plan) => Running(if s.gate then [] else plan)
    case Snapshot(call) => Running([call])
    case BeginStop(name) => Running([Stop(name)])
    case EndCall => Idle
    case SeeShutdown => Exited
    case CheckGate =>
      if s.gate then Running(p.rest[1..]) else Displacing(p.rest[0].name, p.rest[0].enabled, p.rest[1..])
    case Displace => if p.enabled then Building(p.name, p.rest) else Running(p.rest)
    case Spawn(id) => Holding(p.name, id, p.rest)
    case Insert => Running(p.rest)
    case TakeOut =>
      var name := p.rest[0].name;
      if name in s.profiles then Stopping(s.profiles[name], p.rest[1..]) else Running(p.rest[1..])
    case FinishStop => Running(p.rest)
    case Borrow(name) => Borrowing((if p.Borrowing? then p.sups else {}) + {s.profiles[name]})
    case Release => Idle
  }

  function LockAfter(s: State, c: Client, step: Step): seq<Client>
  {
    match step
    case BeginReload => s.lock + [c]
    case Snapshot(_) | EndCall => if s.First(c) then s.lock[1..] else s.lock
    case _ => s.lock
  }

  function ProfilesAfter(s: State, c: Client, step: Step): map<ProfileName, SupId>
    requires CanStep(s, c, step)
  {
    var p := s.At(c);
    match step
    case Displace => s.profiles - {p.name}
    case Insert => if s.gate then s.profiles else s.profiles[p.name := p.sup]
    case TakeOut => s.profiles - {p.rest[0].name}
    case _ => s.profiles
  }

  /** The supervisor listed under `name`, if any, meets fate `f`. */
  function Fated(s: State, name: ProfileName, f: Fate): map<SupId, Fate>
  {
    if name in s.profiles then s.fate[s.profiles[name] := f] else s.fate
  }

  /** Removing a handle from the map ends its supervisor unless it is lent. */
  function Displaced(s: State, name: ProfileName): map<SupId, Fate>
  {
    Fated(s, name, if name in s.profiles && s.Lent(s.profiles[name]) then Lingering else Gone)
  }

  /** The last clone of a displaced supervisor's handle ends it. */
  function Returned(s: State, c: Client): map<SupId, Fate>
  {
    map id | id in s.fate :: if s.fate[id].Lingering? && !s.LentBesides(id, c) then Gone else s.fate[id]
  }

  function FateAfter(s: State, c: Client, step: Step): map<SupId, Fate>
    requires CanStep(s, c, step)
  {
    var p := s.At(c);
    match step
    case Displace => Displaced(s, p.name)
    case Spawn(id) => s.fate[id := Held(c)]
    case Insert => if s.gate then s.fate[p.sup := Gone] else Displaced(s, p.name)[p.sup := Listed(p.name)]
    case TakeOut => Fated(s, p.rest[0].name, StoppedBy(c))
    case FinishStop => s.fate[p.sup := Gone]
    case Release => Returned(s, c)
    case _ => s.fate
  }

  function DoStep(s: State, c: Client, step: Step): State
    requires CanStep(s, c, step)
  {
    s.(pc := s.pc[c := PcAfter(s, c, step)], lock := LockAfter(s, c, step),
    profiles := ProfilesAfter(s, c, step), fate := FateAfter(s, c, step))
  }

  predicate CanMain(s: State, act: MainStep)
  {
    match act
    // SIGHUP reloads are awaited inside the loop.
    case BreakLoop => s.main.Serving? && s.At(Sighup).Idle?
    case SendShutdown => s.main.SignalRemote? || s.main.SignalWatch?
    case Join => (s.main.JoinRemote? && s.At(RemotePoller).Exited?) || (s.main.JoinWatch? && s.At(Watcher).Exited?)
    case DrainAll => s.main.Drain?
    case DrainedStop(id) => id in s.fate && s.fate[id].Draining?
    // All stopped, or the deadline has passed.
    case LeaveDrain => s.main.AwaitStops?
  }

  function DoMain(s: State, act: MainStep): State
    requires CanMain(s, act)
  {
    match act
    case BreakLoop => s.(main := SignalRemote)
    case SendShutdown =>
      if s.main.SignalRemote? then s.(main := JoinRemote, signalled := s.signalled + {RemotePoller})
      else s.(main := JoinWatch, signalled := s.signalled + {Watcher})
    case Join => s.(main := if s.main.JoinRemote? then SignalWatch else Drain)
    case DrainAll =>
      s.(main := AwaitStops, gate := true, profiles := map[],
      fate := map id | id in s.fate :: if s.fate[id].Listed? then Draining else s.fate[id])
    case DrainedStop(id) => s.(fate := s.fate[id := Gone])
    case LeaveDrain => s.(main := Finished)
  }

  predicate Enabled(s: State, a: Action)
  {
    match a
    case ByClient(c, step) => CanStep(s, c, step)
    case ByMain(act) => CanMain(s, act)
  }

  function Do(s: State, a: Action): State
    requires Enabled(s, a)
  {
    match a
    case ByClient(c, step) => DoStep(s, c, step)
    case ByMain(act) => DoMain(s, act)
  }

  /** A handle that was never spawned behaves like a task that has already exited. */
  function Boot(watching: bool, polling: bool, mcp: bool): State
  {
    State(mcp, Serving,
          map[Watcher := if watching then Idle else Exited, RemotePoller := if polling then Idle else Exited],
          [], {}, map[], false, map[])
  }

  // ----- Runs -----

  ghost predicate IsRun(s: State, run: seq<Action>, t: State)
    decreases |run|
  {
    if run == [] then s == t
    else Enabled(s, run[0]) && IsRun(Do(s, run[0]), run[1..], t)
  }

  ghost predicate Reachable(t: State)
  {
    exists watching, polling, mcp, run :: IsRun(Boot(watching, polling, mcp), run, t)
  }

  predicate StepOf(a: Action, c: Client) { a.ByClient? && a.c == c }

  // ----- The invariant -----

  predicate PastRemote(m: MainPc) { !m.Serving? && !m.SignalRemote? && !m.JoinRemote? }

  predicate PastWatch(m: MainPc) { m.Drain? || m.AwaitStops? || m.Finished? }

  ghost predicate Phases(s: State)
  {
    && (s.gate <==> s.main.AwaitStops? || s.main.Finished?)
    && (PastRemote(s.main) ==> s.At(RemotePoller).Exited?)
    && (PastWatch(s.main) ==> s.At(Watcher).Exited?)
    && (!s.main.Serving? ==> s.At(Sighup).Idle?)
    && (s.gate ==> s.profiles == map[])
    && (forall c :: s.At(c).Ticked? || s.At(c).Exited? ==> Polls(c))
    && (forall c :: s.At(c).Borrowing? ==> c.Mcp?)
    && (forall c: Client :: c.Mcp? && !s.mcp ==> s.At(c).Idle?)
  }

  /** Inside orchestrator calls. */
  predicate InCalls(p: Pc) { p.Running? || p.Displacing? || p.Building? || p.Holding? || p.Stopping? }

  /** Clients queue for the lock once each; only the first can be past it, and only
      MCP clients make calls without it. */
  ghost predicate Locking(s: State)
  {
    && (forall i, j :: 0 <= i < j < |s.lock| ==> s.lock[i] != s.lock[j])
    && (forall i :: 0 <= i < |s.lock| ==> s.At(s.lock[i]).Queued? || (i == 0 && InCalls(s.At(s.lock[i]))))
    && (forall c :: s.At(c).Queued? ==> c in s.lock)
    && (forall c: Client :: InCalls(s.At(c)) && !c.Mcp? ==> s.First(c))
  }

  /** The profile map and the fates agree, one supervisor per name. */
  ghost predicate Listing(s: State)
  {
    && (forall n :: n in s.profiles ==> s.profiles[n] in s.fate && s.fate[s.profiles[n]] == Listed(n))
    && (forall id :: id in s.fate && s.fate[id].Listed? ==>
          s.fate[id].name in s.profiles && s.profiles[s.fate[id].name] == id)
  }

  /** A supervisor outside the map belongs to the one task working on it. */
  ghost predicate Ownership(s: State)
  {
    && (forall c :: s.At(c).Holding? ==> s.At(c).sup in s.fate && s.fate[s.At(c).sup] == Held(c))
    && (forall c :: s.At(c).Stopping? ==> s.At(c).sup in s.fate && s.fate[s.At(c).sup] == StoppedBy(c))
    && (forall id :: id in s.fate && s.fate[id].Held? ==>
          s.At(s.fate[id].owner).Holding? && s.At(s.fate[id].owner).sup == id)
    && (forall id :: id in s.fate && s.fate[id].StoppedBy? ==>
          s.At(s.fate[id].owner).Stopping? && s.At(s.fate[id].owner).sup == id)
  }

  ghost predicate Consistent(s: State) { Listing(s) && Ownership(s) }

  /** A supervisor lingers only while it is lent. */
  ghost predicate Lending(s: State)
  {
    forall id :: id in s.fate && s.fate[id].Lingering? ==> s.Lent(id)
  }

  ghost predicate Inv(s: State) { Phases(s) && Locking(s) && Consistent(s) && Lending(s) }

  // ----- Every step keeps supervisors accounted for -----

  ghost predicate OnlyMoves(s: State, t: State, c: Client) { forall d :: d != c ==> t.At(d) == s.At(d) }

  lemma StepMovesOne(s: State, c: Client, step: Step)
    requires CanStep(s, c, step)
    ensures OnlyMoves(s, DoStep(s, c, step), c) && DoStep(s, c, step).At(c) == PcAfter(s, c, step)
  {
  }

  /** The profile map and the listed supervisors are as before. */
  lemma ListingSame(s: State, t: State)
    requires Listing(s) && t.profiles == s.profiles
    requires forall id :: id in s.fate && s.fate[id].Listed? ==> id in t.fate && t.fate[id] == s.fate[id]
    requires forall id :: id in t.fate && t.fate[id].Listed? ==> id in s.fate && t.fate[id] == s.fate[id]
    ensures Listing(t)
  {
  }

  lemma ListingRemoves(s: State, t: State, name: ProfileName, f: Fate)
    requires Listing(s) && !f.Listed? && t.profiles == s.profiles - {name} && t.fate == Fated(s, name, f)
    ensures Listing(t)
  {
  }

  lemma ListingAdds(s: State, t: State, name: ProfileName, id: SupId, f: Fate)
    requires Listing(s) && id in s.fate && !s.fate[id].Listed? && !f.Listed?
    requires t.profiles == s.profiles[name := id] && t.fate == Fated(s, name, f)[id := Listed(name)]
    ensures Listing(t)
  {
  }

  lemma ClientKeepsListing(s: State, c: Client, step: Step)
    requires Consistent(s) && CanStep(s, c, step)
    ensures Listing(DoStep(s, c, step))
  {
    var t, p := DoStep(s, c, step), s.At(c);
    match step
    case Displace =>
      ListingRemoves(s, t, p.name, if p.name in s.profiles && s.Lent(s.profiles[p.name]) then Lingering else Gone);
    case TakeOut => ListingRemoves(s, t, p.rest[0].name, StoppedBy(c));
    case Insert =>
      if s.gate {
        ListingSame(s, t);
      } else {
        ListingAdds(s, t, p.name, p.sup,
                    if p.name in s.profiles && s.Lent(s.profiles[p.name]) then Lingering else Gone);
      }
    case _ => ListingSame(s, t);
  }

  predicate Owned(f: Fate) { f.Held? || f.StoppedBy? }

  /** The supervisor a client at `p` has in hand, and what its fate says then. */
  function InHand(p: Pc): set<SupId> { if p.Holding? || p.Stopping? then {p.sup} else {} }

  function HandFate(p: Pc, c: Client): Fate { if p.Holding? then Held(c) else StoppedBy(c) }

  /** Whoever owns a supervisor other than those in `ids` goes on owning it. */
  ghost predicate SameOwned(s: State, t: State, ids: set<SupId>)
  {
    && (forall id :: id in s.fate && Owned(s.fate[id]) && id !in ids ==> id in t.fate && t.fate[id] == s.fate[id])
    && (forall id :: id in t.fate && Owned(t.fate[id]) && id !in ids ==> id in s.fate && t.fate[id] == s.fate[id])
  }

  /** A client puts down what it has in hand, takes something else up, or neither. */
  ghost predicate HandsMoved(s: State, t: State, c: Client)
  {
    && SameOwned(s, t, InHand(s.At(c)) + InHand(t.At(c)))
    && (forall id :: id in InHand(s.At(c)) - InHand(t.At(c)) ==> id in t.fate && !Owned(t.fate[id]))
    && (forall id :: id in InHand(t.At(c)) ==>
                       && id in t.fate && t.fate[id] == HandFate(t.At(c), c)
                       && (id in s.fate ==> !Owned(s.fate[id])))
  }

  /** Every client has in hand what its place says, and every owned supervisor is in hand. */
  ghost predicate HandsFull(s: State)
  {
    forall d, id :: id in InHand(s.At(d)) ==> id in s.fate && s.fate[id] == HandFate(s.At(d), d)
  }

  ghost predicate OwnersHold(s: State)
  {
    forall id :: id in s.fate && Owned(s.fate[id]) ==>
      id in InHand(s.At(s.fate[id].owner)) && s.fate[id] == HandFate(s.At(s.fate[id].owner), s.fate[id].owner)
  }

  lemma OwnershipIsHands(s: State)
    ensures Ownership(s) <==> HandsFull(s) && OwnersHold(s)
  {
    if Ownership(s) {
      forall d, id | id in InHand(s.At(d)) ensures id in s.fate && s.fate[id] == HandFate(s.At(d), d) {
      }
    }
    if HandsFull(s) && OwnersHold(s) {
      forall d | s.At(d).Holding? || s.At(d).Stopping?
        ensures s.At(d).sup in s.fate && s.fate[s.At(d).sup] == HandFate(s.At(d), d)
      {
        assert s.At(d).sup in InHand(s.At(d));
      }
    }
  }

  lemma HandsStayFull(s: State, t: State, c: Client)
    requires HandsFull(s) && OnlyMoves(s, t, c) && HandsMoved(s, t, c)
    ensures HandsFull(t)
  {
    forall d, id | id in InHand(t.At(d)) ensures id in t.fate && t.fate[id] == HandFate(t.At(d), d) {
      if d != c {
        assert id in InHand(s.At(d));
        assert Owned(s.fate[id]) && id !in InHand(s.At(c));
      }
    }
  }

  lemma OwnersStay(s: State, t: State, c: Client)
    requires OwnersHold(s) && OnlyMoves(s, t, c) && HandsMoved(s, t, c)
    ensures OwnersHold(t)
  {
    forall id | id in t.fate && Owned(t.fate[id])
      ensures id in InHand(t.At(t.fate[id].owner))
      ensures t.fate[id] == HandFate(t.At(t.fate[id].owner), t.fate[id].owner)
    {
      if id !in InHand(t.At(c)) {
        assert id !in InHand(s.At(c));
        assert t.fate[id].owner != c;
      }
    }
  }

  lemma ClientKeepsOwnership(s: State, c: Client, step: Step)
    requires Consistent(s) && CanStep(s, c, step)
    ensures Ownership(DoStep(s, c, step))
  {
    var t := DoStep(s, c, step);
    StepMovesOne(s, c, step);
    HandsMove(s, c, step);
    OwnershipIsHands(s);
    OwnershipIsHands(t);
    HandsStayFull(s, t, c);
    OwnersStay(s, t, c);
  }

  /** What each step takes up or puts down. */
  lemma HandsMove(s: State, c: Client, step: Step)
    requires Consistent(s) && CanStep(s, c, step)
    ensures HandsMoved(s, DoStep(s, c, step), c)
  {
    StepMovesOne(s, c, step);
    match step
    case Displace => HandsDisplace(s, c);
    case Spawn(id) => HandsSpawn(s, c, id);
    case Insert => HandsInsert(s, c);
    case TakeOut => HandsTakeOut(s, c);
    case FinishStop => HandsFinish(s, c);
    case Release => HandsRelease(s, c);
    case _ => assert FateAfter(s, c, step) == s.fate;
  }

  lemma HandsDisplace(s: State, c: Client)
    requires Listing(s) && CanStep(s, c, Displace)
    ensures HandsMoved(s, DoStep(s, c, Displace), c)
  {
    var t, p := DoStep(s, c, Displace), s.At(c);
    HandsEmpty(s, t, c, p.name, if p.name in s.profiles && s.Lent(s.profiles[p.name]) then Lingering else Gone);
  }

  /** A listed supervisor changes fate without anyone taking it up. */
  lemma HandsEmpty(s: State, t: State, c: Client, name: ProfileName, f: Fate)
    requires Listing(s) && !Owned(f) && t.fate == Fated(s, name, f)
    requires InHand(s.At(c)) == {} && InHand(t.At(c)) == {}
    ensures HandsMoved(s, t, c)
  {
  }

  lemma HandsSpawn(s: State, c: Client, id: SupId)
    requires CanStep(s, c, Spawn(id))
    ensures HandsMoved(s, DoStep(s, c, Spawn(id)), c)
  {
  }

  /** A client puts down the supervisor it holds: listed under `name`, or dropped. */
  lemma HandsPutDown(s: State, t: State, c: Client, name: ProfileName, f: Fate, g: Fate)
    requires Consistent(s) && s.At(c).Holding? && InHand(t.At(c)) == {} && !Owned(f) && !Owned(g)
    requires t.fate == Fated(s, name, f)[s.At(c).sup := g] || t.fate == s.fate[s.At(c).sup := g]
    ensures HandsMoved(s, t, c)
  {
  }

  lemma HandsInsert(s: State, c: Client)
    requires Consistent(s) && CanStep(s, c, Insert)
    ensures HandsMoved(s, DoStep(s, c, Insert), c)
  {
    var t, p := DoStep(s, c, Insert), s.At(c);
    assert t.At(c) == Running(p.rest);
    var f := if p.name in s.profiles && s.Lent(s.profiles[p.name]) then Lingering else Gone;
    HandsPutDown(s, t, c, p.name, f, if s.gate then Gone else Listed(p.name));
  }

  /** A client takes a listed supervisor up to stop it. */
  lemma HandsTake(s: State, t: State, c: Client, name: ProfileName)
    requires Listing(s) && InHand(s.At(c)) == {} && name in s.profiles
    requires t.At(c).Stopping? && t.At(c).sup == s.profiles[name] && t.fate == Fated(s, name, StoppedBy(c))
    ensures HandsMoved(s, t, c)
  {
  }

  lemma HandsTakeOut(s: State, c: Client)
    requires Listing(s) && CanStep(s, c, TakeOut)
    ensures HandsMoved(s, DoStep(s, c, TakeOut), c)
  {
    var t, name := DoStep(s, c, TakeOut), s.At(c).rest[0].name;
    assert t.At(c) == PcAfter(s, c, TakeOut);
    if name in s.profiles {
      HandsTake(s, t, c, name);
    } else {
      HandsEmpty(s, t, c, name, Gone);
    }
  }

  lemma HandsFinish(s: State, c: Client)
    requires Ownership(s) && CanStep(s, c, FinishStop)
    ensures HandsMoved(s, DoStep(s, c, FinishStop), c)
  {
  }

  lemma HandsRelease(s: State, c: Client)
    requires CanStep(s, c, Release)
    ensures HandsMoved(s, DoStep(s, c, Release), c)
  {
  }

  lemma DrainKept(s: State)
    requires Consistent(s) && CanMain(s, DrainAll)
    ensures Consistent(DoMain(s, DrainAll))
  {
    assert forall d :: DoMain(s, DrainAll).At(d) == s.At(d);
  }

  /** A step of the main task moves no client and leaves the lock alone. */
  lemma MainLeavesClients(s: State, act: MainStep)
    requires CanMain(s, act)
    ensures DoMain(s, act).pc == s.pc && DoMain(s, act).lock == s.lock && DoMain(s, act).mcp == s.mcp
    ensures forall d :: DoMain(s, act).At(d) == s.At(d)
  {
  }

  lemma DrainedStopKept(s: State, t: State, id: SupId)
    requires Consistent(s) && id in s.fate && s.fate[id].Draining?
    requires t.pc == s.pc && t.profiles == s.profiles && t.fate == s.fate[id := Gone]
    ensures Consistent(t)
  {
    assert forall d :: t.At(d) == s.At(d);
  }

  lemma SameBooksKept(s: State, t: State)
    requires Consistent(s) && t.pc == s.pc && t.profiles == s.profiles && t.fate == s.fate
    ensures Consistent(t)
  {
    assert forall d :: t.At(d) == s.At(d);
  }

  lemma MainKeepsConsistent(s: State, act: MainStep)
    requires Consistent(s) && CanMain(s, act)
    ensures Consistent(DoMain(s, act))
  {
    MainLeavesClients(s, act);
    if act.DrainAll? {
      DrainKept(s);
    } else if act.DrainedStop? {
      DrainedStopKept(s, DoMain(s, act), act.id);
    } else {
      SameBooksKept(s, DoMain(s, act));
    }
  }

  // ----- Every step keeps lingering supervisors lent -----

  /** Whatever lingers after a step was lent before it, and not only to a client that
      gives its clones back. */
  lemma LingeringWasLent(s: State, c: Client, step: Step, id: SupId)
    requires Lending(s) && CanStep(s, c, step)
    requires id in FateAfter(s, c, step) && FateAfter(s, c, step)[id].Lingering?
    ensures s.Lent(id) && (step.Release? ==> s.LentBesides(id, c))
  {
  }

  lemma LentStays(s: State, c: Client, step: Step, id: SupId)
    requires CanStep(s, c, step) && s.Lent(id) && (step.Release? ==> s.LentBesides(id, c))
    ensures DoStep(s, c, step).Lent(id)
  {
    var t := DoStep(s, c, step);
    if step.Release? {
      var d :| d in s.pc && d != c && s.Lends(id, d);
      assert t.Lends(id, d);
    } else {
      var d :| d in s.pc && s.Lends(id, d);
      assert t.Lends(id, d);
    }
  }

  lemma ClientKeepsLending(s: State, c: Client, step: Step)
    requires Lending(s) && CanStep(s, c, step)
    ensures Lending(DoStep(s, c, step))
  {
    var t := DoStep(s, c, step);
    forall id | id in t.fate && t.fate[id].Lingering? ensures t.Lent(id) {
      LingeringWasLent(s, c, step, id);
      LentStays(s, c, step, id);
    }
  }

  lemma MainKeepsLending(s: State, act: MainStep)
    requires Lending(s) && CanMain(s, act)
    ensures Lending(DoMain(s, act))
  {
    var t := DoMain(s, act);
    MainLeavesClients(s, act);
    forall id | id in t.fate && t.fate[id].Lingering? ensures t.Lent(id) {
      assert s.fate[id].Lingering?;
      var d :| d in s.pc && s.Lends(id, d);
      assert t.Lends(id, d);
    }
  }

  // ----- Every step keeps the phases -----

  lemma OthersStay(s: State, a: Action, d: Client)
    requires Enabled(s, a) && !StepOf(a, d)
    ensures Do(s, a).At(d) == s.At(d)
  {
  }

  /** What a client's place says about the step it takes. */
  lemma StepShape(s: State, c: Client, step: Step)
    requires CanStep(s, c, step)
    ensures var p := PcAfter(s, c, step);
            && (p.Ticked? || p.Exited? ==> Polls(c))
            && (p.Borrowing? ==> c.Mcp?)
            && !s.At(c).Exited?
            && (s.At(c).Idle? && c.Sighup? ==> s.main.Serving?)
            && (s.At(c).Idle? && c.Mcp? ==> s.mcp)
  {
  }

  lemma ClientKeepsPhases(s: State, c: Client, step: Step)
    requires Phases(s) && CanStep(s, c, step)
    ensures Phases(DoStep(s, c, step))
  {
    var t := DoStep(s, c, step);
    StepShape(s, c, step);
    assert t.At(c) == PcAfter(s, c, step);
    assert forall d :: d != c ==> t.At(d) == s.At(d);
    assert s.gate ==> t.profiles == map[];
  }

  lemma MainKeepsPhases(s: State, act: MainStep)
    requires Phases(s) && CanMain(s, act)
    ensures Phases(DoMain(s, act))
  {
    MainLeavesClients(s, act);
  }

  // ----- Every step keeps the lock -----

  lemma EnqueueKept(s: State, c: Client)
    requires Locking(s) && CanStep(s, c, BeginReload)
    ensures Locking(DoStep(s, c, BeginReload))
  {
    var t := DoStep(s, c, BeginReload);
    assert !s.At(c).Queued? && !InCalls(s.At(c)) && t.At(c).Queued?;
    assert forall d :: d != c ==> t.At(d) == s.At(d);
    assert c !in s.lock;
    assert t.lock == s.lock + [c];
    assert c in t.lock;
  }

  /** The client gives the lock back, or never had it. */
  lemma LeaveKept(s: State, t: State, c: Client)
    requires Locking(s) && OnlyMoves(s, t, c)
    requires InCalls(s.At(c)) || s.First(c)
    requires !t.At(c).Queued? && (InCalls(t.At(c)) ==> c.Mcp?)
    requires t.lock == if s.First(c) then s.lock[1..] else s.lock
    ensures Locking(t)
  {
    if s.First(c) {
      HandOver(s, t, c);
    } else {
      assert c !in s.lock;
    }
  }

  lemma HandOver(s: State, t: State, c: Client)
    requires Locking(s) && OnlyMoves(s, t, c) && s.First(c) && t.lock == s.lock[1..]
    requires !t.At(c).Queued? && (InCalls(t.At(c)) ==> c.Mcp?)
    ensures Locking(t)
  {
    assert forall i :: 0 <= i < |t.lock| ==> t.lock[i] == s.lock[i + 1];
    forall i | 0 <= i < |t.lock| ensures t.At(t.lock[i]).Queued? {
      assert s.lock[i + 1] != s.lock[0] && s.At(s.lock[i + 1]).Queued?;
    }
    forall d | t.At(d).Queued? ensures d in t.lock {
      assert d in s.lock && d != c;
    }
  }

  /** The client stays where it is with respect to the lock. */
  lemma StayKept(s: State, t: State, c: Client)
    requires Locking(s) && t.lock == s.lock && forall d :: d != c ==> t.At(d) == s.At(d)
    requires !t.At(c).Queued?
    requires InCalls(t.At(c)) ==> s.First(c) || c.Mcp?
    requires c in s.lock ==> s.First(c) && InCalls(t.At(c))
    ensures Locking(t)
  {
  }

  lemma ClientKeepsLocking(s: State, c: Client, step: Step)
    requires Locking(s) && CanStep(s, c, step)
    ensures Locking(DoStep(s, c, step))
  {
    var t := DoStep(s, c, step);
    assert forall d :: d != c ==> t.At(d) == s.At(d);
    assert t.At(c) == PcAfter(s, c, step);
    if step.BeginReload? {
      EnqueueKept(s, c);
    } else if step.Snapshot? || step.EndCall? {
      LeaveKept(s, t, c);
    } else {
      StayKept(s, t, c);
    }
  }

  lemma SameQueueKept(s: State, t: State)
    requires Locking(s) && t.pc == s.pc && t.lock == s.lock
    ensures Locking(t)
  {
    assert forall d :: t.At(d) == s.At(d);
  }

  lemma MainKeepsLocking(s: State, act: MainStep)
    requires Locking(s) && CanMain(s, act)
    ensures Locking(DoMain(s, act))
  {
    MainLeavesClients(s, act);
    SameQueueKept(s, DoMain(s, act));
  }

  // ----- The invariant over runs -----

  lemma InvKept(s: State, a: Action)
    requires Inv(s) && Enabled(s, a)
    ensures Inv(Do(s, a))
  {
    match a
    case ByClient(c, step) =>
      ClientKeepsPhases(s, c, step);
      ClientKeepsLocking(s, c, step);
      ClientKeepsListing(s, c, step);
      ClientKeepsOwnership(s, c, step);
      ClientKeepsLending(s, c, step);
    case ByMain(act) =>
      MainKeepsPhases(s, act);
      MainKeepsLocking(s, act);
      MainKeepsConsistent(s, act);
      MainKeepsLending(s, act);
  }

  lemma {:induction false} RunKeepsInv(s: State, run: seq<Action>, t: State)
    requires Inv(s) && IsRun(s, run, t)
    ensures Inv(t)
    decreases |run|
  {
    if run != [] {
      InvKept(s, run[0]);
      RunKeepsInv(Do(s, run[0]), run[1..], t);
    }
  }

  lemma BootInv(watching: bool, polling: bool, mcp: bool)
    ensures Inv(Boot(watching, polling, mcp))
  {
    var s := Boot(watching, polling, mcp);
    assert forall c :: s.At(c).Idle? || (s.At(c).Exited? && Polls(c));
  }

  lemma ReachableInv(t: State)
    requires Reachable(t)
    ensures Inv(t)
  {
    var watching, polling, mcp, run :| IsRun(Boot(watching, polling, mcp), run, t);
    BootInv(watching, polling, mcp);
    RunKeepsInv(Boot(watching, polling, mcp), run, t);
  }

  // ----- The reload sources are quiet before the drain -----

  predicate InFlight(p: Pc) { !p.Idle? && !p.Exited? }

  /** The config cell's lock keeps reloads apart: of two clients inside orchestrator
      calls at least one is an MCP call. */
  lemma ReloadsExclude(t: State, c: Client, d: Client)
    requires Reachable(t) && c != d && InCalls(t.At(c)) && InCalls(t.At(d))
    ensures c.Mcp? || d.Mcp?
  {
    ReachableInv(t);
  }

  /** From the drain on, the watcher and the remote poller have exited and no
      SIGHUP reload is running: whatever is in flight came in over MCP. */
  lemma QuietAtDrain(t: State, c: Client)
    requires Reachable(t) && PastWatch(t.main)
    ensures t.At(Watcher).Exited? && t.At(RemotePoller).Exited? && t.At(Sighup).Idle?
    ensures InFlight(t.At(c)) ==> c.Mcp? && t.mcp
  {
    ReachableInv(t);
  }

  /** In every continuation, once the watcher has been joined, only MCP clients
      ever take another step. */
  lemma {:induction false} OnlyMcpAfterJoin(s: State, run: seq<Action>, t: State, i: nat)
    requires Inv(s) && PastWatch(s.main) && IsRun(s, run, t) && i < |run|
    ensures run[i].ByClient? ==> run[i].c.Mcp?
    decreases |run|
  {
    InvKept(s, run[0]);
    if i > 0 {
      OnlyMcpAfterJoin(Do(s, run[0]), run[1..], t, i - 1);
    } else if run[0].ByClient? {
      StepShape(s, run[0].c, run[0].step);
    }
  }

  function Count(run: seq<Action>, a: Action): nat
  {
    if run == [] then 0 else (if run[0] == a then 1 else 0) + Count(run[1..], a)
  }

  lemma SignalledStep(s: State, a: Action, c: Client)
    requires Polls(c) && c in s.signalled && Enabled(s, a)
    ensures c in Do(s, a).signalled
    ensures Do(s, a).At(c).Ticked? ==> s.At(c).Ticked?
    ensures a == ByClient(c, BeginReload) ==> s.At(c).Ticked? && !Do(s, a).At(c).Ticked?
  {
    if !StepOf(a, c) {
      OthersStay(s, a, c);
    }
  }

  /** After the shutdown signal a polling task starts at most one more reload:
      the one whose tick had already won the select. */
  lemma {:induction false} AtMostOneLateReload(s: State, run: seq<Action>, t: State, c: Client)
    requires Polls(c) && c in s.signalled && IsRun(s, run, t)
    ensures Count(run, ByClient(c, BeginReload)) <= if s.At(c).Ticked? then 1 else 0
    decreases |run|
  {
    if run != [] {
      SignalledStep(s, run[0], c);
      AtMostOneLateReload(Do(s, run[0]), run[1..], t, c);
    }
  }

  // ----- The shutdown gate -----

  /** Once drained, the profile map stays empty in every continuation. */
  lemma {:induction false} GateStaysShut(s: State, run: seq<Action>, t: State)
    requires Inv(s) && s.gate && IsRun(s, run, t)
    ensures t.gate && t.profiles == map[]
    decreases |run|
  {
    if run != [] {
      InvKept(s, run[0]);
      GateStaysShut(Do(s, run[0]), run[1..], t);
    }
  }

  /** Every supervisor ever spawned is accounted for: ended, in the map under one
      name, in the hands of one task, or displaced and lent to an MCP call. */
  lemma EverySupervisorHasOnePlace(t: State, id: SupId)
    requires Reachable(t) && id in t.fate
    ensures match t.fate[id]
            case Gone => true
            case Draining => true
            case Listed(n) => !t.gate && n in t.profiles && t.profiles[n] == id
            case Held(c) => t.At(c).Holding? && t.At(c).sup == id
            case StoppedBy(c) => t.At(c).Stopping? && t.At(c).sup == id
            case Lingering => exists c :: c in t.pc && t.Lends(id, c)
  {
    ReachableInv(t);
  }

  lemma GoneStaysForStep(s: State, c: Client, step: Step, id: SupId)
    requires Consistent(s) && CanStep(s, c, step) && id in s.fate && s.fate[id].Gone?
    ensures id in FateAfter(s, c, step) && FateAfter(s, c, step)[id].Gone?
  {
  }

  lemma GoneStays(s: State, a: Action, id: SupId)
    requires Consistent(s) && Enabled(s, a) && id in s.fate && s.fate[id].Gone?
    ensures id in Do(s, a).fate && Do(s, a).fate[id].Gone?
  {
    if a.ByClient? {
      GoneStaysForStep(s, a.c, a.step, id);
    }
  }

  lemma {:induction false} GoneForever(s: State, run: seq<Action>, t: State, id: SupId)
    requires Inv(s) && IsRun(s, run, t) && id in s.fate && s.fate[id].Gone?
    ensures id in t.fate && t.fate[id].Gone?
    decreases |run|
  {
    if run != [] {
      GoneStays(s, run[0], id);
      InvKept(s, run[0]);
      GoneForever(Do(s, run[0]), run[1..], t, id);
    }
  }

  /** A lingering supervisor goes on lingering or ends. */
  lemma LingeringStep(s: State, a: Action, id: SupId)
    requires Consistent(s) && Enabled(s, a) && id in s.fate && s.fate[id].Lingering?
    ensures id in Do(s, a).fate && (Do(s, a).fate[id].Lingering? || Do(s, a).fate[id].Gone?)
  {
    if a.ByClient? {
      LingeringClientStep(s, a.c, a.step, id);
    } else {
      LingeringMainStep(s, a.act, id);
    }
  }

  lemma LingeringClientStep(s: State, c: Client, step: Step, id: SupId)
    requires Consistent(s) && CanStep(s, c, step) && id in s.fate && s.fate[id].Lingering?
    ensures id in FateAfter(s, c, step)
    ensures FateAfter(s, c, step)[id].Lingering? || FateAfter(s, c, step)[id].Gone?
  {
  }

  lemma LingeringMainStep(s: State, act: MainStep, id: SupId)
    requires CanMain(s, act) && id in s.fate && s.fate[id].Lingering?
    ensures id in DoMain(s, act).fate && DoMain(s, act).fate[id].Lingering?
  {
  }

  lemma {:induction false} LingersWhileLent(s: State, run: seq<Action>, t: State, id: SupId)
    requires Inv(s) && IsRun(s, run, t) && id in s.fate && s.fate[id].Lingering?
    ensures id in t.fate && (t.fate[id].Gone? || (t.fate[id].Lingering? && t.Lent(id)))
    decreases |run|
  {
    if run != [] {
      var u := Do(s, run[0]);
      InvKept(s, run[0]);
      LingeringStep(s, run[0], id);
      if u.fate[id].Gone? {
        GoneForever(u, run[1..], t, id);
      } else {
        LingersWhileLent(u, run[1..], t, id);
      }
    }
  }

  /** The supervisor a start displaces has ended by the next step of that start
      exactly when no MCP call has a clone of its handle. Otherwise it has ended
      in every state in which the clones have been given back. */
  lemma DisplacedEnds(s: State, c: Client, run: seq<Action>, t: State)
    requires Inv(s) && CanStep(s, c, Displace) && s.At(c).name in s.profiles
    requires IsRun(DoStep(s, c, Displace), run, t)
    ensures var id, u := s.profiles[s.At(c).name], DoStep(s, c, Displace);
            && id in u.fate && (u.fate[id].Gone? <==> !s.Lent(id))
            && id in t.fate && (t.fate[id].Gone? || (t.fate[id].Lingering? && t.Lent(id)))
  {
    var id, u := s.profiles[s.At(c).name], DoStep(s, c, Displace);
    InvKept(s, ByClient(c, Displace));
    if s.Lent(id) {
      LingersWhileLent(u, run, t, id);
    } else {
      GoneForever(u, run, t, id);
    }
  }

  lemma DiscardedByStep(s: State, c: Client, step: Step)
    requires s.gate && s.At(c).Holding? && CanStep(s, c, step)
    ensures s.At(c).sup in FateAfter(s, c, step) && FateAfter(s, c, step)[s.At(c).sup].Gone?
  {
  }

  lemma GateStays(s: State, a: Action)
    requires s.gate && Enabled(s, a)
    ensures Do(s, a).gate
  {
  }

  /** A supervisor spawned by a start that races the drain never makes it: once its
      starter takes any step at all it is gone, in every run and for good. */
  lemma {:induction false} RacingStartIsDiscarded(s: State, run: seq<Action>, t: State, c: Client, i: nat)
    requires Inv(s) && s.gate && s.At(c).Holding? && IsRun(s, run, t)
    requires i < |run| && StepOf(run[i], c)
    ensures s.At(c).sup in t.fate && t.fate[s.At(c).sup].Gone?
    decreases |run|
  {
    var u, id := Do(s, run[0]), s.At(c).sup;
    InvKept(s, run[0]);
    if StepOf(run[0], c) {
      DiscardedByStep(s, c, run[0].step);
      GoneForever(u, run[1..], t, id);
    } else {
      GateStays(s, run[0]);
      OthersStay(s, run[0], c);
      RacingStartIsDiscarded(u, run[1..], t, c, i - 1);
    }
  }

  /** With the gate up and no call in flight, every supervisor ever spawned has ended
      or is being stopped by the drain. */
  lemma NothingLeaks(t: State, id: SupId)
    requires Reachable(t) && t.gate && forall c :: !InFlight(t.At(c))
    requires id in t.fate
    ensures t.fate[id].Gone? || t.fate[id].Draining?
  {
    ReachableInv(t);
    assert forall c :: !t.At(c).Borrowing?;
  }

  // ----- When a reload can be in flight during the drain -----

  lemma {:induction false} RunAppend(s: State, run: seq<Action>, t: State, a: Action)
    requires IsRun(s, run, t) && Enabled(t, a)
    ensures IsRun(s, run + [a], Do(t, a))
    decreases |run|
  {
    if run != [] {
      RunAppend(Do(s, run[0]), run[1..], t, a);
      assert (run + [a])[1..] == run[1..] + [a];
    }
  }

  lemma {:induction false} McpIsFixed(s: State, run: seq<Action>, t: State)
    requires IsRun(s, run, t)
    ensures t.mcp == s.mcp
    decreases |run|
  {
    if run != [] {
      McpIsFixed(Do(s, run[0]), run[1..], t);
    }
  }

  /** The quickest way to the drain for a main task whose pollers are at their select. */
  function TowardsDrain(s: State): Action
  {
    match s.main
    case Serving => ByMain(BreakLoop)
    case SignalRemote | SignalWatch => ByMain(SendShutdown)
    case JoinRemote => if s.At(RemotePoller).Exited? then ByMain(Join) else ByClient(RemotePoller, SeeShutdown)
    case JoinWatch => if s.At(Watcher).Exited? then ByMain(Join) else ByClient(Watcher, SeeShutdown)
    case Drain => ByMain(DrainAll)
    case AwaitStops | Finished => ByMain(LeaveDrain)
  }

  function Distance(s: State): nat
  {
    match s.main
    case Serving => 9
    case SignalRemote => 8
    case JoinRemote => if s.At(RemotePoller).Exited? then 6 else 7
    case SignalWatch => 5
    case JoinWatch => if s.At(Watcher).Exited? then 3 else 4
    case Drain => 2
    case AwaitStops => 1
    case Finished => 0
  }

  /** The pollers rest, and are signalled whenever the main task waits for them. */
  ghost predicate AtRest(s: State)
  {
    && s.At(Sighup).Idle?
    && (s.At(Watcher).Idle? || s.At(Watcher).Exited?)
    && (s.At(RemotePoller).Idle? || s.At(RemotePoller).Exited?)
    && (s.main.JoinRemote? ==> RemotePoller in s.signalled)
    && (s.main.JoinWatch? ==> Watcher in s.signalled)
  }

  /** What a start over MCP has in hand is untouched by the way to the drain. */
  ghost predicate Nearer(s: State, t: State, c: Client, id: SupId)
  {
    && AtRest(t) && Distance(t) < Distance(s) && !t.main.Finished? && (t.main.AwaitStops? ==> t.gate)
    && t.At(c) == s.At(c) && id in t.fate && t.fate[id] == Held(c)
  }

  lemma DrainStep(s: State, c: Client, id: SupId)
    requires AtRest(s) && c.Mcp? && id in s.fate && s.fate[id] == Held(c)
    requires !s.main.AwaitStops? && !s.main.Finished?
    ensures Enabled(s, TowardsDrain(s)) && Nearer(s, Do(s, TowardsDrain(s)), c, id)
  {
    if TowardsDrain(s).ByMain? {
      MainDrainStep(s, c, id);
    } else {
      PollerDrainStep(s, c, id);
    }
  }

  lemma MainDrainStep(s: State, c: Client, id: SupId)
    requires AtRest(s) && c.Mcp? && id in s.fate && s.fate[id] == Held(c)
    requires !s.main.AwaitStops? && !s.main.Finished? && TowardsDrain(s).ByMain?
    ensures Enabled(s, TowardsDrain(s)) && Nearer(s, Do(s, TowardsDrain(s)), c, id)
  {
    var act := TowardsDrain(s).act;
    assert CanMain(s, act);
    MainLeavesClients(s, act);
    if act.DrainAll? {
      DrainKeepsHeld(s, c, id);
    } else {
      assert DoMain(s, act).fate == s.fate;
    }
  }

  lemma DrainKeepsHeld(s: State, c: Client, id: SupId)
    requires id in s.fate && s.fate[id] == Held(c) && CanMain(s, DrainAll)
    ensures id in DoMain(s, DrainAll).fate && DoMain(s, DrainAll).fate[id] == Held(c)
  {
  }

  lemma PollerDrainStep(s: State, c: Client, id: SupId)
    requires AtRest(s) && c.Mcp? && id in s.fate && s.fate[id] == Held(c)
    requires !s.main.AwaitStops? && !s.main.Finished? && TowardsDrain(s).ByClient?
    ensures Enabled(s, TowardsDrain(s)) && Nearer(s, Do(s, TowardsDrain(s)), c, id)
  {
  }

  lemma {:induction false} DrainReachable(s0: State, run0: seq<Action>, s: State, c: Client, id: SupId)
      returns (run: seq<Action>, t: State)
    requires IsRun(s0, run0, s) && AtRest(s) && c.Mcp? && id in s.fate && s.fate[id] == Held(c)
    requires !s.main.Finished? && (s.main.AwaitStops? ==> s.gate)
    ensures IsRun(s0, run, t) && t.main.AwaitStops? && t.gate
    ensures t.At(c) == s.At(c) && id in t.fate && t.fate[id] == Held(c)
    decreases Distance(s)
  {
    if s.main.AwaitStops? {
      run, t := run0, s;
    } else {
      DrainStep(s, c, id);
      var a := TowardsDrain(s);
      RunAppend(s0, run0, s, a);
      run, t := DrainReachable(s0, run0 + [a], Do(s, a), c, id);
    }
  }

  /** Nothing has happened yet but a start over MCP. */
  ghost predicate OnlyStarting(s: State, c: Client, p: Pc)
  {
    && s.At(c) == p && AtRest(s) && s.main.Serving? && !s.gate && s.profiles == map[]
    && (p.Holding? || s.fate == map[])
  }

  /** The plan of a reload that restarts `name`; nothing runs under it yet. */
  lemma McpIsGranted(s0: State, name: ProfileName) returns (run: seq<Action>, s: State)
    requires s0.mcp && OnlyStarting(s0, Mcp(0), Idle) && s0.lock == []
    ensures IsRun(s0, run, s) && OnlyStarting(s, Mcp(0), Running([Stop(name), Start(name, true)]))
  {
    var c, plan := Mcp(0), [Stop(name), Start(name, true)];
    var s1 := DoStep(s0, c, BeginReload);
    s := DoStep(s1, c, Grant(plan));
    run := [ByClient(c, BeginReload), ByClient(c, Grant(plan))];
    assert run[1..] == [ByClient(c, Grant(plan))] && run[1..][1..] == [];
    assert IsRun(s1, run[1..], s);
  }

  lemma McpStopsNothing(s0: State, run0: seq<Action>, s: State, name: ProfileName)
      returns (run: seq<Action>, t: State)
    requires IsRun(s0, run0, s) && OnlyStarting(s, Mcp(0), Running([Stop(name), Start(name, true)]))
    ensures IsRun(s0, run, t) && OnlyStarting(t, Mcp(0), Running([Start(name, true)]))
  {
    var c := Mcp(0);
    assert [Stop(name), Start(name, true)][1..] == [Start(name, true)];
    t := DoStep(s, c, TakeOut);
    RunAppend(s0, run0, s, ByClient(c, TakeOut));
    run := run0 + [ByClient(c, TakeOut)];
  }

  lemma McpHolds(s0: State, run0: seq<Action>, s: State, name: ProfileName) returns (run: seq<Action>, t: State)
    requires IsRun(s0, run0, s) && OnlyStarting(s, Mcp(0), Running([Start(name, true)]))
    ensures IsRun(s0, run, t) && OnlyStarting(t, Mcp(0), Holding(name, 0, []))
    ensures 0 in t.fate && t.fate[0] == Held(Mcp(0))
  {
    var c := Mcp(0);
    var s1 := DoStep(s, c, CheckGate);
    assert s1.At(c) == Displacing(name, true, []);
    RunAppend(s0, run0, s, ByClient(c, CheckGate));
    var s2 := DoStep(s1, c, Displace);
    assert s2.At(c) == Building(name, []) && s2.profiles == map[];
    RunAppend(s0, run0 + [ByClient(c, CheckGate)], s1, ByClient(c, Displace));
    t := DoStep(s2, c, Spawn(0));
    run := run0 + [ByClient(c, CheckGate)] + [ByClient(c, Displace)];
    RunAppend(s0, run, s2, ByClient(c, Spawn(0)));
    run := run + [ByClient(c, Spawn(0))];
  }

  /** Whatever else is configured, with MCP served a start that came in over MCP can
      hold a supervisor, and the config lock, while the map is drained. */
  lemma McpReloadCanRaceTheDrain(watching: bool, polling: bool, name: ProfileName) returns (run: seq<Action>, t: State)
    ensures IsRun(Boot(watching, polling, true), run, t) && t.main.AwaitStops? && t.gate
    ensures t.At(Mcp(0)) == Holding(name, 0, []) && 0 in t.fate && t.fate[0] == Held(Mcp(0))
  {
    var s0 := Boot(watching, polling, true);
    run, t := McpIsGranted(s0, name);
    run, t := McpStopsNothing(s0, run, t, name);
    run, t := McpHolds(s0, run, t, name);
    run, t := DrainReachable(s0, run, t, Mcp(0), 0);
  }

  // ----- A displaced supervisor that lingers -----

  /** An MCP start of `name` on its way, with everything but its own place unchanged. */
  ghost predicate StartingFrom(s: State, t: State, p: Pc)
  {
    && t.At(Mcp(0)) == p && t.mcp && !t.gate && t.lock == []
    && t.profiles == s.profiles && t.fate == s.fate
    && forall d :: d != Mcp(0) ==> t.At(d) == s.At(d)
  }

  lemma McpStartAsks(s0: State, run0: seq<Action>, s: State, name: ProfileName)
      returns (run: seq<Action>, t: State)
    requires IsRun(s0, run0, s) && StartingFrom(s, s, Idle)
    ensures IsRun(s0, run, t) && StartingFrom(s, t, Running([Start(name, true)]))
  {
    var c, call := Mcp(0), Start(name, true);
    var s1 := DoStep(s, c, BeginReload);
    RunAppend(s0, run0, s, ByClient(c, BeginReload));
    run := run0 + [ByClient(c, BeginReload)];
    t := DoStep(s1, c, Snapshot(call));
    RunAppend(s0, run, s1, ByClient(c, Snapshot(call)));
    run := run + [ByClient(c, Snapshot(call))];
  }

  lemma McpStartBegins(s0: State, run0: seq<Action>, s: State, s1: State, name: ProfileName)
      returns (run: seq<Action>, t: State)
    requires IsRun(s0, run0, s1) && StartingFrom(s, s1, Running([Start(name, true)]))
    ensures IsRun(s0, run, t) && StartingFrom(s, t, Displacing(name, true, []))
  {
    var c := Mcp(0);
    assert [Start(name, true)][1..] == [];
    t := DoStep(s1, c, CheckGate);
    RunAppend(s0, run0, s1, ByClient(c, CheckGate));
    run := run0 + [ByClient(c, CheckGate)];
  }

  /** `t` runs `id` as `name`, and what `s` ran under that name lingers if it is lent. */
  ghost predicate Restarted(s: State, t: State, name: ProfileName, id: SupId, p: Pc)
  {
    && StartingFrom(t, t, p)
    && t.profiles == s.profiles[name := id]
    && t.fate == Displaced(s, name)[id := Listed(name)]
    && forall d :: d != Mcp(0) ==> t.At(d) == s.At(d)
  }

  /** The spawned supervisor of an MCP start, not yet inserted. */
  ghost predicate SpawnedFor(s: State, t: State, name: ProfileName, id: SupId)
  {
    && StartingFrom(t, t, Holding(name, id, []))
    && t.profiles == s.profiles - {name}
    && t.fate == Displaced(s, name)[id := Held(Mcp(0))]
    && forall d :: d != Mcp(0) ==> t.At(d) == s.At(d)
  }

  lemma McpStartSpawns(s0: State, run0: seq<Action>, s: State, name: ProfileName, id: SupId)
      returns (run: seq<Action>, t: State)
    requires IsRun(s0, run0, s) && Listing(s) && StartingFrom(s, s, Displacing(name, true, [])) && id !in s.fate
    ensures IsRun(s0, run, t) && SpawnedFor(s, t, name, id)
  {
    var c := Mcp(0);
    var s1 := DoStep(s, c, Displace);
    assert s1.At(c) == Building(name, []) && s1.fate == Displaced(s, name) && s1.fate.Keys == s.fate.Keys;
    RunAppend(s0, run0, s, ByClient(c, Displace));
    run := run0 + [ByClient(c, Displace)];
    t := DoStep(s1, c, Spawn(id));
    RunAppend(s0, run, s1, ByClient(c, Spawn(id)));
    run := run + [ByClient(c, Spawn(id))];
  }

  lemma McpStartInserts(s0: State, run0: seq<Action>, s: State, s1: State, name: ProfileName, id: SupId)
      returns (run: seq<Action>, t: State)
    requires IsRun(s0, run0, s1) && SpawnedFor(s, s1, name, id)
    ensures IsRun(s0, run, t) && Restarted(s, t, name, id, Running([]))
  {
    var c := Mcp(0);
    t := DoStep(s1, c, Insert);
    assert t.fate == s1.fate[id := Listed(name)];
    RunAppend(s0, run0, s1, ByClient(c, Insert));
    run := run0 + [ByClient(c, Insert)];
  }

  lemma McpStartEnds(s0: State, run0: seq<Action>, s: State, s1: State, name: ProfileName, id: SupId)
      returns (run: seq<Action>, t: State)
    requires IsRun(s0, run0, s1) && Restarted(s, s1, name, id, Running([]))
    ensures IsRun(s0, run, t) && Restarted(s, t, name, id, Idle)
  {
    var c := Mcp(0);
    t := DoStep(s1, c, EndCall);
    RunAppend(s0, run0, s1, ByClient(c, EndCall));
    run := run0 + [ByClient(c, EndCall)];
  }

  /** An MCP start takes no clone, so what is lent stays lent until the displacement. */
  lemma StartKeepsLent(s: State, t: State, p: Pc, id: SupId)
    requires s.At(Mcp(0)).Idle? && StartingFrom(s, t, p) && s.Lent(id)
    ensures t.Lent(id)
  {
    var d :| d in s.pc && s.Lends(id, d);
    assert d != Mcp(0) && t.At(d) == s.At(d);
    assert t.Lends(id, d);
  }

  lemma McpRestarts(s0: State, run0: seq<Action>, s: State, name: ProfileName, id: SupId)
      returns (run: seq<Action>, s1: State, t: State)
    requires Inv(s0) && IsRun(s0, run0, s) && StartingFrom(s, s, Idle) && id !in s.fate
    ensures IsRun(s0, run, t) && StartingFrom(s, s1, Displacing(name, true, [])) && Restarted(s1, t, name, id, Idle)
  {
    run, s1 := McpStartAsks(s0, run0, s, name);
    run, s1 := McpStartBegins(s0, run, s, s1, name);
    RunKeepsInv(s0, run, s1);
    var s2;
    run, s2 := McpStartSpawns(s0, run, s1, name, id);
    run, s2 := McpStartInserts(s0, run, s1, s2, name, id);
    run, t := McpStartEnds(s0, run, s1, s2, name, id);
  }

  /** Another MCP call takes a clone of what runs as `name`. */
  lemma McpLends(s0: State, run0: seq<Action>, s: State, name: ProfileName) returns (run: seq<Action>, t: State)
    requires IsRun(s0, run0, s) && StartingFrom(s, s, Idle) && s.At(Mcp(1)).Idle? && name in s.profiles
    ensures IsRun(s0, run, t) && StartingFrom(t, t, Idle)
    ensures t.profiles == s.profiles && t.fate == s.fate && t.Lent(s.profiles[name])
  {
    var c := Mcp(1);
    t := DoStep(s, c, Borrow(name));
    RunAppend(s0, run0, s, ByClient(c, Borrow(name)));
    run := run0 + [ByClient(c, Borrow(name))];
    assert t.Lends(s.profiles[name], c);
  }

  lemma McpStartsAndLends(watching: bool, polling: bool, name: ProfileName) returns (run: seq<Action>, t: State)
    ensures IsRun(Boot(watching, polling, true), run, t) && StartingFrom(t, t, Idle)
    ensures t.profiles == map[name := 0] && t.fate == map[0 := Listed(name)] && t.Lent(0)
  {
    var s0 := Boot(watching, polling, true);
    BootInv(watching, polling, true);
    assert IsRun(s0, [], s0);
    var s1;
    run, s1, t := McpRestarts(s0, [], s0, name, 0);
    assert t.At(Mcp(1)).Idle?;
    run, t := McpLends(s0, run, t, name);
  }

  /** Supervisor 0 was displaced while lent, and 1 runs in its place. */
  predicate TwoAlive(t: State, name: ProfileName)
  {
    && 0 in t.fate && t.fate[0].Lingering?
    && t.profiles == map[name := 1] && 1 in t.fate && t.fate[1] == Listed(name)
  }

  lemma LentLingers(s: State, t: State, name: ProfileName)
    requires Restarted(s, t, name, 1, Idle) && s.profiles == map[name := 0] && s.Lent(0)
    ensures TwoAlive(t, name)
  {
  }

  lemma McpRestartsLent(s0: State, run0: seq<Action>, s: State, name: ProfileName)
      returns (run: seq<Action>, t: State)
    requires Inv(s0) && IsRun(s0, run0, s) && StartingFrom(s, s, Idle)
    requires s.profiles == map[name := 0] && 1 !in s.fate && s.Lent(0)
    ensures IsRun(s0, run, t) && TwoAlive(t, name)
  {
    var s1;
    run, s1, t := McpRestarts(s0, run0, s, name, 1);
    StartKeepsLent(s, s1, Displacing(name, true, []), 0);
    LentLingers(s1, t, name);
  }

  /** A start over MCP while another MCP call has the running instance in hand leaves
      two supervisors of one profile alive. */
  lemma DisplacedCanLinger(watching: bool, polling: bool, name: ProfileName) returns (run: seq<Action>, t: State)
    ensures IsRun(Boot(watching, polling, true), run, t) && TwoAlive(t, name)
  {
    BootInv(watching, polling, true);
    run, t := McpStartsAndLends(watching, polling, name);
    run, t := McpRestartsLent(Boot(watching, polling, true), run, t, name);
  }

  // ----- The race, exactly -----

  /** A state of a run from boot in which some client is in flight past the join. */
  ghost predicate RacesDrain(watching: bool, polling: bool, mcp: bool, run: seq<Action>, t: State, c: Client)
  {
    IsRun(Boot(watching, polling, mcp), run, t) && PastWatch(t.main) && InFlight(t.At(c))
  }

  /** For every choice of reload sources: some run has a reload or call in flight once
      the sources have been joined iff MCP is served. */
  lemma DrainRaceIff(watching: bool, polling: bool, mcp: bool)
    ensures (exists run, t, c :: RacesDrain(watching, polling, mcp, run, t, c)) <==> mcp
  {
    if mcp {
      var run, t := McpReloadCanRaceTheDrain(watching, polling, ProfileName("p"));
      assert RacesDrain(watching, polling, mcp, run, t, Mcp(0));
    }
    forall run, t, c | RacesDrain(watching, polling, mcp, run, t, c) ensures mcp {
      McpIsFixed(Boot(watching, polling, mcp), run, t);
      QuietAtDrain(t, c);
    }
  }
}
