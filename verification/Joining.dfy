/**
 The join in `ConfigWatchHandle::shutdown` and `RemoteConfigPollHandle::shutdown`
 comes to an end: no deadlock, and a bound on the steps it can still take.

 A polling task that has been signalled may be queued for the config cell's lock
 behind other reloads. The lock serves its waiters in order, so what stands between
 the poller and its exit are its own steps and those of the clients ahead of it.
 */
module Joining {

  import opened Basics
  import opened Teardown

  // ----- Who the poller waits for -----

  /** The clients ahead of `c` in the queue. */
  function Before(q: seq<Client>, c: Client): seq<Client>
  {
    if q == [] || q[0] == c then [] else [q[0]] + Before(q[1..], c)
  }

  function Ahead(s: State, c: Client): seq<Client>
  {
    if c in s.lock then Before(s.lock, c) else []
  }

  /** A step of the poller itself or of a client it waits for. */
  predicate Useful(s: State, a: Action, c: Client)
  {
    a.ByClient? && (a.c == c || a.c in Ahead(s, c))
  }

  // ----- Progress -----

  lemma {:induction false} UnusedId(ids: set<SupId>) returns (bound: SupId)
    ensures forall id :: id in ids ==> id < bound
    decreases |ids|
  {
    bound := 0;
    if ids != {} {
      var id :| id in ids;
      var rest := UnusedId(ids - {id});
      bound := if rest <= id then id + 1 else rest;
      assert forall x :: x in ids ==> x == id || x in ids - {id};
    }
  }

  /** A client inside its calls always has a next step. */
  lemma CallsGoOn(s: State, c: Client) returns (step: Step)
    requires InCalls(s.At(c))
    ensures CanStep(s, c, step)
  {
    match s.At(c)
    case Running(rest) => step := if rest == [] then EndCall else if rest[0].Start? then CheckGate else TakeOut;
    case Displacing(_, _, _) => step := Displace;
    case Building(_, _) =>
      var id := UnusedId(s.fate.Keys);
      step := Spawn(id);
    case Holding(_, _, _) => step := Insert;
    case Stopping(_, _) => step := FinishStop;
  }

  /** In every reachable state a signalled poller that has not exited can step, or the
      client that holds the lock it waits for can. */
  lemma JoinNeverDeadlocks(s: State, c: Client) returns (a: Action)
    requires Reachable(s) && Polls(c) && c in s.signalled && !s.At(c).Exited?
    ensures Enabled(s, a) && Useful(s, a, c)
  {
    ReachableInv(s);
    var p := s.At(c);
    if p.Idle? {
      a := ByClient(c, SeeShutdown);
    } else if p.Ticked? {
      a := ByClient(c, NoChange);
    } else if InCalls(p) {
      var step := CallsGoOn(s, c);
      a := ByClient(c, step);
    } else {
      var first := s.lock[0];
      if s.At(first).Queued? {
        a := ByClient(first, Grant([]));
      } else {
        var step := CallsGoOn(s, first);
        a := ByClient(first, step);
      }
      assert first == c || first in Before(s.lock, c);
    }
  }

  // ----- Work left -----

  /** Steps from `p` to the release of the lock, if plans have at most `b` calls. */
  function ToRelease(p: Pc, b: nat): nat
  {
    match p
    case Queued => 2 + 4 * b
    case Running(rest) => 1 + 4 * |rest|
    case Displacing(_, _, rest) => 4 + 4 * |rest|
    case Building(_, rest) => 3 + 4 * |rest|
    case Holding(_, _, rest) => 2 + 4 * |rest|
    case Stopping(_, rest) => 2 + 4 * |rest|
    case _ => 0
  }

  /** Steps of its own that a signalled task at `p` can still take. */
  function ToExit(p: Pc, b: nat): nat
  {
    match p
    case Exited => 0
    case Idle => 1
    case Ticked => 4 + 4 * b
    case Borrowing(_) => 2
    case _ => 1 + ToRelease(p, b)
  }

  predicate PlanWithin(a: Action, b: nat) { a.ByClient? && a.step.Grant? ==> |a.step.plan| <= b }

  predicate PlansWithin(run: seq<Action>, b: nat) { forall i :: 0 <= i < |run| ==> PlanWithin(run[i], b) }

  lemma OwnStepLowers(s: State, c: Client, step: Step, b: nat)
    requires Polls(c) && c in s.signalled && CanStep(s, c, step) && PlanWithin(ByClient(c, step), b)
    ensures ToExit(PcAfter(s, c, step), b) < ToExit(s.At(c), b)
  {
  }

  function StepsOf(run: seq<Action>, c: Client): nat
  {
    if run == [] then 0 else (if StepOf(run[0], c) then 1 else 0) + StepsOf(run[1..], c)
  }

  /** In every run a signalled poller takes boundedly many steps of its own. */
  lemma {:induction false} OwnStepsBounded(s: State, run: seq<Action>, t: State, c: Client, b: nat)
    requires Polls(c) && c in s.signalled && IsRun(s, run, t) && PlansWithin(run, b)
    ensures StepsOf(run, c) + ToExit(t.At(c), b) <= ToExit(s.At(c), b)
    decreases |run|
  {
    if run != [] {
      assert PlanWithin(run[0], b);
      if StepOf(run[0], c) {
        OwnStepLowers(s, c, run[0].step, b);
      } else {
        OthersStay(s, run[0], c);
      }
      OwnStepsBounded(Do(s, run[0]), run[1..], t, c, b);
    }
  }

  // ----- The whole wait -----

  function QueueWork(s: State, q: seq<Client>, b: nat): nat
  {
    if q == [] then 0 else ToRelease(s.At(q[0]), b) + QueueWork(s, q[1..], b)
  }

  /** Everything that stands between the poller and its exit. */
  function Wait(s: State, c: Client, b: nat): nat { ToExit(s.At(c), b) + QueueWork(s, Ahead(s, c), b) }

  lemma {:induction false} QueueWorkSame(s: State, t: State, q: seq<Client>, b: nat)
    requires forall d :: d in q ==> t.At(d) == s.At(d)
    ensures QueueWork(t, q, b) == QueueWork(s, q, b)
  {
    if q != [] {
      QueueWorkSame(s, t, q[1..], b);
    }
  }

  lemma {:induction false} BeforeIsPrefix(q: seq<Client>, c: Client)
    ensures Before(q, c) <= q && c !in Before(q, c)
  {
    if q != [] && q[0] != c {
      BeforeIsPrefix(q[1..], c);
    }
  }

  lemma {:induction false} BeforeAppend(q: seq<Client>, c: Client, d: Client)
    requires c in q
    ensures Before(q + [d], c) == Before(q, c)
  {
    if q[0] != c {
      assert (q + [d])[1..] == q[1..] + [d];
      BeforeAppend(q[1..], c, d);
    }
  }

  /** A client behind the first waits. */
  lemma OnlyFirstSteps(s: State, d: Client, step: Step)
    requires Locking(s) && d in s.lock && CanStep(s, d, step)
    ensures s.First(d)
  {
    var i :| 0 <= i < |s.lock| && s.lock[i] == d;
  }

  /** A step of the first client shortens its way to the release, or releases. */
  lemma FirstStepLowers(s: State, d: Client, step: Step, b: nat)
    requires Locking(s) && s.First(d) && CanStep(s, d, step) && PlanWithin(ByClient(d, step), b)
    ensures if step.Snapshot? || step.EndCall? then ToRelease(s.At(d), b) >= 1 && LockAfter(s, d, step) == s.lock[1..]
            else ToRelease(PcAfter(s, d, step), b) < ToRelease(s.At(d), b) && LockAfter(s, d, step) == s.lock
  {
  }

  /** The first client, ahead of the poller, takes a step. */
  lemma AheadStepLowers(s: State, d: Client, step: Step, c: Client, b: nat)
    requires Locking(s) && c in s.lock && d != c && s.First(d) && CanStep(s, d, step)
    requires PlanWithin(ByClient(d, step), b)
    ensures Wait(DoStep(s, d, step), c, b) < Wait(s, c, b)
  {
    var t, q := DoStep(s, d, step), Before(s.lock[1..], c);
    FirstStepLowers(s, d, step, b);
    BeforeIsPrefix(s.lock[1..], c);
    assert d !in s.lock[1..];
    assert c in s.lock[1..];
    QueueWorkSame(s, t, q, b);
    assert Before(s.lock, c) == [d] + q && ([d] + q)[1..] == q;
    assert t.At(c) == s.At(c) && t.At(d) == PcAfter(s, d, step);
  }

  lemma MainStepKeepsWait(s: State, act: MainStep, c: Client, b: nat)
    requires CanMain(s, act)
    ensures Wait(DoMain(s, act), c, b) == Wait(s, c, b)
  {
    MainLeavesClients(s, act);
    QueueWorkSame(s, DoMain(s, act), Ahead(s, c), b);
  }

  lemma OwnStepLowersWait(s: State, c: Client, step: Step, b: nat)
    requires Locking(s) && Polls(c) && c in s.signalled && CanStep(s, c, step) && !s.At(c).Ticked?
    requires PlanWithin(ByClient(c, step), b)
    ensures Wait(DoStep(s, c, step), c, b) < Wait(s, c, b)
  {
    OwnStepLowers(s, c, step, b);
    var t := DoStep(s, c, step);
    assert t.At(c) == PcAfter(s, c, step);
    if c in s.lock {
      OnlyFirstSteps(s, c, step);
      assert c !in s.lock[1..];
    }
    assert Ahead(s, c) == [] && Ahead(t, c) == [];
  }

  /** The wait depends only on the poller's place and those of the clients ahead of it. */
  lemma WaitSame(s: State, t: State, c: Client, b: nat)
    requires t.At(c) == s.At(c) && Ahead(t, c) == Ahead(s, c)
    requires forall d :: d in Ahead(s, c) ==> t.At(d) == s.At(d)
    ensures Wait(t, c, b) == Wait(s, c, b)
  {
    QueueWorkSame(s, t, Ahead(s, c), b);
  }

  lemma FirstIsAhead(s: State, d: Client, c: Client)
    requires c in s.lock && s.First(d) && d != c
    ensures d in Ahead(s, c)
  {
  }

  /** A client that is not first in the queue does not shorten it. */
  lemma OthersQueue(s: State, d: Client, step: Step)
    requires !s.First(d)
    ensures LockAfter(s, d, step) == if step.BeginReload? then s.lock + [d] else s.lock
  {
  }

  lemma QueueShrinks(s: State, d: Client, step: Step, c: Client)
    requires c !in s.lock && d != c
    ensures c !in LockAfter(s, d, step)
  {
  }

  /** A client that is not ahead of the poller leaves the queue ahead of it alone. */
  lemma OtherKeepsAhead(s: State, d: Client, step: Step, c: Client)
    requires d != c && CanStep(s, d, step) && d !in Ahead(s, c)
    ensures Ahead(DoStep(s, d, step), c) == Ahead(s, c)
  {
    var q := LockAfter(s, d, step);
    assert DoStep(s, d, step).lock == q;
    if c in s.lock {
      if s.First(d) {
        FirstIsAhead(s, d, c);
        assert false;
      }
      OthersQueue(s, d, step);
      if step.BeginReload? {
        BeforeAppend(s.lock, c, d);
      }
    } else {
      QueueShrinks(s, d, step, c);
    }
  }

  /** So it does not lengthen the poller's wait. */
  lemma OtherStepKeepsWait(s: State, d: Client, step: Step, c: Client, b: nat)
    requires Locking(s) && d != c && CanStep(s, d, step) && d !in Ahead(s, c)
    ensures Wait(DoStep(s, d, step), c, b) == Wait(s, c, b)
  {
    StepMovesOne(s, d, step);
    OtherKeepsAhead(s, d, step, c);
    WaitSame(s, DoStep(s, d, step), c, b);
  }

  /** Once the poller has decided, every step of it or of a client ahead of it shortens
      the wait, and no other step lengthens it. Until then only its own step counts. */
  lemma StepShortensWait(s: State, a: Action, c: Client, b: nat)
    requires Locking(s) && Enabled(s, a) && PlanWithin(a, b)
    requires Polls(c) && c in s.signalled
    ensures !s.At(c).Ticked? ==> Wait(Do(s, a), c, b) + (if Useful(s, a, c) then 1 else 0) <= Wait(s, c, b)
    ensures s.At(c).Ticked? ==> (Useful(s, a, c) <==> StepOf(a, c)) && (StepOf(a, c) <==> !Do(s, a).At(c).Ticked?)
  {
    if s.At(c).Ticked? {
      TickedStep(s, a, c);
    } else if a.ByMain? {
      MainStepKeepsWait(s, a.act, c, b);
    } else if a.c == c {
      OwnStepLowersWait(s, c, a.step, b);
    } else if a.c in Ahead(s, c) {
      BeforeIsPrefix(s.lock, c);
      OnlyFirstSteps(s, a.c, a.step);
      AheadStepLowers(s, a.c, a.step, c, b);
    } else {
      OtherStepKeepsWait(s, a.c, a.step, c, b);
    }
  }

  /** Before its decision the poller is not in the queue. */
  lemma TickedStep(s: State, a: Action, c: Client)
    requires Locking(s) && Enabled(s, a) && s.At(c).Ticked?
    ensures (Useful(s, a, c) <==> StepOf(a, c)) && (StepOf(a, c) <==> !Do(s, a).At(c).Ticked?)
  {
    assert c !in s.lock;
    if !StepOf(a, c) {
      OthersStay(s, a, c);
    }
  }

  function UsefulSteps(s: State, run: seq<Action>, c: Client): nat
    decreases |run|
  {
    if run == [] || !Enabled(s, run[0]) then 0
    else (if Useful(s, run[0], c) then 1 else 0) + UsefulSteps(Do(s, run[0]), run[1..], c)
  }

  lemma {:induction false} WaitBounded(s: State, run: seq<Action>, t: State, c: Client, b: nat)
    requires Inv(s) && IsRun(s, run, t) && PlansWithin(run, b)
    requires Polls(c) && c in s.signalled && !s.At(c).Ticked?
    ensures UsefulSteps(s, run, c) + Wait(t, c, b) <= Wait(s, c, b)
    decreases |run|
  {
    if run != [] {
      assert PlanWithin(run[0], b);
      StepShortensWait(s, run[0], c, b);
      SignalledStep(s, run[0], c);
      InvKept(s, run[0]);
      WaitBounded(Do(s, run[0]), run[1..], t, c, b);
    }
  }

  /** The first state of the run in which the poller has decided, or its last state. */
  ghost function Decided(s: State, run: seq<Action>, c: Client): State
    decreases |run|
  {
    if run == [] || !s.At(c).Ticked? || !Enabled(s, run[0]) then s else Decided(Do(s, run[0]), run[1..], c)
  }

  /** The poller and the clients ahead of it take at most `Wait` steps before it exits,
      counted from the state `u` in which it has decided. */
  ghost predicate BoundedFrom(s: State, run: seq<Action>, t: State, c: Client, b: nat, u: State)
  {
    var decision := if s.At(c).Ticked? then 1 else 0;
    if u.At(c).Ticked? then UsefulSteps(s, run, c) == 0 && t == u
    else
      && UsefulSteps(s, run, c) + Wait(t, c, b) <= decision + Wait(u, c, b)
      && (UsefulSteps(s, run, c) >= decision + Wait(u, c, b) ==> t.At(c).Exited?)
  }

  lemma DecidedIsBounded(s: State, run: seq<Action>, t: State, c: Client, b: nat)
    requires Inv(s) && IsRun(s, run, t) && PlansWithin(run, b)
    requires Polls(c) && c in s.signalled && !s.At(c).Ticked?
    ensures BoundedFrom(s, run, t, c, b, s)
  {
    WaitBounded(s, run, t, c, b);
    assert Wait(t, c, b) == 0 ==> t.At(c).Exited?;
  }

  lemma FirstUseful(s: State, run: seq<Action>, c: Client)
    requires run != [] && Enabled(s, run[0])
    ensures UsefulSteps(s, run, c)
            == (if Useful(s, run[0], c) then 1 else 0) + UsefulSteps(Do(s, run[0]), run[1..], c)
  {
  }

  /** The poller decides, or someone else steps before it does. */
  lemma BoundedBeforeDecision(s: State, run: seq<Action>, t: State, c: Client, b: nat, u: State)
    requires Locking(s) && run != [] && Enabled(s, run[0]) && s.At(c).Ticked?
    requires BoundedFrom(Do(s, run[0]), run[1..], t, c, b, u)
    requires StepOf(run[0], c) ==> u == Do(s, run[0])
    ensures BoundedFrom(s, run, t, c, b, u)
  {
    TickedStep(s, run[0], c);
    FirstUseful(s, run, c);
  }

  /** In every run, however the other tasks interleave, the join is bounded; a poll that
      had already won the select is counted from its decision. */
  lemma {:induction false} JoinBounded(s: State, run: seq<Action>, t: State, c: Client, b: nat)
    requires Inv(s) && IsRun(s, run, t) && PlansWithin(run, b)
    requires Polls(c) && c in s.signalled
    ensures BoundedFrom(s, run, t, c, b, Decided(s, run, c))
    decreases |run|
  {
    if !s.At(c).Ticked? {
      DecidedIsBounded(s, run, t, c, b);
    } else if run != [] {
      var s1 := Do(s, run[0]);
      TickedStep(s, run[0], c);
      SignalledStep(s, run[0], c);
      InvKept(s, run[0]);
      JoinBounded(s1, run[1..], t, c, b);
      BoundedBeforeDecision(s, run, t, c, b, Decided(s1, run[1..], c));
    }
  }

  // ----- The wait in numbers -----

  /** Calls of its plan that a client at `p` has not finished. */
  function CallsLeft(p: Pc): nat
  {
    match p
    case Running(rest) => |rest|
    case Displacing(_, _, rest) => 1 + |rest|
    case Building(_, rest) => 1 + |rest|
    case Holding(_, _, rest) => 1 + |rest|
    case Stopping(_, rest) => 1 + |rest|
    case _ => 0
  }

  lemma ReleaseAtMost(p: Pc, b: nat)
    requires CallsLeft(p) <= b
    ensures ToRelease(p, b) <= 4 * b + 2 && ToExit(p, b) <= 4 * b + 4
  {
  }

  lemma OneMore(n: nat, w: nat, x: nat, y: nat)
    requires n > 0 && x <= w && y <= (n - 1) * w
    ensures x + y <= n * w
  {
    Distribute(w, n - 1, 1);
  }

  lemma {:induction false} QueueWorkAtMost(s: State, q: seq<Client>, b: nat, w: nat)
    requires w == 4 * b + 2 && forall d :: CallsLeft(s.At(d)) <= b
    ensures QueueWork(s, q, b) <= |q| * w
  {
    if q != [] {
      QueueWorkAtMost(s, q[1..], b, w);
      ReleaseAtMost(s.At(q[0]), b);
      OneMore(|q|, w, ToRelease(s.At(q[0]), b), QueueWork(s, q[1..], b));
    }
  }

  /** With at most `b` calls to a plan, four steps to a call and four more around them. */
  lemma WaitAtMost(s: State, c: Client, b: nat)
    requires forall d :: CallsLeft(s.At(d)) <= b
    ensures Wait(s, c, b) <= 4 * b + 4 + |Ahead(s, c)| * (4 * b + 2)
  {
    QueueWorkAtMost(s, Ahead(s, c), b, 4 * b + 2);
    ReleaseAtMost(s.At(c), b);
  }
}
