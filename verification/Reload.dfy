/**
 Config reload: the plan of `crates/spt-supervisor/src/reload.rs`, its application by
 `apply_with_auth` in `crates/spt-supervisor/src/orchestrator.rs`, and the shared
 last-applied cell of `crates/spt-bin/src/controller.rs`.

 The question is whether the running profiles mirror the config the cell says was
 applied, over any sequence of reloads, including ones where a profile fails to build.
 */
module Reload {

  import opened Basics

  datatype Name = Name(text: string)

  datatype Forward = Forward(name: Name, settings: nat)

  /** `connection` stands for the fields compared by `connection_level_changed` other
      than `enabled`; `tuning` for those that only take effect on a restart. */
  datatype Profile = Profile(name: Name, enabled: Option<bool>, connection: nat, tuning: nat, forwards: seq<Forward>)

  type Config = seq<Profile>

  datatype Action =
    | StartProfile(profile: Name)
    | StopProfile(profile: Name)
    | RestartProfile(profile: Name)
    | AddForward(profile: Name, forward: Name)
    | RemoveForward(profile: Name, forward: Name)
    | RestartForward(profile: Name, forward: Name)

  predicate Disabled(p: Profile) { p.enabled == Some(false) }

  /** `iter().find(|p| p.name == n)`. */
  function Lookup(c: Config, n: Name): (r: Option<Profile>)
    ensures r.Some? ==> r.value in c && r.value.name == n
    ensures r.None? ==> forall p :: p in c ==> p.name != n
  {
    if c == [] then None
    else if c[0].name == n then Some(c[0])
    else Lookup(c[1..], n)
  }

  function LookupForward(fs: seq<Forward>, n: Name): (r: Option<Forward>)
    ensures r.Some? ==> r.value in fs && r.value.name == n
    ensures r.None? ==> forall f :: f in fs ==> f.name != n
  {
    if fs == [] then None
    else if fs[0].name == n then Some(fs[0])
    else LookupForward(fs[1..], n)
  }

  predicate UniqueProfiles(c: Config)
  {
    forall i, j :: 0 <= i < j < |c| ==> c[i].name != c[j].name
  }

  predicate UniqueForwards(fs: seq<Forward>)
  {
    forall i, j :: 0 <= i < j < |fs| ==> fs[i].name != fs[j].name
  }

  /** What validation guarantees about names. */
  predicate WellNamed(c: Config)
  {
    UniqueProfiles(c) && forall i :: 0 <= i < |c| ==> UniqueForwards(c[i].forwards)
  }

  // ----- The plan -----

  predicate ConnectionLevelChanged(a: Profile, b: Profile)
  {
    a.connection != b.connection || a.enabled != b.enabled
  }

  function RemovedForwards(profile: Name, prior: seq<Forward>, next: seq<Forward>): seq<Action>
  {
    if prior == [] then []
    else
      (if LookupForward(next, prior[0].name).None? then [RemoveForward(profile, prior[0].name)] else [])
      + RemovedForwards(profile, prior[1..], next)
  }

  function NewForwards(profile: Name, prior: seq<Forward>, next: seq<Forward>): seq<Action>
  {
    if next == [] then []
    else
      (match LookupForward(prior, next[0].name)
       case None => [AddForward(profile, next[0].name)]
       case Some(of) => if of != next[0] then [RestartForward(profile, next[0].name)] else [])
      + NewForwards(profile, prior, next[1..])
  }

  function DiffForwards(profile: Name, prior: seq<Forward>, next: seq<Forward>): seq<Action>
  {
    RemovedForwards(profile, prior, next) + NewForwards(profile, prior, next)
  }

  /** The actions of a plan that concern profile `n`, in order. */
  function About(actions: seq<Action>, n: Name): seq<Action>
  {
    if actions == [] then []
    else (if actions[0].profile == n then [actions[0]] else []) + About(actions[1..], n)
  }

  function Stops(n: Name, o: Option<Profile>, p: Option<Profile>): seq<Action>
  {
    if o.Some? && p.None? then [StopProfile(n)] else []
  }

  function Starts(n: Name, o: Option<Profile>, p: Option<Profile>): seq<Action>
  {
    if o.None? && p.Some? && !Disabled(p.value) then [StartProfile(n)] else []
  }

  function Changes(n: Name, o: Option<Profile>, p: Option<Profile>): seq<Action>
  {
    if o.None? || p.None? then []
    else if Disabled(p.value) then (if Disabled(o.value) then [] else [StopProfile(n)])
    else if ConnectionLevelChanged(o.value, p.value) then [RestartProfile(n)]
    else DiffForwards(n, o.value.forwards, p.value.forwards)
  }

  /** What the third pass pushes for a profile of the prior config. */
  function ChangesOf(o: Profile, p: Option<Profile>): (more: seq<Action>)
    ensures more == Changes(o.name, Some(o), p)
    ensures forall a :: a in more ==> a.profile == o.name
  {
    DiffForwardsActions(o.name, o.forwards, if p.Some? then p.value.forwards else []);
    Changes(o.name, Some(o), p)
  }

  /** All that a plan says about one profile: a function of that profile alone. */
  function Expected(n: Name, o: Option<Profile>, p: Option<Profile>): seq<Action>
  {
    Stops(n, o, p) + Starts(n, o, p) + Changes(n, o, p)
  }

  lemma {:induction false} AboutConcat(a: seq<Action>, b: seq<Action>, n: Name)
    ensures About(a + b, n) == About(a, n) + About(b, n)
  {
    if a == [] {
      assert a + b == b;
    } else {
      assert (a + b)[1..] == a[1..] + b;
      AboutConcat(a[1..], b, n);
    }
  }

  lemma {:induction false} AboutOthers(actions: seq<Action>, n: Name)
    requires forall a :: a in actions ==> a.profile != n
    ensures About(actions, n) == []
  {
    if actions != [] {
      AboutOthers(actions[1..], n);
    }
  }

  lemma {:induction false} AboutAll(actions: seq<Action>, n: Name)
    requires forall a :: a in actions ==> a.profile == n
    ensures About(actions, n) == actions
  {
    if actions != [] {
      AboutAll(actions[1..], n);
    }
  }

  lemma {:induction false} RemovedForwardsActions(n: Name, prior: seq<Forward>, next: seq<Forward>)
    ensures forall a :: a in RemovedForwards(n, prior, next) ==> a.profile == n && a.RemoveForward?
  {
    if prior != [] {
      RemovedForwardsActions(n, prior[1..], next);
    }
  }

  lemma {:induction false} NewForwardsActions(n: Name, prior: seq<Forward>, next: seq<Forward>)
    ensures forall a :: a in NewForwards(n, prior, next) ==> a.profile == n && (a.AddForward? || a.RestartForward?)
  {
    if next != [] {
      NewForwardsActions(n, prior, next[1..]);
    }
  }

  lemma DiffForwardsActions(n: Name, prior: seq<Forward>, next: seq<Forward>)
    ensures forall a :: a in DiffForwards(n, prior, next) ==> a.profile == n && OnForward(a)
  {
    RemovedForwardsActions(n, prior, next);
    NewForwardsActions(n, prior, next);
  }

  predicate OnForward(a: Action) { a.AddForward? || a.RemoveForward? || a.RestartForward? }

  lemma {:induction false} LookupSnoc(c: Config, i: nat, n: Name)
    requires i < |c| && UniqueProfiles(c)
    ensures Lookup(c[..i + 1], n) == if c[i].name == n then Some(c[i]) else Lookup(c[..i], n)
    ensures c[i].name == n ==> Lookup(c[..i], n) == None
  {
    assert c[..i + 1] == c[..i] + [c[i]];
    LookupAppend(c[..i], c[i], n);
  }

  lemma {:induction false} LookupAppend(c: Config, p: Profile, n: Name)
    ensures Lookup(c + [p], n)
            == if Lookup(c, n).Some? then Lookup(c, n) else if p.name == n then Some(p) else None
  {
    if c == [] {
      assert c + [p] == [p];
    } else {
      assert (c + [p])[1..] == c[1..] + [p];
      LookupAppend(c[1..], p, n);
    }
  }

  /** Appending the actions of one profile extends what the plan says about it. */
  lemma Push(actions: seq<Action>, more: seq<Action>, owner: Name, n: Name)
    requires forall a :: a in more ==> a.profile == owner
    ensures About(actions + more, n) == About(actions, n) + if n == owner then more else []
  {
    AboutConcat(actions, more, n);
    if n == owner {
      AboutAll(more, n);
    } else {
      AboutOthers(more, n);
    }
  }

  /** After the first `i` steps of each pass, what the actions so far say of every profile. */
  ghost predicate StopsSaid(actions: seq<Action>, prior: Config, next: Config, i: nat)
    requires i <= |prior|
  {
    forall n :: About(actions, n) == Stops(n, Lookup(prior[..i], n), Lookup(next, n))
  }

  ghost predicate StartsSaid(actions: seq<Action>, prior: Config, next: Config, i: nat)
    requires i <= |next|
  {
    forall n :: About(actions, n)
                == Stops(n, Lookup(prior, n), Lookup(next, n)) + Starts(n, Lookup(prior, n), Lookup(next[..i], n))
  }

  ghost predicate ChangesSaid(actions: seq<Action>, prior: Config, next: Config, i: nat)
    requires i <= |prior|
  {
    forall n :: About(actions, n)
                == Stops(n, Lookup(prior, n), Lookup(next, n)) + Starts(n, Lookup(prior, n), Lookup(next, n))
                   + Changes(n, Lookup(prior[..i], n), Lookup(next, n))
  }

  lemma StopsStep(actions: seq<Action>, prior: Config, next: Config, i: nat, more: seq<Action>)
    requires i < |prior| && UniqueProfiles(prior) && StopsSaid(actions, prior, next, i)
    requires more == if Lookup(next, prior[i].name).None? then [StopProfile(prior[i].name)] else []
    ensures StopsSaid(actions + more, prior, next, i + 1)
  {
    forall n ensures About(actions + more, n) == Stops(n, Lookup(prior[..i + 1], n), Lookup(next, n)) {
      assert About(actions, n) == Stops(n, Lookup(prior[..i], n), Lookup(next, n));
      StopsOf(actions, prior, next, i, more, n);
    }
  }

  lemma StopsOf(actions: seq<Action>, prior: Config, next: Config, i: nat, more: seq<Action>, n: Name)
    requires i < |prior| && UniqueProfiles(prior)
    requires About(actions, n) == Stops(n, Lookup(prior[..i], n), Lookup(next, n))
    requires more == if Lookup(next, prior[i].name).None? then [StopProfile(prior[i].name)] else []
    ensures About(actions + more, n) == Stops(n, Lookup(prior[..i + 1], n), Lookup(next, n))
  {
    LookupSnoc(prior, i, n);
    Push(actions, more, prior[i].name, n);
  }

  lemma StartsStep(actions: seq<Action>, prior: Config, next: Config, i: nat, more: seq<Action>)
    requires i < |next| && UniqueProfiles(next) && StartsSaid(actions, prior, next, i)
    requires more == if Lookup(prior, next[i].name).None? && !Disabled(next[i]) then [StartProfile(next[i].name)]
                     else []
    ensures StartsSaid(actions + more, prior, next, i + 1)
  {
    forall n
      ensures About(actions + more, n)
              == Stops(n, Lookup(prior, n), Lookup(next, n)) + Starts(n, Lookup(prior, n), Lookup(next[..i + 1], n))
    {
      LookupSnoc(next, i, n);
      Push(actions, more, next[i].name, n);
    }
  }

  lemma ChangesStep(actions: seq<Action>, prior: Config, next: Config, i: nat, more: seq<Action>)
    requires i < |prior| && UniqueProfiles(prior) && ChangesSaid(actions, prior, next, i)
    requires more == ChangesOf(prior[i], Lookup(next, prior[i].name))
    ensures ChangesSaid(actions + more, prior, next, i + 1)
  {
    forall n
      ensures About(actions + more, n)
              == Stops(n, Lookup(prior, n), Lookup(next, n)) + Starts(n, Lookup(prior, n), Lookup(next, n))
                 + Changes(n, Lookup(prior[..i + 1], n), Lookup(next, n))
    {
      LookupSnoc(prior, i, n);
      Push(actions, more, prior[i].name, n);
    }
  }

  ghost predicate OnlyRemovals(actions: seq<Action>, next: Config)
  {
    forall i :: 0 <= i < |actions| ==> actions[i].StopProfile? && Lookup(next, actions[i].profile) == None
  }

  /** What was pushed after `sofar` starts profiles. */
  ghost predicate StartsAfter(sofar: seq<Action>, actions: seq<Action>)
  {
    sofar <= actions && forall i :: |sofar| <= i < |actions| ==> actions[i].StartProfile?
  }

  /** What was pushed after `sofar` is about profiles of `next`. */
  ghost predicate KnownAfter(sofar: seq<Action>, actions: seq<Action>, next: Config)
  {
    sofar <= actions && forall i :: |sofar| <= i < |actions| ==> Lookup(next, actions[i].profile).Some?
  }

  lemma RemovalsPush(actions: seq<Action>, next: Config, more: seq<Action>)
    requires OnlyRemovals(actions, next) && OnlyRemovals(more, next)
    ensures OnlyRemovals(actions + more, next)
  {
  }

  lemma StartsPush(sofar: seq<Action>, actions: seq<Action>, more: seq<Action>)
    requires StartsAfter(sofar, actions) && forall i :: 0 <= i < |more| ==> more[i].StartProfile?
    ensures StartsAfter(sofar, actions + more)
  {
  }

  lemma KnownPush(sofar: seq<Action>, actions: seq<Action>, next: Config, more: seq<Action>)
    requires KnownAfter(sofar, actions, next) && forall i :: 0 <= i < |more| ==> Lookup(next, more[i].profile).Some?
    ensures KnownAfter(sofar, actions + more, next)
  {
  }

  ghost predicate Unique(prior: Config, next: Config) { UniqueProfiles(prior) && UniqueProfiles(next) }

  /** Removed profiles. */
  method PushStops(prior: Config, next: Config) returns (actions: seq<Action>)
    ensures Unique(prior, next) ==> StopsSaid(actions, prior, next, |prior|)
    ensures OnlyRemovals(actions, next)
  {
    actions := [];
    for i := 0 to |prior|
      invariant OnlyRemovals(actions, next)
      invariant Unique(prior, next) ==> StopsSaid(actions, prior, next, i)
    {
      var name := prior[i].name;
      var more := if Lookup(next, name).None? then [StopProfile(name)] else [];
      if Unique(prior, next) {
        StopsStep(actions, prior, next, i, more);
      }
      RemovalsPush(actions, next, more);
      actions := actions + more;
    }
  }

  /** Added profiles, unless they are disabled. */
  method PushStarts(sofar: seq<Action>, prior: Config, next: Config) returns (actions: seq<Action>)
    requires Unique(prior, next) ==> StartsSaid(sofar, prior, next, 0)
    ensures Unique(prior, next) ==> StartsSaid(actions, prior, next, |next|)
    ensures StartsAfter(sofar, actions)
  {
    actions := sofar;
    for i := 0 to |next|
      invariant StartsAfter(sofar, actions)
      invariant Unique(prior, next) ==> StartsSaid(actions, prior, next, i)
    {
      var name := next[i].name;
      var more := if Lookup(prior, name).None? && !Disabled(next[i]) then [StartProfile(name)] else [];
      if Unique(prior, next) {
        StartsStep(actions, prior, next, i, more);
      }
      StartsPush(sofar, actions, more);
      actions := actions + more;
    }
  }

  /** Profiles present in both. */
  method PushChanges(sofar: seq<Action>, prior: Config, next: Config) returns (actions: seq<Action>)
    requires Unique(prior, next) ==> ChangesSaid(sofar, prior, next, 0)
    ensures Unique(prior, next) ==> ChangesSaid(actions, prior, next, |prior|)
    ensures KnownAfter(sofar, actions, next)
  {
    actions := sofar;
    for i := 0 to |prior|
      invariant KnownAfter(sofar, actions, next)
      invariant Unique(prior, next) ==> ChangesSaid(actions, prior, next, i)
    {
      var more := ChangesOf(prior[i], Lookup(next, prior[i].name));
      if Unique(prior, next) {
        ChangesStep(actions, prior, next, i, more);
      }
      assert more != [] ==> Lookup(next, prior[i].name).Some?;
      KnownPush(sofar, actions, next, more);
      actions := actions + more;
    }
  }

  lemma StopsMeetStarts(actions: seq<Action>, prior: Config, next: Config)
    requires StopsSaid(actions, prior, next, |prior|)
    ensures StartsSaid(actions, prior, next, 0)
  {
    assert prior[..|prior|] == prior;
  }

  lemma StartsMeetChanges(actions: seq<Action>, prior: Config, next: Config)
    requires StartsSaid(actions, prior, next, |next|)
    ensures ChangesSaid(actions, prior, next, 0)
  {
    assert next[..|next|] == next;
  }

  lemma ChangesMeetExpected(actions: seq<Action>, prior: Config, next: Config)
    requires ChangesSaid(actions, prior, next, |prior|)
    ensures forall n :: About(actions, n) == Expected(n, Lookup(prior, n), Lookup(next, n))
  {
    assert prior[..|prior|] == prior;
  }

  /** Removed profiles are stopped first, then new ones started, then the rest changed. */
  ghost predicate InThreePasses(actions: seq<Action>, next: Config, i: nat, j: nat)
  {
    && i <= j <= |actions|
    && (forall k :: 0 <= k < i ==> actions[k].StopProfile? && Lookup(next, actions[k].profile) == None)
    && (forall k :: i <= k < j ==> actions[k].StartProfile?)
    && (forall k :: j <= k < |actions| ==> Lookup(next, actions[k].profile).Some?)
  }

  method Compute(prior: Config, next: Config) returns (actions: seq<Action>)
    ensures Unique(prior, next) ==> forall n :: About(actions, n) == Expected(n, Lookup(prior, n), Lookup(next, n))
    ensures exists i: nat, j: nat :: InThreePasses(actions, next, i, j)
  {
    actions := PushStops(prior, next);
    ghost var i := |actions|;
    if Unique(prior, next) {
      StopsMeetStarts(actions, prior, next);
    }
    actions := PushStarts(actions, prior, next);
    if Unique(prior, next) {
      StartsMeetChanges(actions, prior, next);
    }
    ghost var j := |actions|;
    actions := PushChanges(actions, prior, next);
    assert InThreePasses(actions, next, i, j);
    if Unique(prior, next) {
      ChangesMeetExpected(actions, prior, next);
    }
  }

  // ----- Applying it -----

  function Get(m: map<Name, Profile>, n: Name): Option<Profile>
  {
    if n in m then Some(m[n]) else None
  }

  /** What a restart leaves in a profile's slot: a disabled profile is not started. */
  function Placed(p: Profile): Option<Profile> { if Disabled(p) then None else Some(p) }

  /** What the ordered pass leaves of one profile: a stop removes it, a start or
      restart replaces it if it builds and leaves it alone otherwise. */
  function OrderedPass(cur: Option<Profile>, acts: seq<Action>, built: Option<Profile>): Option<Profile>
  {
    if acts == [] then cur
    else
      var before := OrderedPass(cur, acts[..|acts| - 1], built);
      match acts[|acts| - 1]
      case StopProfile(_) => None
      case StartProfile(_) | RestartProfile(_) => if built.Some? then Placed(built.value) else before
      case _ => before
  }

  /** Then the profiles with any forward change restart once. */
  ghost function AfterPlan(cur: Option<Profile>, acts: seq<Action>, built: Option<Profile>): Option<Profile>
  {
    if HasForward(acts) && built.Some? then Placed(built.value)
    else OrderedPass(cur, acts, built)
  }

  ghost predicate HasForward(acts: seq<Action>) { exists a :: a in acts && OnForward(a) }

  lemma OneMoreAction(actions: seq<Action>, i: nat, n: Name, cur: Option<Profile>, built: Option<Profile>)
    requires i < |actions|
    ensures var a, acts := actions[i], About(actions[..i], n);
            var mid, acts' := OrderedPass(cur, acts, built), About(actions[..i + 1], n);
            && (HasForward(acts') <==> HasForward(acts) || (a.profile == n && OnForward(a)))
            && OrderedPass(cur, acts', built)
               == (if a.profile != n || OnForward(a) then mid
                   else if a.StopProfile? then None
                   else if built.Some? then Placed(built.value)
                   else mid)
  {
    var a, acts := actions[i], About(actions[..i], n);
    assert actions[..i + 1] == actions[..i] + [a];
    Push(actions[..i], [a], a.profile, n);
    if a.profile == n {
      assert (acts + [a])[..|acts|] == acts;
      assert a in acts + [a];
    } else {
      assert acts + [] == acts;
    }
  }

  class Orchestrator {
    var profiles: map<Name, Profile>
    var shuttingDown: bool

    constructor ()
      ensures profiles == map[] && !shuttingDown
    {
      profiles := map[];
      shuttingDown := false;
    }

    /** Stop any running instance and put the built profile in its place, unless the
        gate is shut or the profile is disabled. */
    method RestartProfile(p: Profile)
      modifies this`profiles
      ensures profiles
              == if shuttingDown || p.enabled == Some(false) then old(profiles) - {p.name}
                 else old(profiles)[p.name := p]
    {
      profiles := profiles - {p.name};
      if !shuttingDown && !Disabled(p) {
        profiles := profiles[p.name := p];
        assert profiles == old(profiles)[p.name := p];
      }
    }

    /** The forward-driven restarts, each profile once. */
    method RestartForwards(names: seq<Name>, provider: Name -> Option<Profile>)
      requires !shuttingDown
      requires forall n :: provider(n).Some? ==> provider(n).value.name == n
      modifies this`profiles
      ensures forall n :: Get(profiles, n)
                          == if n in names && provider(n).Some? then Placed(provider(n).value)
                             else Get(old(profiles), n)
    {
      for i := 0 to |names|
        invariant forall n :: Get(profiles, n)
                              == if n in names[..i] && provider(n).Some? then Placed(provider(n).value)
                                 else Get(old(profiles), n)
      {
        var p := provider(names[i]);
        if p.Some? {
          RestartProfile(p.value);
        }
        assert names[..i + 1] == names[..i] + [names[i]];
      }
    }

    method ApplyOne(a: Action, provider: Name -> Option<Profile>)
      requires !shuttingDown
      requires forall n :: provider(n).Some? ==> provider(n).value.name == n
      modifies this`profiles
      ensures forall n :: Get(profiles, n)
                          == (if a.profile != n || OnForward(a) then Get(old(profiles), n)
                              else if a.StopProfile? then None
                              else if provider(n).Some? then Placed(provider(n).value)
                              else Get(old(profiles), n))
    {
      match a {
        case StopProfile(n) => profiles := profiles - {n};
        case StartProfile(n) =>
          var p := provider(n);
          if p.Some? {
            RestartProfile(p.value);
          }
        case RestartProfile(n) =>
          var p := provider(n);
          if p.Some? {
            RestartProfile(p.value);
          }
        case _ =>
      }
    }

    method Apply(actions: seq<Action>, provider: Name -> Option<Profile>)
      requires forall n :: provider(n).Some? ==> provider(n).value.name == n
      modifies this`profiles
      ensures shuttingDown ==> profiles == old(profiles)
      ensures !shuttingDown ==> forall n :: Get(profiles, n)
                                            == AfterPlan(Get(old(profiles), n), About(actions, n), provider(n))
    {
      if shuttingDown {
        return;
      }
      var forwardRestart: seq<Name> := [];
      for i := 0 to |actions|
        invariant forall n :: n in forwardRestart <==> HasForward(About(actions[..i], n))
        invariant forall n :: Get(profiles, n)
                              == OrderedPass(Get(old(profiles), n), About(actions[..i], n), provider(n))
      {
        ghost var before, listed := profiles, forwardRestart;
        ApplyOne(actions[i], provider);
        if OnForward(actions[i]) && actions[i].profile !in forwardRestart {
          forwardRestart := forwardRestart + [actions[i].profile];
        }
        forall n
          ensures n in forwardRestart <==> HasForward(About(actions[..i + 1], n))
          ensures Get(profiles, n) == OrderedPass(Get(old(profiles), n), About(actions[..i + 1], n), provider(n))
        {
          OneMoreAction(actions, i, n, Get(old(profiles), n), provider(n));
          assert n in forwardRestart <==> n in listed || (actions[i].profile == n && OnForward(actions[i]));
          assert Get(before, n) == OrderedPass(Get(old(profiles), n), About(actions[..i], n), provider(n));
        }
      }
      assert actions[..|actions|] == actions;
      RestartForwards(forwardRestart, provider);
    }
  }

  // ----- What a plan means -----

  function Forwards(p: Profile): set<Forward> { set f | f in p.forwards }

  /** The parts of a profile that a reload makes take effect at once. */
  predicate SameLive(a: Profile, b: Profile)
  {
    a.connection == b.connection && a.enabled == b.enabled && Forwards(a) == Forwards(b)
  }

  /** A running profile (or its absence) is what the config asks for. */
  predicate Agrees(running: Option<Profile>, wanted: Option<Profile>)
  {
    if wanted.None? || Disabled(wanted.value) then running.None?
    else running.Some? && SameLive(running.value, wanted.value)
  }

  ghost predicate Rebuilds(acts: seq<Action>) { exists a :: a in acts && !a.StopProfile? }

  predicate NamedOk(n: Name, p: Option<Profile>)
  {
    p.Some? ==> p.value.name == n && UniqueForwards(p.value.forwards)
  }

  lemma {:induction false} NothingRemovedIff(n: Name, was: seq<Forward>, now: seq<Forward>)
    ensures RemovedForwards(n, was, now) == [] <==> forall f :: f in was ==> LookupForward(now, f.name).Some?
  {
    if was != [] {
      NothingRemovedIff(n, was[1..], now);
      assert was == [was[0]] + was[1..];
    }
  }

  lemma {:induction false} NothingNewIff(n: Name, was: seq<Forward>, now: seq<Forward>)
    ensures NewForwards(n, was, now) == [] <==> forall f :: f in now ==> LookupForward(was, f.name) == Some(f)
  {
    if now != [] {
      NothingNewIff(n, was, now[1..]);
      assert now == [now[0]] + now[1..];
    }
  }

  lemma {:induction false} LookupForwardFinds(fs: seq<Forward>, f: Forward)
    requires UniqueForwards(fs) && f in fs
    ensures LookupForward(fs, f.name) == Some(f)
  {
    if fs[0] != f {
      assert f in fs[1..];
      LookupForwardFinds(fs[1..], f);
    }
  }

  /** No forward action is planned exactly when both profiles have the same forwards. */
  lemma NoForwardActionIff(n: Name, was: Profile, now: Profile)
    requires UniqueForwards(was.forwards) && UniqueForwards(now.forwards)
    ensures DiffForwards(n, was.forwards, now.forwards) == [] <==> Forwards(was) == Forwards(now)
  {
    NothingRemovedIff(n, was.forwards, now.forwards);
    NothingNewIff(n, was.forwards, now.forwards);
    if DiffForwards(n, was.forwards, now.forwards) == [] {
      forall f ensures f in was.forwards <==> f in now.forwards {
        if f in was.forwards {
          var g := LookupForward(now.forwards, f.name).value;
          LookupForwardFinds(was.forwards, f);
        }
      }
    }
    if Forwards(was) == Forwards(now) {
      forall f | f in was.forwards ensures LookupForward(now.forwards, f.name) == Some(f) {
        assert f in Forwards(now);
        LookupForwardFinds(now.forwards, f);
      }
      forall f | f in now.forwards ensures LookupForward(was.forwards, f.name) == Some(f) {
        assert f in Forwards(was);
        LookupForwardFinds(was.forwards, f);
      }
    }
  }

  /** The plan is minimal and complete: it rebuilds exactly the enabled profiles
      whose live part differs, stops exactly those no longer wanted, and says
      nothing else. */
  lemma PlanIsExact(n: Name, o: Option<Profile>, p: Option<Profile>)
    requires NamedOk(n, o) && NamedOk(n, p)
    ensures var acts, wanted := Expected(n, o, p), p.Some? && !Disabled(p.value);
            && (Rebuilds(acts) <==> wanted && (o.None? || !SameLive(o.value, p.value)))
            && (StopProfile(n) in acts <==> !wanted && o.Some? && (p.None? || !Disabled(o.value)))
            && (!wanted ==> acts == [] || acts == [StopProfile(n)])
            && (acts == [] <==> !Rebuilds(acts) && StopProfile(n) !in acts)
  {
    var acts := Expected(n, o, p);
    if o.Some? && p.Some? && !Disabled(p.value) {
      DiffForwardsActions(n, o.value.forwards, p.value.forwards);
      NoForwardActionIff(n, o.value, p.value);
      assert acts == Changes(n, o, p);
      if acts != [] {
        assert acts[0] in acts;
      }
    } else if acts != [] {
      assert acts[0] in acts;
    }
  }

  // ----- Each action under its own condition -----

  lemma {:induction false} RemovedIff(n: Name, was: seq<Forward>, now: seq<Forward>, f: Name)
    ensures RemoveForward(n, f) in RemovedForwards(n, was, now) <==>
            (exists a :: a in was && a.name == f) && (forall b :: b in now ==> b.name != f)
  {
    if was != [] {
      RemovedIff(n, was[1..], now, f);
      assert was == [was[0]] + was[1..];
    }
  }

  lemma {:induction false} AddedIff(n: Name, was: seq<Forward>, now: seq<Forward>, f: Name)
    ensures AddForward(n, f) in NewForwards(n, was, now) <==>
            (exists b :: b in now && b.name == f) && (forall a :: a in was ==> a.name != f)
  {
    if now != [] {
      AddedIff(n, was, now[1..], f);
      assert now == [now[0]] + now[1..];
    }
  }

  lemma {:induction false} ChangedIff(n: Name, was: seq<Forward>, now: seq<Forward>, f: Name)
    requires UniqueForwards(was)
    ensures RestartForward(n, f) in NewForwards(n, was, now) <==>
            exists a, b :: a in was && b in now && a.name == f && b.name == f && a != b
  {
    if now != [] {
      ChangedIff(n, was, now[1..], f);
      assert now == [now[0]] + now[1..];
      forall a | a in was && a.name == now[0].name ensures LookupForward(was, now[0].name) == Some(a) {
        LookupForwardFinds(was, a);
      }
    }
  }

  /** A forward is removed iff only the prior profile has its name, added iff only the next
      has, and restarted iff both have and they differ. */
  lemma ForwardActionsIff(n: Name, was: seq<Forward>, now: seq<Forward>, f: Name)
    requires UniqueForwards(was) && UniqueForwards(now)
    ensures var acts := DiffForwards(n, was, now);
            && (RemoveForward(n, f) in acts <==>
                  (exists a :: a in was && a.name == f) && forall b :: b in now ==> b.name != f)
            && (AddForward(n, f) in acts <==>
                  (exists b :: b in now && b.name == f) && forall a :: a in was ==> a.name != f)
            && (RestartForward(n, f) in acts <==>
                  exists a, b :: a in was && b in now && a.name == f && b.name == f && a != b)
  {
    RemovedIff(n, was, now, f);
    AddedIff(n, was, now, f);
    ChangedIff(n, was, now, f);
    RemovedForwardsActions(n, was, now);
    NewForwardsActions(n, was, now);
  }

  /** Both lists follow the order of the forwards, one action at most for each ... */
  lemma {:induction false} RemovedInOrder(n: Name, a: seq<Forward>, b: seq<Forward>, now: seq<Forward>)
    ensures RemovedForwards(n, a + b, now) == RemovedForwards(n, a, now) + RemovedForwards(n, b, now)
  {
    if a == [] {
      assert a + b == b;
    } else {
      assert (a + b)[1..] == a[1..] + b;
      RemovedInOrder(n, a[1..], b, now);
    }
  }

  lemma {:induction false} NewInOrder(n: Name, was: seq<Forward>, a: seq<Forward>, b: seq<Forward>)
    ensures NewForwards(n, was, a + b) == NewForwards(n, was, a) + NewForwards(n, was, b)
  {
    if a == [] {
      assert a + b == b;
    } else {
      assert (a + b)[1..] == a[1..] + b;
      NewInOrder(n, was, a[1..], b);
    }
  }

  lemma OneForward(n: Name, f: Forward, others: seq<Forward>)
    ensures |RemovedForwards(n, [f], others)| <= 1 && |NewForwards(n, others, [f])| <= 1
    ensures RemovedForwards(n, [], others) == [] && NewForwards(n, others, []) == []
  {
    assert [f][1..] == [];
  }

  /** ... and removals come first. */
  lemma RemovalsFirst(n: Name, was: seq<Forward>, now: seq<Forward>, i: nat, j: nat)
    requires i < j < |DiffForwards(n, was, now)| && DiffForwards(n, was, now)[j].RemoveForward?
    ensures DiffForwards(n, was, now)[i].RemoveForward?
  {
    RemovedForwardsActions(n, was, now);
    NewForwardsActions(n, was, now);
    var k := |RemovedForwards(n, was, now)|;
    if j >= k {
      assert DiffForwards(n, was, now)[j] in NewForwards(n, was, now);
    } else {
      assert DiffForwards(n, was, now)[i] in RemovedForwards(n, was, now);
    }
  }

  /** What the plan says of a profile, by its two configurations field by field. */
  lemma ProfileActionsIff(n: Name, o: Option<Profile>, p: Option<Profile>)
    ensures var acts := Expected(n, o, p);
            && (StartProfile(n) in acts <==> o == None && p.Some? && p.value.enabled != Some(false))
            && (StopProfile(n) in acts <==>
                  o.Some? && (p == None || (p.value.enabled == Some(false) && o.value.enabled != Some(false))))
            && (RestartProfile(n) in acts <==>
                  && o.Some? && p.Some? && p.value.enabled != Some(false)
                  && (o.value.connection != p.value.connection || o.value.enabled != p.value.enabled))
            && (o.Some? && p.Some? && p.value.enabled != Some(false) && o.value.connection == p.value.connection
                && o.value.enabled == p.value.enabled ==>
                  acts == DiffForwards(n, o.value.forwards, p.value.forwards))
  {
    ExpectedShape(n, o, p);
    if o.Some? && p.Some? {
      DiffForwardsActions(n, o.value.forwards, p.value.forwards);
    }
  }

  /** The action that decides what the ordered pass leaves: the last stop, or the last
      start or restart that builds. */
  predicate Effective(a: Action, builds: bool) { a.StopProfile? || ((a.StartProfile? || a.RestartProfile?) && builds) }

  lemma {:induction false} LastActionDecides(cur: Option<Profile>, acts: seq<Action>, built: Option<Profile>, k: nat)
    requires k <= |acts| && forall i :: k <= i < |acts| ==> !Effective(acts[i], built != None)
    requires k > 0 ==> Effective(acts[k - 1], built != None)
    ensures OrderedPass(cur, acts, built)
            == if k == 0 then cur
               else if acts[k - 1].StopProfile? || built.value.enabled == Some(false) then None
               else built
  {
    if k < |acts| {
      LastActionDecides(cur, acts[..|acts| - 1], built, k);
    }
  }

  /** And after it, any forward action restarts the profile if it builds. */
  lemma ForwardActionRestarts(cur: Option<Profile>, acts: seq<Action>, built: Option<Profile>)
    ensures var forward := exists a :: a in acts && (a.AddForward? || a.RemoveForward? || a.RestartForward?);
            AfterPlan(cur, acts, built)
            == if !forward || built == None then OrderedPass(cur, acts, built)
               else if built.value.enabled == Some(false) then None
               else built
  {
    assert HasForward(acts) <==> exists a :: a in acts && (a.AddForward? || a.RemoveForward? || a.RestartForward?);
  }

  /** What one reload does to one profile, whatever was running before: if the plan
      rebuilds it, it is right when it builds or was right already; if the plan
      leaves it alone, it is right when it was right for the prior config. */
  lemma ReloadOneProfile(n: Name, running: Option<Profile>, o: Option<Profile>, p: Option<Profile>, builds: bool)
    requires NamedOk(n, o) && NamedOk(n, p)
    ensures var acts := Expected(n, o, p);
            var built := if p.Some? && !Disabled(p.value) && builds then p else None;
            var after := AfterPlan(running, acts, built);
            && (Rebuilds(acts) ==> (Agrees(after, p) <==> builds || Agrees(running, p)))
            && (acts == [] ==> after == running && (Agrees(after, p) <==> Agrees(running, o)))
            && (StopProfile(n) in acts ==> Agrees(after, p))
  {
    var acts := Expected(n, o, p);
    var built := if p.Some? && !Disabled(p.value) && builds then p else None;
    PlanLeaves(n, running, o, p, built);
    if acts == [] {
      UnplannedAgrees(n, running, o, p);
    } else {
      PlanIsExact(n, o, p);
    }
  }

  /** A profile the plan is silent about is as right for the next config as for the prior. */
  lemma UnplannedAgrees(n: Name, running: Option<Profile>, o: Option<Profile>, p: Option<Profile>)
    requires NamedOk(n, o) && NamedOk(n, p) && Expected(n, o, p) == []
    ensures Agrees(running, p) <==> Agrees(running, o)
  {
    PlanIsExact(n, o, p);
  }

  /** What the plan for one profile leaves of it: the built one if it rebuilds it and it
      builds, none if it stops it, and what was there otherwise. */
  lemma PlanLeaves(n: Name, running: Option<Profile>, o: Option<Profile>, p: Option<Profile>, built: Option<Profile>)
    requires NamedOk(n, o) && NamedOk(n, p) && (built.Some? ==> !Disabled(built.value))
    ensures var acts := Expected(n, o, p);
            AfterPlan(running, acts, built)
            == if Rebuilds(acts) then (if built.Some? then built else running)
               else if acts == [] then running
               else None
    ensures StopProfile(n) in Expected(n, o, p) ==> !Rebuilds(Expected(n, o, p)) && Expected(n, o, p) != []
  {
    var acts := Expected(n, o, p);
    PlanIsExact(n, o, p);
    if Rebuilds(acts) {
      RebuildLeaves(n, running, o, p, built);
    } else if acts != [] {
      assert acts == [StopProfile(n)];
      OneStop(running, n, built);
    }
  }

  lemma RebuildLeaves(n: Name, running: Option<Profile>, o: Option<Profile>, p: Option<Profile>, built: Option<Profile>)
    requires NamedOk(n, o) && NamedOk(n, p) && (built.Some? ==> !Disabled(built.value))
    requires Rebuilds(Expected(n, o, p))
    ensures AfterPlan(running, Expected(n, o, p), built) == if built.Some? then built else running
  {
    if HasForward(Expected(n, o, p)) {
      ForwardsOnly(n, o, p);
      ForwardPass(running, Expected(n, o, p), built);
    } else {
      RestartPass(n, running, o, p, built);
    }
  }

  lemma OneStop(running: Option<Profile>, n: Name, built: Option<Profile>)
    ensures AfterPlan(running, [StopProfile(n)], built) == None
  {
    assert [StopProfile(n)][..0] == [];
  }

  lemma RestartPass(n: Name, running: Option<Profile>, o: Option<Profile>, p: Option<Profile>, built: Option<Profile>)
    requires NamedOk(n, o) && NamedOk(n, p)
    requires Rebuilds(Expected(n, o, p)) && !HasForward(Expected(n, o, p))
    ensures AfterPlan(running, Expected(n, o, p), built) == if built.Some? then Placed(built.value) else running
  {
    var acts := Expected(n, o, p);
    ExpectedShape(n, o, p);
    if o.None? {
      OneRestart(running, StartProfile(n), built);
    } else {
      if p.Some? && acts == DiffForwards(n, o.value.forwards, p.value.forwards) {
        DiffForwardsActions(n, o.value.forwards, p.value.forwards);
      }
      OneRestart(running, RestartProfile(n), built);
    }
  }

  lemma ExpectedShape(n: Name, o: Option<Profile>, p: Option<Profile>)
    ensures o.None? ==> Expected(n, o, p) == Starts(n, o, p)
    ensures o.Some? && p.None? ==> Expected(n, o, p) == [StopProfile(n)]
    ensures o.Some? && p.Some? ==> Expected(n, o, p) == Changes(n, o, p)
  {
  }

  lemma OneRestart(running: Option<Profile>, a: Action, built: Option<Profile>)
    requires !a.StopProfile? && !OnForward(a)
    ensures OrderedPass(running, [a], built) == if built.Some? then Placed(built.value) else running
  {
    assert [a][..0] == [];
  }

  lemma {:induction false} ForwardPass(running: Option<Profile>, acts: seq<Action>, built: Option<Profile>)
    requires forall a :: a in acts ==> OnForward(a)
    ensures OrderedPass(running, acts, built) == running
  {
    if acts != [] {
      assert OnForward(acts[|acts| - 1]);
      ForwardPass(running, acts[..|acts| - 1], built);
    }
  }

  // ----- Reloads, one after another -----

  /** The factory's result for a profile of `next`; `builds` holds the names whose
      build succeeds. */
  function Provide(next: Config, builds: set<Name>, n: Name): (r: Option<Profile>)
    ensures r.Some? ==> r.value.name == n && !Disabled(r.value)
  {
    var p := Lookup(next, n);
    if p.Some? && !Disabled(p.value) && n in builds then p else None
  }

  type Running = map<Name, Profile>

  /** Every profile runs exactly as the config asks. */
  ghost predicate Mirrors(running: Running, c: Config)
  {
    forall n :: Agrees(Get(running, n), Lookup(c, n))
  }

  ghost function Plan(prior: Config, next: Config, n: Name): seq<Action>
  {
    Expected(n, Lookup(prior, n), Lookup(next, n))
  }

  ghost predicate Reloaded(prior: Config, running: Running, next: Config, builds: set<Name>, after: Running)
  {
    forall n :: Get(after, n) == AfterPlan(Get(running, n), Plan(prior, next, n), Provide(next, builds, n))
  }

  class ConfigCell {
    var applied: Config
    const orch: Orchestrator

    /** The cell only ever holds a config that passed validation. */
    ghost predicate Valid()
      reads this
    {
      WellNamed(applied)
    }

    constructor (boot: Config, orch: Orchestrator)
      requires WellNamed(boot)
      ensures Valid() && applied == boot && this.orch == orch
    {
      this.applied := boot;
      this.orch := orch;
    }

    /** Validate, plan against the last applied config, apply, and only then move
        the cell on; a failed validation changes nothing. */
    method Reload(next: Config, otherChecks: bool, builds: set<Name>) returns (ok: bool)
      requires Valid()
      modifies this`applied, orch`profiles
      ensures Valid()
      ensures ok <==> otherChecks && WellNamed(next)
      ensures !ok ==> applied == old(applied) && orch.profiles == old(orch.profiles)
      ensures ok ==> applied == next
      ensures ok && orch.shuttingDown ==> orch.profiles == old(orch.profiles)
      ensures ok && !orch.shuttingDown ==> Reloaded(old(applied), old(orch.profiles), next, builds, orch.profiles)
    {
      if !otherChecks || !WellNamed(next) {
        return false;
      }
      var plan := Compute(applied, next);
      orch.Apply(plan, n => Provide(next, builds, n));
      applied := next;
      ok := true;
    }
  }

  lemma WellNamedLookup(c: Config, n: Name)
    requires WellNamed(c)
    ensures NamedOk(n, Lookup(c, n))
  {
    var p := Lookup(c, n);
    if p.Some? {
      var i :| 0 <= i < |c| && c[i] == p.value;
    }
  }

  /** From a mirrored state, a reload ends mirrored iff everything it has to rebuild builds. */
  lemma ReloadMirrorsIff(prior: Config, running: Running, next: Config, builds: set<Name>, after: Running)
    requires WellNamed(prior) && WellNamed(next)
    requires Mirrors(running, prior) && Reloaded(prior, running, next, builds, after)
    ensures Mirrors(after, next) <==> forall n :: Rebuilds(Plan(prior, next, n)) ==> n in builds
  {
    forall n ensures Agrees(Get(after, n), Lookup(next, n)) <==> (Rebuilds(Plan(prior, next, n)) ==> n in builds) {
      var o, p := Lookup(prior, n), Lookup(next, n);
      WellNamedLookup(prior, n);
      WellNamedLookup(next, n);
      PlanIsExact(n, o, p);
      ReloadOneProfile(n, Get(running, n), o, p, n in builds);
      assert Agrees(Get(running, n), o);
    }
  }

  /** What a reload leaves of each profile: the one in the new config exactly as it is
      there, tuning included, if the plan rebuilds it and it builds; none if the plan
      stops it; and what was there otherwise. */
  lemma ReloadLeaves(prior: Config, running: Running, next: Config, builds: set<Name>, after: Running, n: Name)
    requires WellNamed(prior) && WellNamed(next) && Reloaded(prior, running, next, builds, after)
    ensures Rebuilds(Plan(prior, next, n)) && n in builds ==> Get(after, n) == Lookup(next, n) && n in after
    ensures Rebuilds(Plan(prior, next, n)) && n !in builds ==> Get(after, n) == Get(running, n)
    ensures StopProfile(n) in Plan(prior, next, n) ==> n !in after
    ensures Plan(prior, next, n) == [] ==> Get(after, n) == Get(running, n)
  {
    var o, p := Lookup(prior, n), Lookup(next, n);
    WellNamedLookup(prior, n);
    WellNamedLookup(next, n);
    PlanIsExact(n, o, p);
    PlanLeaves(n, Get(running, n), o, p, Provide(next, builds, n));
    assert Get(after, n) == AfterPlan(Get(running, n), Plan(prior, next, n), Provide(next, builds, n));
  }

  predicate NamesDiffer(fs: seq<Forward>)
  {
    forall k, l :: 0 <= k < |fs| && 0 <= l < |fs| && fs[k].name == fs[l].name ==> k == l
  }

  /** Validation wants every profile name once, and every forward name once in its profile. */
  lemma WellNamedIff(c: Config)
    ensures WellNamed(c) <==>
            && (forall i, j :: 0 <= i < |c| && 0 <= j < |c| && c[i].name == c[j].name ==> i == j)
            && (forall i :: 0 <= i < |c| ==> NamesDiffer(c[i].forwards))
  {
  }

  /** One reload: a validated config and the set of profiles that build. */
  datatype Request = Request(next: Config, builds: set<Name>)

  /** `states[i]` is what runs after the first `i` reloads, starting from `boot`. */
  ghost predicate IsReloadRun(boot: Config, reqs: seq<Request>, states: seq<Running>)
  {
    && |states| == |reqs| + 1
    && forall i :: 0 <= i < |reqs| ==> ReloadStep(boot, reqs, states, i)
  }

  ghost predicate ReloadStep(boot: Config, reqs: seq<Request>, states: seq<Running>, i: nat)
    requires i < |reqs| && |states| == |reqs| + 1
  {
    && WellNamed(reqs[i].next)
    && Reloaded(ConfigAt(boot, reqs, i), states[i], reqs[i].next, reqs[i].builds, states[i + 1])
  }

  /** Everything reload `i` has to rebuild builds. */
  ghost predicate AllBuild(boot: Config, reqs: seq<Request>, i: nat)
    requires i < |reqs|
  {
    forall n :: Rebuilds(Plan(ConfigAt(boot, reqs, i), reqs[i].next, n)) ==> n in reqs[i].builds
  }

  function ConfigAt(boot: Config, reqs: seq<Request>, i: nat): Config
    requires i <= |reqs|
  {
    if i == 0 then boot else reqs[i - 1].next
  }

  lemma ConfigsWellNamed(boot: Config, reqs: seq<Request>, states: seq<Running>, i: nat)
    requires WellNamed(boot) && IsReloadRun(boot, reqs, states) && i <= |reqs|
    ensures WellNamed(ConfigAt(boot, reqs, i))
  {
    if i > 0 {
      assert ReloadStep(boot, reqs, states, i - 1);
    }
  }

  /** What runs after the first `i` reloads mirrors what the cell then holds. */
  ghost predicate MirroredAt(boot: Config, reqs: seq<Request>, states: seq<Running>, i: nat)
    requires i <= |reqs| && |states| == |reqs| + 1
  {
    Mirrors(states[i], ConfigAt(boot, reqs, i))
  }

  lemma MirroredStep(boot: Config, reqs: seq<Request>, states: seq<Running>, i: nat)
    requires WellNamed(boot) && IsReloadRun(boot, reqs, states) && i < |reqs|
    requires MirroredAt(boot, reqs, states, i)
    ensures MirroredAt(boot, reqs, states, i + 1) <==> AllBuild(boot, reqs, i)
  {
    ConfigsWellNamed(boot, reqs, states, i);
    assert ReloadStep(boot, reqs, states, i);
    ReloadMirrorsIff(ConfigAt(boot, reqs, i), states[i], reqs[i].next, reqs[i].builds, states[i + 1]);
  }

  ghost predicate MirroredThrough(boot: Config, reqs: seq<Request>, states: seq<Running>, k: nat)
    requires k <= |reqs| && |states| == |reqs| + 1
  {
    forall i: nat :: i <= k ==> MirroredAt(boot, reqs, states, i)
  }

  ghost predicate BuildsThrough(boot: Config, reqs: seq<Request>, k: nat)
    requires k <= |reqs|
  {
    forall j: nat :: j < k ==> AllBuild(boot, reqs, j)
  }

  lemma ThroughSplits(boot: Config, reqs: seq<Request>, states: seq<Running>, k: nat)
    requires 0 < k <= |reqs| && |states| == |reqs| + 1
    ensures MirroredThrough(boot, reqs, states, k)
            <==> MirroredThrough(boot, reqs, states, k - 1) && MirroredAt(boot, reqs, states, k)
    ensures MirroredThrough(boot, reqs, states, k - 1) ==> MirroredAt(boot, reqs, states, k - 1)
  {
  }

  lemma MirroredThroughStep(boot: Config, reqs: seq<Request>, states: seq<Running>, k: nat)
    requires WellNamed(boot) && IsReloadRun(boot, reqs, states) && 0 < k <= |reqs|
    ensures MirroredThrough(boot, reqs, states, k)
            <==> MirroredThrough(boot, reqs, states, k - 1) && AllBuild(boot, reqs, k - 1)
  {
    ThroughSplits(boot, reqs, states, k);
    if MirroredThrough(boot, reqs, states, k - 1) {
      MirroredStep(boot, reqs, states, k - 1);
    }
  }

  lemma BuildsThroughStep(boot: Config, reqs: seq<Request>, k: nat)
    requires 0 < k <= |reqs|
    ensures BuildsThrough(boot, reqs, k) <==> BuildsThrough(boot, reqs, k - 1) && AllBuild(boot, reqs, k - 1)
  {
  }

  lemma MirroredFirst(boot: Config, reqs: seq<Request>, states: seq<Running>)
    requires |states| == |reqs| + 1 && Mirrors(states[0], boot)
    ensures MirroredThrough(boot, reqs, states, 0)
  {
    assert MirroredAt(boot, reqs, states, 0);
  }

  /** The running profiles mirror the cell after every one of `k` reloads exactly when
      everything those reloads have to rebuild builds. */
  lemma {:induction false} RunMirrors(boot: Config, reqs: seq<Request>, states: seq<Running>, k: nat)
    requires WellNamed(boot) && IsReloadRun(boot, reqs, states) && k <= |reqs|
    requires Mirrors(states[0], boot)
    ensures MirroredThrough(boot, reqs, states, k) <==> BuildsThrough(boot, reqs, k)
  {
    if k == 0 {
      MirroredFirst(boot, reqs, states);
    } else {
      RunMirrors(boot, reqs, states, k - 1);
      MirroredThroughStep(boot, reqs, states, k);
      BuildsThroughStep(boot, reqs, k);
    }
  }

  lemma UntouchedStep(prior: Config, running: Running, next: Config, builds: set<Name>, after: Running, n: Name)
    requires WellNamed(prior) && WellNamed(next) && Reloaded(prior, running, next, builds, after)
    requires Plan(prior, next, n) == []
    ensures Get(after, n) == Get(running, n)
    ensures Agrees(Get(after, n), Lookup(next, n)) <==> Agrees(Get(running, n), Lookup(prior, n))
  {
    WellNamedLookup(prior, n);
    WellNamedLookup(next, n);
    ReloadOneProfile(n, Get(running, n), Lookup(prior, n), Lookup(next, n), n in builds);
  }

  ghost predicate LeavesAlone(boot: Config, reqs: seq<Request>, i: nat, n: Name)
    requires i < |reqs|
  {
    Plan(ConfigAt(boot, reqs, i), reqs[i].next, n) == []
  }

  /** Whether `n` runs as the cell says after the first `i` reloads. */
  ghost predicate RightAt(boot: Config, reqs: seq<Request>, states: seq<Running>, n: Name, i: nat)
    requires i <= |reqs| && |states| == |reqs| + 1
  {
    Agrees(Get(states[i], n), Lookup(ConfigAt(boot, reqs, i), n))
  }

  lemma UntouchedReload(boot: Config, reqs: seq<Request>, states: seq<Running>, n: Name, i: nat)
    requires WellNamed(boot) && IsReloadRun(boot, reqs, states) && i < |reqs|
    requires LeavesAlone(boot, reqs, i, n)
    ensures Get(states[i + 1], n) == Get(states[i], n)
    ensures RightAt(boot, reqs, states, n, i + 1) <==> RightAt(boot, reqs, states, n, i)
  {
    ConfigsWellNamed(boot, reqs, states, i);
    assert ReloadStep(boot, reqs, states, i);
    UntouchedStep(ConfigAt(boot, reqs, i), states[i], reqs[i].next, reqs[i].builds, states[i + 1], n);
  }

  /** A profile that failed to build stays wrong through every later reload whose
      config leaves it unchanged: nothing retries it. */
  lemma {:induction false} StaleUntilTouched(boot: Config, reqs: seq<Request>, states: seq<Running>, n: Name,
                                             i: nat, j: nat)
    requires WellNamed(boot) && IsReloadRun(boot, reqs, states) && i <= j <= |reqs|
    requires !RightAt(boot, reqs, states, n, i)
    requires forall k :: i <= k < j ==> LeavesAlone(boot, reqs, k, n)
    ensures Get(states[j], n) == Get(states[i], n)
    ensures !RightAt(boot, reqs, states, n, j)
  {
    if i < j {
      StaleUntilTouched(boot, reqs, states, n, i, j - 1);
      UntouchedReload(boot, reqs, states, n, j - 1);
    }
  }

  /** In particular, reloading the file again after a failed build changes nothing. */
  lemma ReloadingAgainDoesNothing(c: Config, running: Running, builds: set<Name>, after: Running)
    requires WellNamed(c) && Reloaded(c, running, c, builds, after)
    ensures after == running
  {
    forall n ensures Get(after, n) == Get(running, n) {
      WellNamedLookup(c, n);
      PlanIsExact(n, Lookup(c, n), Lookup(c, n));
      UntouchedStep(c, running, c, builds, after, n);
    }
    forall n ensures n in after <==> n in running {
      assert Get(after, n) == Get(running, n);
    }
    forall n | n in after ensures after[n] == running[n] {
      assert Get(after, n) == Get(running, n);
    }
  }

  // ----- A rebuild that fails -----

  /** A profile whose rebuild fails is left as it was, running or not. */
  lemma FailedRebuildKeeps(prior: Config, running: Running, next: Config, builds: set<Name>, after: Running, n: Name)
    requires WellNamed(prior) && WellNamed(next) && Reloaded(prior, running, next, builds, after)
    requires Rebuilds(Plan(prior, next, n)) && n !in builds
    ensures Get(after, n) == Get(running, n)
  {
    var o, p := Lookup(prior, n), Lookup(next, n);
    WellNamedLookup(prior, n);
    WellNamedLookup(next, n);
    RebuildLeaves(n, Get(running, n), o, p, None);
  }

  /** A plan for one profile with a forward action has nothing else. */
  lemma ForwardsOnly(n: Name, o: Option<Profile>, p: Option<Profile>)
    requires HasForward(Expected(n, o, p))
    ensures forall a :: a in Expected(n, o, p) ==> OnForward(a)
  {
    ExpectedShape(n, o, p);
    if o.Some? && p.Some? {
      DiffForwardsActions(n, o.value.forwards, p.value.forwards);
    }
  }

  /** From a mirrored state, a changed profile whose rebuild fails keeps running in its
      prior form, or not at all, while the cell already holds the new one. */
  lemma FailedRestartKeepsPrior(prior: Config, running: Running, next: Config, builds: set<Name>, after: Running,
                                n: Name)
    requires WellNamed(prior) && WellNamed(next) && Mirrors(running, prior)
    requires Reloaded(prior, running, next, builds, after)
    requires Rebuilds(Plan(prior, next, n)) && n !in builds
    ensures Get(after, n) == Get(running, n)
    ensures Agrees(Get(after, n), Lookup(prior, n)) && !Agrees(Get(after, n), Lookup(next, n))
  {
    FailedRebuildKeeps(prior, running, next, builds, after, n);
    WellNamedLookup(prior, n);
    WellNamedLookup(next, n);
    PlanIsExact(n, Lookup(prior, n), Lookup(next, n));
    assert Agrees(Get(running, n), Lookup(prior, n));
  }

  /** Reloading the same file again does not retry it, even once it would build. */
  lemma FailedBuildIsNotRetried(prior: Config, running: Running, next: Config, builds: set<Name>, after: Running,
                                later: set<Name>, again: Running, n: Name)
    requires WellNamed(prior) && WellNamed(next) && Mirrors(running, prior)
    requires Reloaded(prior, running, next, builds, after) && Reloaded(next, after, next, later, again)
    requires Rebuilds(Plan(prior, next, n)) && n !in builds
    ensures Get(again, n) == Get(running, n) && !Agrees(Get(again, n), Lookup(next, n))
  {
    FailedRestartKeepsPrior(prior, running, next, builds, after, n);
    ReloadingAgainDoesNothing(next, after, later, again);
  }

  lemma LookupOne(p: Profile, n: Name)
    ensures Lookup([p], n) == if p.name == n then Some(p) else None
  {
  }

  /** Inputs on which that happens: a new profile that does not build ... */
  lemma FailedBuildExample(p: Profile)
    requires !Disabled(p)
    ensures Mirrors(map[], []) && Reloaded([], map[], [p], {}, map[]) && Rebuilds(Plan([], [p], p.name))
    ensures !Mirrors(map[], [p])
  {
    LookupOne(p, p.name);
    assert !Agrees(Get(map[], p.name), Lookup([p], p.name));
    assert StartProfile(p.name) in Plan([], [p], p.name);
    forall n ensures Get(map[], n) == AfterPlan(None, Plan([], [p], n), Provide([p], {}, n)) {
      LookupOne(p, n);
      if n == p.name {
        UnbuiltStart(n, p);
      } else {
        UnplannedOne(n, None);
      }
    }
  }

  /** ... and a changed one. */
  lemma FailedRestartExample(p: Profile, q: Profile)
    requires !Disabled(p) && !Disabled(q) && p.name == q.name && p.connection != q.connection
    ensures Mirrors(map[p.name := p], [p]) && Reloaded([p], map[p.name := p], [q], {}, map[p.name := p])
    ensures Rebuilds(Plan([p], [q], p.name)) && !Mirrors(map[p.name := p], [q])
  {
    var running := map[p.name := p];
    LookupOne(p, p.name);
    LookupOne(q, p.name);
    assert !Agrees(Get(running, p.name), Lookup([q], p.name));
    ChangedShape(p.name, p, q);
    assert RestartProfile(p.name) in Plan([p], [q], p.name);
    forall n ensures Agrees(Get(running, n), Lookup([p], n)) {
      LookupOne(p, n);
    }
    forall n ensures Get(running, n) == AfterPlan(Get(running, n), Plan([p], [q], n), Provide([q], {}, n)) {
      LookupOne(p, n);
      LookupOne(q, n);
      if n == p.name {
        UnbuiltRestart(n, Get(running, n), p, q);
      } else {
        UnplannedOne(n, Get(running, n));
      }
    }
  }

  lemma UnbuiltStart(n: Name, p: Profile)
    requires !Disabled(p)
    ensures AfterPlan(None, Expected(n, None, Some(p)), None) == None
  {
    ExpectedShape(n, None, Some(p));
    OneRestart(None, StartProfile(n), None);
  }

  lemma ChangedShape(n: Name, p: Profile, q: Profile)
    requires !Disabled(q) && p.connection != q.connection
    ensures Expected(n, Some(p), Some(q)) == [RestartProfile(n)]
  {
    ExpectedShape(n, Some(p), Some(q));
  }

  lemma UnbuiltRestart(n: Name, running: Option<Profile>, p: Profile, q: Profile)
    requires !Disabled(q) && p.connection != q.connection
    ensures AfterPlan(running, Expected(n, Some(p), Some(q)), None) == running
  {
    ChangedShape(n, p, q);
    OneRestart(running, RestartProfile(n), None);
  }

  lemma UnplannedOne(n: Name, running: Option<Profile>)
    ensures AfterPlan(running, Expected(n, None, None), None) == running
  {
    ExpectedShape(n, None, None);
  }
}
