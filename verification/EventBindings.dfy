/**
 `build_event_bindings` in `crates/spt-bin/src/cli_dispatch.rs`, with the binding
 builders of `crates/spt-events/src/binding.rs`.

 Severity names and duration strings are parsed by parameters: any partial functions.
 */
module EventBindings {

  import opened Basics

  datatype Severity = Trace | Debug | Info | Warn | Error | Critical

  datatype DedupeConfig = DedupeConfig(key: Option<string>, window: Option<string>)

  datatype BindingConfig = BindingConfig(name: string, kinds: seq<string>, actions: seq<string>,
                                         minLevel: Option<string>, throttle: Option<string>,
                                         dedupe: Option<DedupeConfig>)

  datatype Dedupe = Dedupe(keyFields: seq<string>, interval: nat)

  datatype Binding = Binding(name: string, kinds: seq<string>, minSeverity: Option<Severity>,
                             sinks: seq<string>, dedupe: Option<Dedupe>, throttle: Option<nat>)

  const DEFAULT_WINDOW: nat := 60_000_000_000
  const DEFAULT_KEY := ["kind", "profile_id", "forward_id"]

  function AndThen<A, B>(x: Option<A>, f: A -> Option<B>): Option<B>
  {
    if x.Some? then f(x.value) else None
  }

  /** The actions that name a live sink, in order. */
  function LiveRefs(actions: seq<string>, sinks: set<string>): (refs: seq<string>)
    ensures forall a :: a in refs <==> a in actions && a in sinks
  {
    if actions == [] then []
    else (if actions[0] in sinks then [actions[0]] else []) + LiveRefs(actions[1..], sinks)
  }

  /** The selection keeps the order: it distributes over concatenation. */
  lemma {:induction false} LiveRefsConcat(a: seq<string>, b: seq<string>, sinks: set<string>)
    ensures LiveRefs(a + b, sinks) == LiveRefs(a, sinks) + LiveRefs(b, sinks)
  {
    if a == [] {
      assert a + b == b;
    } else {
      assert (a + b)[1..] == a[1..] + b;
      LiveRefsConcat(a[1..], b, sinks);
    }
  }

  /** One action gives one reference if its sink is live, and none otherwise. */
  lemma LiveRefsOfOne(a: string, sinks: set<string>)
    ensures LiveRefs([], sinks) == [] && LiveRefs([a], sinks) == if a in sinks then [a] else []
  {
    assert [a][1..] == [];
  }

  function BuildDedupe(d: DedupeConfig, duration: string -> Option<nat>): Dedupe
  {
    var window := AndThen<string, nat>(d.window, duration);
    Dedupe(if d.key.Some? then [d.key.value] else DEFAULT_KEY,
           if window.Some? then window.value else DEFAULT_WINDOW)
  }

  /** What the configuration `b` asks for, given the live sinks and the default level. */
  predicate Realizes(out: Binding, b: BindingConfig, sinks: set<string>, default: Option<Severity>,
                     severity: string -> Option<Severity>, duration: string -> Option<nat>)
  {
    && out.name == b.name && out.kinds == b.kinds
    && out.sinks == LiveRefs(b.actions, sinks) && out.sinks != []
    && out.minSeverity
       == (if b.minLevel.Some? && severity(b.minLevel.value).Some? then severity(b.minLevel.value) else default)
    && out.throttle == (if b.throttle.Some? then duration(b.throttle.value) else None)
    && out.dedupe == (if b.dedupe.Some? then Some(BuildDedupe(b.dedupe.value, duration)) else None)
  }

  predicate Survives(b: BindingConfig, sinks: set<string>)
  {
    exists a :: a in b.actions && a in sinks
  }

  /** Catches every event for every live sink, at the default level. */
  ghost predicate IsFallback(out: Binding, sinks: set<string>, default: Option<Severity>)
  {
    && out.name == "default-all" && out.kinds == [] && out.dedupe == None && out.throttle == None
    && out.minSeverity == default
    && (forall s :: s in out.sinks <==> s in sinks) && |out.sinks| == |sinks|
  }

  predicate Increasing(kept: seq<nat>) { forall i, j :: 0 <= i < j < |kept| ==> kept[i] < kept[j] }

  /** `kept` lists, in configured order, exactly the survivors among the first `n`. */
  ghost predicate KeepsSurvivors(configs: seq<BindingConfig>, n: nat, sinks: set<string>, kept: seq<nat>)
    requires n <= |configs|
  {
    && Increasing(kept)
    && (forall k :: 0 <= k < |kept| ==> kept[k] < n)
    && (forall i: nat :: i < n ==> (i in kept <==> Survives(configs[i], sinks)))
  }

  /** The result, from the configuration: the survivors in order, each as configured,
      or the fallback if there is none and some sink is live. */
  ghost predicate IsResult(configs: seq<BindingConfig>, default: Option<Severity>, sinks: set<string>,
                           severity: string -> Option<Severity>, duration: string -> Option<nat>,
                           out: seq<Binding>, kept: seq<nat>)
  {
    && KeepsSurvivors(configs, |configs|, sinks, kept)
    && (kept != [] ==>
          && |out| == |kept|
          && forall k :: 0 <= k < |kept| ==> Realizes(out[k], configs[kept[k]], sinks, default, severity, duration))
    && (kept == [] && sinks != {} ==> |out| == 1 && IsFallback(out[0], sinks, default))
    && (kept == [] && sinks == {} ==> out == [])
  }

  /** One configured binding with at least one live sink. */
  method BuildOne(b: BindingConfig, sinks: set<string>, default: Option<Severity>,
                  severity: string -> Option<Severity>, duration: string -> Option<nat>) returns (binding: Binding)
    requires LiveRefs(b.actions, sinks) != []
    ensures Realizes(binding, b, sinks, default, severity, duration)
  {
    var throttle := AndThen<string, nat>(b.throttle, duration);
    binding := Binding(b.name, b.kinds, None, LiveRefs(b.actions, sinks), None, throttle);
    var level := AndThen(b.minLevel, severity);
    if level.Some? {
      binding := binding.(minSeverity := level);
    }
    if default.Some? && binding.minSeverity.None? {
      binding := binding.(minSeverity := default);
    }
    if b.dedupe.Some? {
      binding := binding.(dedupe := Some(BuildDedupe(b.dedupe.value, duration)));
    }
  }

  method BuildEventBindings(configs: seq<BindingConfig>, defaultLevel: Option<string>, sinks: set<string>,
                            severity: string -> Option<Severity>, duration: string -> Option<nat>)
    returns (out: seq<Binding>)
    ensures exists kept :: IsResult(configs, AndThen(defaultLevel, severity), sinks, severity, duration, out, kept)
  {
    var default := AndThen(defaultLevel, severity);
    out := [];
    ghost var kept: seq<nat> := [];
    for i := 0 to |configs|
      invariant KeepsSurvivors(configs, i, sinks, kept)
      invariant |out| == |kept|
      invariant forall k :: 0 <= k < |kept| ==> Realizes(out[k], configs[kept[k]], sinks, default, severity, duration)
    {
      var b := configs[i];
      ghost var before := kept;
      if LiveRefs(b.actions, sinks) != [] {
        assert LiveRefs(b.actions, sinks)[0] in LiveRefs(b.actions, sinks);
        var binding := BuildOne(b, sinks, default, severity, duration);
        out := out + [binding];
        kept := kept + [i];
      }
      ExtendSurvivors(configs, i, sinks, before, kept);
    }
    if out == [] && sinks != {} {
      var all := ListAll(sinks);
      out := [Binding("default-all", [], default, all, None, None)];
    }
    assert IsResult(configs, default, sinks, severity, duration, out, kept);
  }

  /** Every binding names a live sink and only live sinks, and there is a binding
      exactly when there is a live sink. */
  lemma OnlyLiveSinks(configs: seq<BindingConfig>, default: Option<Severity>, sinks: set<string>,
                      severity: string -> Option<Severity>, duration: string -> Option<nat>,
                      out: seq<Binding>, kept: seq<nat>)
    requires IsResult(configs, default, sinks, severity, duration, out, kept)
    ensures out != [] <==> sinks != {}
    ensures forall b :: b in out ==> b.sinks != [] && forall s :: s in b.sinks ==> s in sinks
  {
    if kept != [] {
      assert kept[0] in kept && Survives(configs[kept[0]], sinks);
    }
    forall b | b in out ensures b.sinks != [] && forall s :: s in b.sinks ==> s in sinks {
      var k :| 0 <= k < |out| && out[k] == b;
      if kept == [] {
        assert sinks != {};
      } else {
        assert Realizes(out[k], configs[kept[k]], sinks, default, severity, duration);
      }
    }
  }

  lemma ExtendSurvivors(configs: seq<BindingConfig>, i: nat, sinks: set<string>, before: seq<nat>, after: seq<nat>)
    requires i < |configs| && KeepsSurvivors(configs, i, sinks, before)
    requires after == if Survives(configs[i], sinks) then before + [i] else before
    ensures KeepsSurvivors(configs, i + 1, sinks, after)
  {
    if Survives(configs[i], sinks) {
      KeepOne(configs, i, sinks, before);
    } else {
      SkipOne(configs, i, sinks, before);
    }
  }

  lemma KeepOne(configs: seq<BindingConfig>, i: nat, sinks: set<string>, kept: seq<nat>)
    requires i < |configs| && KeepsSurvivors(configs, i, sinks, kept) && Survives(configs[i], sinks)
    ensures KeepsSurvivors(configs, i + 1, sinks, kept + [i])
  {
    forall j: nat | j < i + 1 ensures j in kept + [i] <==> Survives(configs[j], sinks) {
      assert j in kept + [i] <==> j in kept || j == i;
    }
  }

  lemma SkipOne(configs: seq<BindingConfig>, i: nat, sinks: set<string>, kept: seq<nat>)
    requires i < |configs| && KeepsSurvivors(configs, i, sinks, kept) && !Survives(configs[i], sinks)
    ensures KeepsSurvivors(configs, i + 1, sinks, kept)
  {
    assert i !in kept;
  }

  /** The configured bindings are in force exactly when one of them names a live sink;
      otherwise the fallback is, if there is a live sink, whether or not any binding
      is configured. */
  lemma FallbackUnlessSurvivor(configs: seq<BindingConfig>, default: Option<Severity>, sinks: set<string>,
                               severity: string -> Option<Severity>, duration: string -> Option<nat>,
                               out: seq<Binding>, kept: seq<nat>)
    requires IsResult(configs, default, sinks, severity, duration, out, kept)
    ensures kept != [] <==> exists i: nat, a :: i < |configs| && a in configs[i].actions && a in sinks
    ensures kept == [] && sinks != {} ==> |out| == 1 && IsFallback(out[0], sinks, default)
    ensures kept != [] ==>
              && |out| == |kept|
              && forall k :: 0 <= k < |out| ==> kept[k] < |configs| && out[k].name == configs[kept[k]].name
  {
    if kept != [] {
      assert kept[0] in kept && Survives(configs[kept[0]], sinks);
    }
    if i: nat, a :| i < |configs| && a in configs[i].actions && a in sinks {
      assert Survives(configs[i], sinks);
      assert i in kept;
    }
  }

  /** Each surviving binding in plain terms: an explicit level that parses beats the
      default, a throttle and a window count only if they parse, a window is 60 s
      otherwise, and a given key is the only key field. */
  lemma SurvivorAsConfigured(configs: seq<BindingConfig>, defaultLevel: Option<string>, sinks: set<string>,
                             severity: string -> Option<Severity>, duration: string -> Option<nat>,
                             out: seq<Binding>, kept: seq<nat>, k: nat)
    requires IsResult(configs, AndThen(defaultLevel, severity), sinks, severity, duration, out, kept) && k < |kept|
    ensures |out| == |kept| && kept[k] < |configs|
    ensures var b, o := configs[kept[k]], out[k];
            && o.name == b.name && o.kinds == b.kinds && o.sinks == LiveRefs(b.actions, sinks)
            && (forall level, sev :: b.minLevel == Some(level) && severity(level) == Some(sev) ==>
                                       o.minSeverity == Some(sev))
            && ((b.minLevel == None || severity(b.minLevel.value) == None) ==>
                  o.minSeverity == if defaultLevel == None then None else severity(defaultLevel.value))
            && (o.throttle == if b.throttle == None then None else duration(b.throttle.value))
            && (o.dedupe == None <==> b.dedupe == None)
            && (b.dedupe.Some? ==>
                  var d, e := b.dedupe.value, o.dedupe.value;
                  && (forall key :: d.key == Some(key) ==> e.keyFields == [key])
                  && (d.key == None ==> e.keyFields == ["kind", "profile_id", "forward_id"])
                  && (forall w, ns :: d.window == Some(w) && duration(w) == Some(ns) ==> e.interval == ns)
                  && ((d.window == None || duration(d.window.value) == None) ==> e.interval == 60_000_000_000))
  {
    assert Realizes(out[k], configs[kept[k]], sinks, AndThen(defaultLevel, severity), severity, duration);
  }

  /** The fallback in plain terms. */
  lemma FallbackAsDefault(configs: seq<BindingConfig>, defaultLevel: Option<string>, sinks: set<string>,
                          severity: string -> Option<Severity>, duration: string -> Option<nat>,
                          out: seq<Binding>, kept: seq<nat>)
    requires IsResult(configs, AndThen(defaultLevel, severity), sinks, severity, duration, out, kept)
    requires kept == [] && sinks != {}
    ensures |out| == 1 && out[0].name == "default-all" && out[0].kinds == []
    ensures out[0].dedupe == None && out[0].throttle == None
    ensures out[0].minSeverity == if defaultLevel == None then None else severity(defaultLevel.value)
    ensures |out[0].sinks| == |sinks| && forall x :: x in out[0].sinks <==> x in sinks
  {
    assert IsFallback(out[0], sinks, AndThen(defaultLevel, severity));
  }

  /** A config whose only binding names a dead sink gets the fallback. */
  lemma DeadBindingGetsFallback(b: BindingConfig, severity: string -> Option<Severity>,
                                duration: string -> Option<nat>, out: seq<Binding>, kept: seq<nat>)
    requires b == BindingConfig("b", [], ["dead"], None, None, None)
    requires IsResult([b], None, {"live"}, severity, duration, out, kept)
    ensures out == [Binding("default-all", [], None, ["live"], None, None)]
  {
    var sinks := {"live"};
    assert !Survives([b][0], sinks);
    assert kept == [];
    assert IsFallback(out[0], sinks, None);
    assert |out[0].sinks| == 1 && out[0].sinks[0] in out[0].sinks;
    assert out[0].sinks == ["live"];
  }

  /** The keys of the sink map, each once, in whatever order. */
  method ListAll(sinks: set<string>) returns (all: seq<string>)
    ensures (forall s :: s in all <==> s in sinks) && |all| == |sinks|
  {
    all := [];
    var rest := sinks;
    while rest != {}
      invariant rest <= sinks
      invariant forall s :: s in all <==> s in sinks - rest
      invariant |all| + |rest| == |sinks|
    {
      var s :| s in rest;
      all := all + [s];
      rest := rest - {s};
    }
  }
}
