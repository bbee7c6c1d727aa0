/**
 The dependency-kind worklist of `crates/spt-bin/build.rs`.

 `Classify` is the label-correcting search over cargo's resolve graph: a LIFO
 frontier that keeps stale entries, on a graph with cycles, parallel edges and
 ids that have no node. Its contract is stated over *walks* from workspace
 members and never mentions a label or a frontier.
 */
module DependencyKinds {

  import opened Basics

  datatype PackageId = PackageId(repr: string)

  datatype DependencyKind = Normal | Build | Development | Unknown

  /** One outgoing edge of a resolve node; an edge may carry several kinds. */
  datatype Dep = Dep(pkg: PackageId, depKinds: seq<DependencyKind>)

  datatype Node = Node(id: PackageId, deps: seq<Dep>)

  type Graph = map<PackageId, seq<Dep>>

  const U8_MAX: nat := 255

  /** 0 = Normal, 1 = Build, 2 = Dev. */
  function Rank(k: DependencyKind): (r: nat)
    ensures r <= 2
  {
    match k
    case Normal => 0
    case Build => 1
    case Development | Unknown => 2
  }

  /** The strongest kind on an edge; an edge without kinds counts as Normal. */
  function EdgeKind(kinds: seq<DependencyKind>): (r: nat)
    ensures r <= 2
  {
    if kinds == [] then 0
    else if |kinds| == 1 then Rank(kinds[0])
    else Min(Rank(kinds[0]), EdgeKind(kinds[1..]))
  }

  lemma {:induction false} EdgeKindIsMinimum(kinds: seq<DependencyKind>)
    ensures kinds == [] ==> EdgeKind(kinds) == 0
    ensures forall k :: k in kinds ==> EdgeKind(kinds) <= Rank(k)
    ensures kinds != [] ==> exists k :: k in kinds && EdgeKind(kinds) == Rank(k)
    ensures EdgeKind(kinds) == 0 <==> kinds == [] || Normal in kinds
    ensures EdgeKind(kinds) <= 1 <==> kinds == [] || Normal in kinds || Build in kinds
  {
    if |kinds| > 1 {
      EdgeKindIsMinimum(kinds[1..]);
      assert kinds == [kinds[0]] + kinds[1..];
    }
    assert kinds != [] ==> kinds[0] in kinds;
  }

  /** `node_by_id`: collecting into a map keeps the last node of an id. */
  function NodeById(nodes: seq<Node>): Graph
  {
    if nodes == [] then map[]
    else
      var last := nodes[|nodes| - 1];
      NodeById(nodes[..|nodes| - 1])[last.id := last.deps]
  }

  predicate HasEdge(g: Graph, p: PackageId, d: Dep) { p in g && d in g[p] }

  // ----- Walks: what the search is meant to compute -----

  /** A walk from a workspace member, extended one dependency edge at a time. */
  datatype Walk = Start(member: PackageId) | Extend(prefix: Walk, dep: Dep)

  function End(w: Walk): PackageId
  {
    match w
    case Start(m) => m
    case Extend(_, d) => d.pkg
  }

  ghost predicate IsWalk(g: Graph, members: set<PackageId>, w: Walk)
  {
    match w
    case Start(m) => m in members
    case Extend(p, d) => IsWalk(g, members, p) && HasEdge(g, End(p), d)
  }

  /** The weakest (numerically largest) edge kind on a walk. */
  function Weakest(w: Walk): nat
  {
    match w
    case Start(_) => 0
    case Extend(p, d) => Max(Weakest(p), EdgeKind(d.depKinds))
  }

  ghost predicate Reaches(g: Graph, members: set<PackageId>, p: PackageId, kind: nat)
  {
    exists w :: IsWalk(g, members, w) && End(w) == p && Weakest(w) == kind
  }

  /** `labels` gives every reachable package, and no other, the best over all
      walks of the weakest edge on the walk. */
  ghost predicate IsMinimax(g: Graph, members: set<PackageId>, labels: map<PackageId, nat>)
  {
    && (forall p :: p in labels ==> Reaches(g, members, p, labels[p]))
    && (forall w :: IsWalk(g, members, w) ==> End(w) in labels && labels[End(w)] <= Weakest(w))
  }

  // ----- Invariants of the search -----

  type Labels = map<PackageId, nat>

  type Entry = (PackageId, nat)

  function Entries(frontier: seq<Entry>): set<Entry>
  {
    set e | e in frontier
  }

  /** How often each package waits. */
  ghost function Ids(frontier: seq<Entry>): multiset<PackageId>
  {
    multiset(seq(|frontier|, i requires 0 <= i < |frontier| => frontier[i].0))
  }

  /** Every push has been popped or still waits. */
  ghost predicate Ledger(popped: multiset<PackageId>, pushed: multiset<PackageId>, frontier: seq<Entry>)
  {
    pushed == popped + Ids(frontier)
  }

  lemma IdsOfPush(frontier: seq<Entry>, e: Entry)
    ensures Ids(frontier + [e]) == Ids(frontier) + multiset{e.0}
  {
    var f := frontier + [e];
    assert seq(|f|, i requires 0 <= i < |f| => f[i].0)
        == seq(|frontier|, i requires 0 <= i < |frontier| => frontier[i].0) + [e.0];
  }

  lemma LedgerPush(popped: multiset<PackageId>, pushed: multiset<PackageId>, frontier: seq<Entry>, e: Entry)
    requires Ledger(popped, pushed, frontier)
    ensures Ledger(popped, pushed + multiset{e.0}, frontier + [e])
  {
    IdsOfPush(frontier, e);
  }

  lemma LedgerPop(popped: multiset<PackageId>, pushed: multiset<PackageId>, frontier: seq<Entry>)
    requires frontier != [] && Ledger(popped, pushed, frontier)
    ensures Ledger(popped + multiset{frontier[|frontier| - 1].0}, pushed, frontier[..|frontier| - 1])
  {
    IdsOfPush(frontier[..|frontier| - 1], frontier[|frontier| - 1]);
    assert frontier == frontier[..|frontier| - 1] + [frontier[|frontier| - 1]];
  }

  lemma LedgerClosed(popped: multiset<PackageId>, pushed: multiset<PackageId>)
    requires Ledger(popped, pushed, [])
    ensures popped == pushed
  {
  }

  ghost predicate Relaxed(labels: Labels, from: nat, d: Dep)
  {
    d.pkg in labels && labels[d.pkg] <= Max(from, EdgeKind(d.depKinds))
  }

  /** The (package, kind) pairs that some walk attains. */
  ghost function Attained(g: Graph, members: set<PackageId>): iset<Entry>
  {
    iset e: Entry | Reaches(g, members, e.0, e.1)
  }

  /** `att` holds the members at Normal and is closed under following an edge. */
  ghost predicate Closed(g: Graph, members: set<PackageId>, att: iset<Entry>)
  {
    && (forall m :: m in members ==> (m, 0) in att)
    && (forall e, d :: e in att && HasEdge(g, e.0, d) ==> (d.pkg, Max(e.1, EdgeKind(d.depKinds))) in att)
  }

  /** An entry is attained by some walk, and is no better than the current label. */
  ghost predicate Justified(att: iset<Entry>, labels: Labels, e: Entry)
  {
    e.0 in labels && labels[e.0] <= e.1 <= 2 && e in att
  }

  /** Every label comes from a walk, and so does every waiting entry, however stale. */
  ghost predicate Sound(att: iset<Entry>, members: set<PackageId>, labels: Labels, waiting: set<Entry>)
  {
    && (forall p :: p in labels ==> Justified(att, labels, (p, labels[p])))
    && (forall m :: m in members ==> m in labels && labels[m] == 0)
    && (forall e :: e in waiting ==> Justified(att, labels, e))
  }

  /** A labelled package still waits with its current label, or has its edges relaxed. */
  ghost predicate Settled(g: Graph, labels: Labels, waiting: set<Entry>)
  {
    forall p, d :: HasEdge(g, p, d) && p in labels && (p, labels[p]) !in waiting ==>
      Relaxed(labels, labels[p], d)
  }

  /** The packages whose label is still above `k`. */
  function Above(universe: set<PackageId>, labels: Labels, k: nat): set<PackageId>
  {
    set p | p in universe && (p !in labels || labels[p] > k)
  }

  function Remaining(universe: set<PackageId>, labels: Labels): nat
  {
    |Above(universe, labels, 0)| + |Above(universe, labels, 1)| + |Above(universe, labels, 2)|
  }

  function Level(labels: Labels, p: PackageId): nat
  {
    if p in labels then labels[p] else 3
  }

  /** Workspace members and everything any node depends on. */
  ghost function Universe(g: Graph, members: set<PackageId>): set<PackageId>
  {
    members + (set p, d | p in g && d in g[p] :: d.pkg)
  }

  /** What the pushes so far have cost, per package and in all. */
  ghost predicate Budget(universe: set<PackageId>, members: set<PackageId>, labels: Labels,
                         pushed: multiset<PackageId>)
  {
    && (forall m :: m in members ==> m in labels && labels[m] == 0 && pushed[m] == 1)
    && (forall p :: p !in members ==> pushed[p] + Level(labels, p) <= 3)
    && |pushed| + Remaining(universe, labels) <= |members| + 3 * |universe - members|
  }

  /** Members are pushed once, any other package at most once per kind, so the
      whole search pushes (and pops) linearly often. */
  ghost predicate BoundedPushes(g: Graph, members: set<PackageId>, pushed: multiset<PackageId>)
  {
    && (forall m :: m in members ==> pushed[m] == 1)
    && (forall p :: p !in members ==> pushed[p] <= 3)
    && |pushed| <= |members| + 3 * |Universe(g, members) - members|
  }

  function AsSet(ids: seq<PackageId>): set<PackageId> { set id | id in ids }

  lemma PopEntries(frontier: seq<Entry>)
    requires frontier != []
    ensures Entries(frontier) == Entries(frontier[..|frontier| - 1]) + {frontier[|frontier| - 1]}
  {
    assert frontier == frontier[..|frontier| - 1] + [frontier[|frontier| - 1]];
  }

  // ----- Each step of the search keeps them -----

  lemma SubsetCard<T>(a: set<T>, b: set<T>)
    requires a <= b
    ensures |a| <= |b|
    ensures a != b ==> |a| < |b|
  {
    assert b == a + (b - a);
  }

  /** Lowering one label uses up at least one remaining level. */
  lemma LoweringProgress(universe: set<PackageId>, labels: Labels, p: PackageId, k: nat)
    requires p in universe && k <= 2
    requires k < Level(labels, p)
    ensures Remaining(universe, labels[p := k]) < Remaining(universe, labels)
  {
    var after := labels[p := k];
    forall j: nat | j <= 2 ensures |Above(universe, after, j)| <= |Above(universe, labels, j)| {
      SubsetCard(Above(universe, after, j), Above(universe, labels, j));
    }
    assert p in Above(universe, labels, k) && p !in Above(universe, after, k);
    SubsetCard(Above(universe, after, k), Above(universe, labels, k));
  }

  lemma BudgetBoundsPushes(g: Graph, members: set<PackageId>, labels: Labels, pushed: multiset<PackageId>)
    requires Budget(Universe(g, members), members, labels, pushed)
    ensures BoundedPushes(g, members, pushed)
  {
  }

  /** A popped id without a node has no edges to relax. */
  lemma NoNodeSettled(g: Graph, labels: Labels, waiting: set<Entry>, e: Entry)
    requires Settled(g, labels, waiting + {e}) && e.0 !in g
    ensures Settled(g, labels, waiting)
  {
  }

  /** With its edges relaxed a popped entry need not wait any more. */
  lemma RelaxedSettles(g: Graph, labels: Labels, waiting: set<Entry>, e: Entry)
    requires Settled(g, labels, waiting + {e}) && e.0 in g
    requires forall d :: d in g[e.0] ==> Relaxed(labels, e.1, d)
    ensures Settled(g, labels, waiting)
  {
    forall p, d | HasEdge(g, p, d) && p in labels && (p, labels[p]) !in waiting ensures Relaxed(labels, labels[p], d) {
      if (p, labels[p]) == e {
        assert d in g[e.0];
      }
    }
  }

  lemma BudgetAfterPush(universe: set<PackageId>, members: set<PackageId>, labels: Labels,
                        pushed: multiset<PackageId>, p: PackageId, k: nat)
    requires Budget(universe, members, labels, pushed)
    requires p in universe && k <= 2 && k < Level(labels, p)
    ensures Budget(universe, members, labels[p := k], pushed + multiset{p})
  {
    LoweringProgress(universe, labels, p, k);
    assert p !in members;
  }

  lemma AttainedIsClosed(g: Graph, members: set<PackageId>)
    ensures Closed(g, members, Attained(g, members))
  {
    forall m | m in members ensures Reaches(g, members, m, 0) {
      assert IsWalk(g, members, Start(m));
    }
    forall e: Entry, d | e in Attained(g, members) && HasEdge(g, e.0, d)
      ensures Reaches(g, members, d.pkg, Max(e.1, EdgeKind(d.depKinds)))
    {
      var w :| IsWalk(g, members, w) && End(w) == e.0 && Weakest(w) == e.1;
      assert IsWalk(g, members, Extend(w, d));
    }
  }

  /** Lowering a label along an edge of a justified entry keeps labels and entries sound. */
  lemma PushKeepsSound(g: Graph, att: iset<Entry>, members: set<PackageId>, labels: Labels, waiting: set<Entry>,
                       e: Entry, d: Dep, k: nat)
    requires Closed(g, members, att)
    requires Sound(att, members, labels, waiting)
    requires Justified(att, labels, e) && HasEdge(g, e.0, d)
    requires k == Max(e.1, EdgeKind(d.depKinds)) && k < Level(labels, d.pkg)
    ensures Sound(att, members, labels[d.pkg := k], waiting + {(d.pkg, k)})
    ensures Justified(att, labels[d.pkg := k], e)
  {
  }

  lemma PushKeepsSettled(g: Graph, labels: Labels, waiting: set<Entry>, p: PackageId, k: nat)
    requires Settled(g, labels, waiting)
    requires k < Level(labels, p)
    ensures Settled(g, labels[p := k], waiting + {(p, k)})
  {
    var labels', waiting' := labels[p := k], waiting + {(p, k)};
    forall q, d | HasEdge(g, q, d) && q in labels' && (q, labels'[q]) !in waiting'
      ensures Relaxed(labels', labels'[q], d)
    {
      assert Relaxed(labels, labels[q], d);
    }
  }

  lemma PushKeepsAll(g: Graph, att: iset<Entry>, members: set<PackageId>, universe: set<PackageId>, labels: Labels,
                     frontier: seq<Entry>, pushed: multiset<PackageId>, e: Entry, d: Dep, k: nat)
    requires Closed(g, members, att) && d.pkg in universe
    requires Sound(att, members, labels, Entries(frontier))
    requires Settled(g, labels, Entries(frontier) + {e})
    requires Budget(universe, members, labels, pushed)
    requires Justified(att, labels, e) && HasEdge(g, e.0, d)
    requires k == Max(e.1, EdgeKind(d.depKinds)) && k < Level(labels, d.pkg)
    ensures Sound(att, members, labels[d.pkg := k], Entries(frontier + [(d.pkg, k)]))
    ensures Settled(g, labels[d.pkg := k], Entries(frontier + [(d.pkg, k)]) + {e})
    ensures Budget(universe, members, labels[d.pkg := k], pushed + multiset{d.pkg})
    ensures Justified(att, labels[d.pkg := k], e)
    ensures Remaining(universe, labels[d.pkg := k]) < Remaining(universe, labels)
  {
    var next := (d.pkg, k);
    PushKeepsSound(g, att, members, labels, Entries(frontier), e, d, k);
    PushKeepsSettled(g, labels, Entries(frontier) + {e}, d.pkg, k);
    BudgetAfterPush(universe, members, labels, pushed, d.pkg, k);
    LoweringProgress(universe, labels, d.pkg, k);
    assert Entries(frontier + [next]) == Entries(frontier) + {next};
    assert Entries(frontier) + {next} + {e} == Entries(frontier) + {e} + {next};
  }

  lemma LoweringKeepsRelaxed(labels: Labels, p: PackageId, k: nat, from: nat, deps: seq<Dep>)
    requires k < Level(labels, p)
    requires forall d :: d in deps ==> Relaxed(labels, from, d)
    ensures forall d :: d in deps ==> Relaxed(labels[p := k], from, d)
  {
  }

  /** With nothing left to relax, no walk beats a label. */
  lemma {:induction false} FixpointIsOptimal(g: Graph, members: set<PackageId>, labels: Labels, w: Walk)
    requires forall m :: m in members ==> m in labels && labels[m] == 0
    requires Settled(g, labels, {})
    requires IsWalk(g, members, w)
    ensures End(w) in labels && labels[End(w)] <= Weakest(w)
  {
    match w
    case Start(_) =>
    case Extend(p, d) =>
      FixpointIsOptimal(g, members, labels, p);
      assert Relaxed(labels, labels[End(p)], d);
  }

  lemma FixpointIsMinimax(g: Graph, members: set<PackageId>, labels: Labels)
    requires Sound(Attained(g, members), members, labels, {})
    requires Settled(g, labels, {})
    ensures IsMinimax(g, members, labels)
    ensures forall p :: p in labels ==> labels[p] <= 2
  {
    forall p | p in labels ensures Reaches(g, members, p, labels[p]) {
      assert (p, labels[p]) in Attained(g, members);
    }
    forall w | IsWalk(g, members, w) ensures End(w) in labels && labels[End(w)] <= Weakest(w) {
      FixpointIsOptimal(g, members, labels, w);
    }
  }

  // ----- The search -----

  /** Workspace members start at Normal. */
  method SeedLabels(members: set<PackageId>) returns (kindOf: Labels)
    ensures kindOf.Keys == members && forall m :: m in members ==> kindOf[m] == 0
  {
    kindOf := map[];
    var rest := members;
    while rest != {}
      invariant rest <= members
      invariant kindOf.Keys == members - rest && forall p :: p in kindOf ==> kindOf[p] == 0
    {
      var id :| id in rest;
      kindOf := kindOf[id := 0];
      rest := rest - {id};
    }
  }

  /** Each member is pushed once, in whatever order. */
  method SeedFrontier(members: set<PackageId>) returns (frontier: seq<Entry>, ghost pushed: multiset<PackageId>)
    ensures forall m :: m in members ==> (m, 0) in Entries(frontier)
    ensures forall e :: e in Entries(frontier) ==> e.0 in members && e.1 == 0
    ensures pushed == multiset(members) && Ledger(multiset{}, pushed, frontier)
  {
    frontier, pushed := [], multiset{};
    var rest := members;
    while rest != {}
      invariant rest <= members
      invariant forall m :: m in members - rest ==> (m, 0) in Entries(frontier)
      invariant forall e :: e in Entries(frontier) ==> e.0 in members && e.1 == 0
      invariant pushed == multiset(members - rest) && Ledger(multiset{}, pushed, frontier)
    {
      var id :| id in rest;
      assert members - (rest - {id}) == (members - rest) + {id};
      assert Entries(frontier + [(id, 0)]) == Entries(frontier) + {(id, 0)};
      LedgerPush(multiset{}, pushed, frontier, (id, 0));
      frontier := frontier + [(id, 0)];
      pushed := pushed + multiset{id};
      rest := rest - {id};
    }
    assert members - {} == members;
  }

  lemma SeedBudget(universe: set<PackageId>, members: set<PackageId>, labels: Labels)
    requires members <= universe
    requires labels.Keys == members && forall m :: m in members ==> labels[m] == 0
    ensures Budget(universe, members, labels, multiset(members))
  {
    forall k: nat ensures Above(universe, labels, k) == universe - members {}
  }

  /** One edge of a popped entry: lower the label of its target and push it, or leave both. */
  method RelaxEdge(g: Graph, ghost att: iset<Entry>, ghost members: set<PackageId>, ghost universe: set<PackageId>,
                   e: Entry, dep: Dep, labels: Labels, waiting: seq<Entry>, ghost popped: multiset<PackageId>,
                   ghost pushes: multiset<PackageId>, ghost relaxed: seq<Dep>)
    returns (kindOf: Labels, frontier: seq<Entry>, ghost pushed: multiset<PackageId>)
    requires Closed(g, members, att) && HasEdge(g, e.0, dep) && dep.pkg in universe
    requires Justified(att, labels, e)
    requires Sound(att, members, labels, Entries(waiting))
    requires Settled(g, labels, Entries(waiting) + {e})
    requires Budget(universe, members, labels, pushes) && Ledger(popped, pushes, waiting)
    requires forall d :: d in relaxed ==> Relaxed(labels, e.1, d)
    ensures var k := Max(e.1, EdgeKind(dep.depKinds));
            if k < Level(labels, dep.pkg) then kindOf == labels[dep.pkg := k] && frontier == waiting + [(dep.pkg, k)]
            else kindOf == labels && frontier == waiting
    ensures Justified(att, kindOf, e)
    ensures Sound(att, members, kindOf, Entries(frontier))
    ensures Settled(g, kindOf, Entries(frontier) + {e})
    ensures Budget(universe, members, kindOf, pushed) && Ledger(popped, pushed, frontier)
    ensures forall d :: d in relaxed + [dep] ==> Relaxed(kindOf, e.1, d)
    ensures 2 * Remaining(universe, kindOf) + |frontier| <= 2 * Remaining(universe, labels) + |waiting|
  {
    kindOf, frontier, pushed := labels, waiting, pushes;
    var pathKind := Max(e.1, EdgeKind(dep.depKinds));
    // or_insert(u8::MAX): a fresh entry is overwritten at once, for pathKind <= 2
    var entry := if dep.pkg in kindOf then kindOf[dep.pkg] else U8_MAX;
    if pathKind < entry {
      PushKeepsAll(g, att, members, universe, kindOf, frontier, pushed, e, dep, pathKind);
      LedgerPush(popped, pushed, frontier, (dep.pkg, pathKind));
      LoweringKeepsRelaxed(kindOf, dep.pkg, pathKind, e.1, relaxed);
      kindOf := kindOf[dep.pkg := pathKind];
      frontier := frontier + [(dep.pkg, pathKind)];
      pushed := pushed + multiset{dep.pkg};
    }
  }

  /** The body of the search loop for one popped entry: relax every edge of its node. */
  method RelaxAll(g: Graph, ghost att: iset<Entry>, ghost members: set<PackageId>, ghost universe: set<PackageId>,
                  e: Entry, labels: Labels, waiting: seq<Entry>, ghost popped: multiset<PackageId>,
                  ghost pushes: multiset<PackageId>)
    returns (kindOf: Labels, frontier: seq<Entry>, ghost pushed: multiset<PackageId>)
    requires e.0 in g && Closed(g, members, att)
    requires forall p, d :: HasEdge(g, p, d) ==> d.pkg in universe
    requires Justified(att, labels, e)
    requires Sound(att, members, labels, Entries(waiting))
    requires Settled(g, labels, Entries(waiting) + {e})
    requires Budget(universe, members, labels, pushes) && Ledger(popped, pushes, waiting)
    ensures Sound(att, members, kindOf, Entries(frontier))
    ensures Settled(g, kindOf, Entries(frontier))
    ensures Budget(universe, members, kindOf, pushed) && Ledger(popped, pushed, frontier)
    ensures 2 * Remaining(universe, kindOf) + |frontier| <= 2 * Remaining(universe, labels) + |waiting|
  {
    kindOf, frontier, pushed := labels, waiting, pushes;
    for i := 0 to |g[e.0]|
      invariant Justified(att, kindOf, e)
      invariant Sound(att, members, kindOf, Entries(frontier))
      invariant Settled(g, kindOf, Entries(frontier) + {e})
      invariant Budget(universe, members, kindOf, pushed) && Ledger(popped, pushed, frontier)
      invariant forall d :: d in g[e.0][..i] ==> Relaxed(kindOf, e.1, d)
      invariant 2 * Remaining(universe, kindOf) + |frontier| <= 2 * Remaining(universe, labels) + |waiting|
    {
      var dep := g[e.0][i];
      assert HasEdge(g, e.0, dep);
      assert g[e.0][..i + 1] == g[e.0][..i] + [dep];
      kindOf, frontier, pushed :=
        RelaxEdge(g, att, members, universe, e, dep, kindOf, frontier, popped, pushed, g[e.0][..i]);
    }
    assert g[e.0][..|g[e.0]|] == g[e.0];
    RelaxedSettles(g, kindOf, Entries(frontier), e);
  }

  method Classify(nodes: seq<Node>, workspaceMembers: seq<PackageId>)
    returns (kindOf: Labels, ghost pushed: multiset<PackageId>, ghost popped: multiset<PackageId>)
    ensures IsMinimax(NodeById(nodes), AsSet(workspaceMembers), kindOf)
    ensures ByListing(NodeById(nodes), AsSet(workspaceMembers), kindOf)
    ensures forall m :: m in workspaceMembers ==> m in kindOf && kindOf[m] == 0
    ensures forall p :: p in kindOf ==> kindOf[p] <= 2
    ensures BoundedPushes(NodeById(nodes), AsSet(workspaceMembers), pushed)
    ensures popped == pushed
  {
    var members := AsSet(workspaceMembers);
    var nodeById := NodeById(nodes);
    ghost var universe := Universe(nodeById, members);
    var frontier: seq<Entry>;
    ghost var att := Attained(nodeById, members);
    AttainedIsClosed(nodeById, members);
    kindOf := SeedLabels(members);
    frontier, pushed := SeedFrontier(members);
    SeedBudget(universe, members, kindOf);
    popped := multiset{};
    while frontier != []
      invariant Sound(att, members, kindOf, Entries(frontier))
      invariant Settled(nodeById, kindOf, Entries(frontier))
      invariant Budget(universe, members, kindOf, pushed)
      invariant Ledger(popped, pushed, frontier)
      decreases 2 * Remaining(universe, kindOf) + |frontier|
    {
      var top := frontier[|frontier| - 1];
      PopEntries(frontier);
      LedgerPop(popped, pushed, frontier);
      frontier, popped := frontier[..|frontier| - 1], popped + multiset{top.0};
      if top.0 !in nodeById {
        NoNodeSettled(nodeById, kindOf, Entries(frontier), top);
        continue;
      }
      kindOf, frontier, pushed := RelaxAll(nodeById, att, members, universe, top, kindOf, frontier, popped, pushed);
    }
    FixpointIsMinimax(nodeById, members, kindOf);
    MinimaxByListing(nodeById, members, kindOf);
    LedgerClosed(popped, pushed);
    BudgetBoundsPushes(nodeById, members, kindOf, pushed);
  }

  // ----- What the result means -----

  /** A search result is the only minimax labelling of its graph. */
  lemma MinimaxIsUnique(g: Graph, members: set<PackageId>, a: Labels, b: Labels)
    requires IsMinimax(g, members, a) && IsMinimax(g, members, b)
    ensures a == b
  {
    forall p | p in a ensures p in b && b[p] <= a[p] {
      var w :| IsWalk(g, members, w) && End(w) == p && Weakest(w) == a[p];
    }
    forall p | p in b ensures p in a && a[p] <= b[p] {
      var w :| IsWalk(g, members, w) && End(w) == p && Weakest(w) == b[p];
    }
  }

  predicate EdgesWithin(w: Walk, k: nat)
  {
    w.Extend? ==> EdgesWithin(w.prefix, k) && EdgeKind(w.dep.depKinds) <= k
  }

  lemma {:induction false} WeakestWithin(w: Walk, k: nat)
    ensures Weakest(w) <= k <==> EdgesWithin(w, k)
  {
    if w.Extend? {
      WeakestWithin(w.prefix, k);
    }
  }

  /** A label is at most `k` exactly when some walk uses only edges of kind at most `k`:
      with k = 0, a package is reported Normal iff Normal edges alone reach it. */
  lemma LabelIsThreshold(g: Graph, members: set<PackageId>, labels: Labels, p: PackageId, k: nat)
    requires IsMinimax(g, members, labels)
    ensures p in labels && labels[p] <= k
            <==> exists w :: IsWalk(g, members, w) && End(w) == p && EdgesWithin(w, k)
  {
    if p in labels && labels[p] <= k {
      var w :| IsWalk(g, members, w) && End(w) == p && Weakest(w) == labels[p];
      WeakestWithin(w, k);
    }
    forall w | IsWalk(g, members, w) && End(w) == p && EdgesWithin(w, k)
      ensures p in labels && labels[p] <= k
    {
      WeakestWithin(w, k);
    }
  }

  // ----- The labels by the kinds that edges list -----

  /** An edge that lists no kind counts as Normal. */
  predicate CountsAsNormal(kinds: seq<DependencyKind>) { kinds == [] || Normal in kinds }

  predicate CountsAsBuild(kinds: seq<DependencyKind>) { CountsAsNormal(kinds) || Build in kinds }

  lemma EdgeKindByListing(kinds: seq<DependencyKind>)
    ensures EdgeKind(kinds) == 0 <==> CountsAsNormal(kinds)
    ensures EdgeKind(kinds) <= 1 <==> CountsAsBuild(kinds)
    ensures EdgeKind(kinds) <= 2
  {
    EdgeKindIsMinimum(kinds);
  }

  predicate NormalEdges(w: Walk)
  {
    w.Extend? ==> NormalEdges(w.prefix) && CountsAsNormal(w.dep.depKinds)
  }

  predicate BuildEdges(w: Walk)
  {
    w.Extend? ==> BuildEdges(w.prefix) && CountsAsBuild(w.dep.depKinds)
  }

  lemma {:induction false} EdgesByListing(w: Walk)
    ensures EdgesWithin(w, 0) <==> NormalEdges(w)
    ensures EdgesWithin(w, 1) <==> BuildEdges(w)
    ensures EdgesWithin(w, 2)
  {
    if w.Extend? {
      EdgesByListing(w.prefix);
      EdgeKindByListing(w.dep.depKinds);
    }
  }

  /** The labels of all packages, by what the edges list. */
  ghost predicate ByListing(g: Graph, members: set<PackageId>, labels: Labels)
  {
    && (forall p :: p in labels && labels[p] == 0 <==>
                    exists w :: IsWalk(g, members, w) && End(w) == p && NormalEdges(w))
    && (forall p :: p in labels && labels[p] <= 1 <==>
                    exists w :: IsWalk(g, members, w) && End(w) == p && BuildEdges(w))
    && (forall p :: p in labels <==> exists w :: IsWalk(g, members, w) && End(w) == p)
  }

  lemma MinimaxByListing(g: Graph, members: set<PackageId>, labels: Labels)
    requires IsMinimax(g, members, labels)
    ensures ByListing(g, members, labels)
  {
    forall p
      ensures p in labels && labels[p] == 0 <==> exists w :: IsWalk(g, members, w) && End(w) == p && NormalEdges(w)
      ensures p in labels && labels[p] <= 1 <==> exists w :: IsWalk(g, members, w) && End(w) == p && BuildEdges(w)
      ensures p in labels <==> exists w :: IsWalk(g, members, w) && End(w) == p
    {
      LabelsByListing(g, members, labels, p);
    }
  }

  /** A package is labelled Normal iff some walk has only edges that are empty or list
      Normal; at most Build iff some walk has only edges that are empty or list Normal
      or Build; and at all iff some walk reaches it. */
  lemma LabelsByListing(g: Graph, members: set<PackageId>, labels: Labels, p: PackageId)
    requires IsMinimax(g, members, labels)
    ensures p in labels && labels[p] == 0 <==> exists w :: IsWalk(g, members, w) && End(w) == p && NormalEdges(w)
    ensures p in labels && labels[p] <= 1 <==> exists w :: IsWalk(g, members, w) && End(w) == p && BuildEdges(w)
    ensures p in labels <==> exists w :: IsWalk(g, members, w) && End(w) == p
    ensures p in labels ==> labels[p] <= 2
  {
    forall w: Walk
      ensures EdgesWithin(w, 0) <==> NormalEdges(w)
      ensures EdgesWithin(w, 1) <==> BuildEdges(w)
      ensures EdgesWithin(w, 2)
    {
      EdgesByListing(w);
    }
    LabelIsThreshold(g, members, labels, p, 0);
    LabelIsThreshold(g, members, labels, p, 1);
    LabelIsThreshold(g, members, labels, p, 2);
    if p in labels {
      var w :| IsWalk(g, members, w) && End(w) == p && Weakest(w) == labels[p];
      WeakestWithin(w, 2);
    }
  }

  // ----- The result does not depend on any order -----

  /** `d` is matched in `h` by an edge to the same package of the same kind. */
  ghost predicate Matched(h: Graph, p: PackageId, d: Dep)
  {
    exists e :: HasEdge(h, p, e) && e.pkg == d.pkg && EdgeKind(e.depKinds) == EdgeKind(d.depKinds)
  }

  ghost predicate EdgesIn(g: Graph, h: Graph)
  {
    forall p, d :: HasEdge(g, p, d) ==> Matched(h, p, d)
  }

  lemma {:induction false} CarryWalk(g: Graph, h: Graph, members: set<PackageId>, w: Walk) returns (v: Walk)
    requires EdgesIn(g, h) && IsWalk(g, members, w)
    ensures IsWalk(h, members, v) && End(v) == End(w) && Weakest(v) == Weakest(w)
  {
    match w
    case Start(_) => v := w;
    case Extend(p, d) =>
      var q := CarryWalk(g, h, members, p);
      assert Matched(h, End(p), d);
      var e :| HasEdge(h, End(p), e) && e.pkg == d.pkg && EdgeKind(e.depKinds) == EdgeKind(d.depKinds);
      v := Extend(q, e);
  }

  lemma MinimaxCarries(g: Graph, h: Graph, members: set<PackageId>, labels: Labels)
    requires EdgesIn(g, h) && EdgesIn(h, g)
    requires IsMinimax(g, members, labels)
    ensures IsMinimax(h, members, labels)
  {
    forall p | p in labels ensures Reaches(h, members, p, labels[p]) {
      var w :| IsWalk(g, members, w) && End(w) == p && Weakest(w) == labels[p];
      var v := CarryWalk(g, h, members, w);
    }
    forall w | IsWalk(h, members, w) ensures End(w) in labels && labels[End(w)] <= Weakest(w) {
      var v := CarryWalk(h, g, members, w);
    }
  }

  ghost predicate DistinctIds(nodes: seq<Node>)
  {
    forall i, j :: 0 <= i < j < |nodes| ==> nodes[i].id != nodes[j].id
  }

  /** Every node of `a` occurs in `b`, up to the order of its dependencies. */
  ghost predicate NodesIn(a: seq<Node>, b: seq<Node>)
  {
    forall n :: n in a ==> exists m :: m in b && m.id == n.id && multiset(m.deps) == multiset(n.deps)
  }

  lemma {:induction false} NodeByIdHolds(nodes: seq<Node>, id: PackageId)
    requires id in NodeById(nodes)
    ensures Node(id, NodeById(nodes)[id]) in nodes
  {
    if nodes[|nodes| - 1].id != id {
      NodeByIdHolds(nodes[..|nodes| - 1], id);
    }
  }

  /** Of several nodes with one id, the last is kept. */
  lemma {:induction false} NodeByIdKeepsLast(nodes: seq<Node>, i: nat)
    requires i < |nodes| && forall j :: i < j < |nodes| ==> nodes[j].id != nodes[i].id
    ensures nodes[i].id in NodeById(nodes) && NodeById(nodes)[nodes[i].id] == nodes[i].deps
  {
    if i < |nodes| - 1 {
      NodeByIdKeepsLast(nodes[..|nodes| - 1], i);
    }
  }

  lemma ReorderedEdges(a: seq<Node>, b: seq<Node>)
    requires DistinctIds(b) && NodesIn(a, b)
    ensures EdgesIn(NodeById(a), NodeById(b))
  {
    var g, h := NodeById(a), NodeById(b);
    forall p, d | HasEdge(g, p, d) ensures Matched(h, p, d) {
      NodeByIdHolds(a, p);
      var m :| m in b && m.id == p && multiset(m.deps) == multiset(g[p]);
      var i :| 0 <= i < |b| && b[i] == m;
      NodeByIdKeepsLast(b, i);
      assert d in multiset(g[p]);
      assert HasEdge(h, p, d);
    }
  }

  /** Reordering the nodes, the dependencies of a node or the workspace members
      does not change the labelling. */
  lemma OrderIndependent(a: seq<Node>, b: seq<Node>, ma: seq<PackageId>, mb: seq<PackageId>, x: Labels, y: Labels)
    requires DistinctIds(a) && DistinctIds(b) && NodesIn(a, b) && NodesIn(b, a)
    requires multiset(ma) == multiset(mb)
    ensures IsMinimax(NodeById(a), AsSet(ma), x) && IsMinimax(NodeById(b), AsSet(mb), y) ==> x == y
  {
    forall m ensures m in ma <==> m in mb {
      assert m in multiset(ma) <==> m in multiset(mb);
    }
    assert AsSet(ma) == AsSet(mb);
    ReorderedEdges(a, b);
    ReorderedEdges(b, a);
    if IsMinimax(NodeById(a), AsSet(ma), x) && IsMinimax(NodeById(b), AsSet(mb), y) {
      MinimaxCarries(NodeById(b), NodeById(a), AsSet(ma), y);
      MinimaxIsUnique(NodeById(a), AsSet(ma), x, y);
    }
  }
}
