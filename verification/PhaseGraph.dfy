/**
 The phase-graph part of contract validation (adapters/contracts.py): phases,
 entries and edges are checked, entries must be the roots, and a worklist
 removes phases whose predecessors are gone. Accepting means acyclic.
 */
module PhaseGraph {
  import opened Common

  type Id = string

  /** A phase as declared; its kind is a number from the wire. */
  datatype Phase =
    Phase(id: Id, displayName: string, kind: int, parallelism: int, maxAttempts: int, labels: map<string, string>)

  datatype Edge = Edge(source: Id, target: Id)

  datatype Graph = Graph(phases: seq<Id>, entries: seq<Id>, edges: seq<Edge>)

  /** The phase graph of a contract as declared. */
  datatype Declaration = Declaration(phases: seq<Phase>, entries: seq<Id>, edges: seq<Edge>)

  datatype Error = InvalidPhases | InvalidEntries | InvalidEdges | EntriesNotRoots | NotAcyclic

  // The greatest number of a phase kind; 0 is the unknown kind.
  const LAST_KIND := 10

  // ------------------------------------------------------------------ meaning

  ghost function Elements<T>(s: seq<T>): set<T> {
    set x | x in s
  }

  function Ids(declared: seq<Phase>): (ids: seq<Id>)
    ensures |ids| == |declared| && forall i :: 0 <= i < |ids| ==> ids[i] == declared[i].id
  {
    seq(|declared|, i requires 0 <= i < |declared| => declared[i].id)
  }

  function GraphOf(d: Declaration): Graph {
    Graph(Ids(d.phases), d.entries, d.edges)
  }

  /** The checks of one phase, its ID aside. */
  predicate FieldsOk(p: Phase) {
    && Strip(p.displayName) != ""
    && 1 <= p.kind <= LAST_KIND
    && p.parallelism > 0 && p.maxAttempts > 0
    && forall key :: key in p.labels ==> Canonical(key)
  }

  /** A phase has a name that is not blank, one of the ten known kinds, positive limits, and label keys that neither
      start nor end with whitespace. */
  lemma FieldsOkMeans(p: Phase)
    ensures
      FieldsOk(p) <==>
        && (exists i :: 0 <= i < |p.displayName| && !IsWhitespace(p.displayName[i]))
        && p.kind in {1, 2, 3, 4, 5, 6, 7, 8, 9, 10} && 1 <= p.parallelism && 1 <= p.maxAttempts
        && forall key :: key in p.labels ==> key != "" && !IsWhitespace(key[0]) && !IsWhitespace(key[|key| - 1])
  {
    StripMeans(p.displayName);
    forall key | key in p.labels
      ensures Canonical(key) <==> key != "" && !IsWhitespace(key[0]) && !IsWhitespace(key[|key| - 1])
    {
      CanonicalMeans(key);
    }
  }

  ghost predicate PhasesOk(g: Graph) {
    (forall i :: 0 <= i < |g.phases| ==> Canonical(g.phases[i])) && NoDuplicates(g.phases) && g.phases != []
  }

  ghost predicate DeclaredOk(d: Declaration) {
    PhasesOk(GraphOf(d)) && forall i :: 0 <= i < |d.phases| ==> FieldsOk(d.phases[i])
  }

  ghost predicate EntriesOk(g: Graph) {
    && (forall i :: 0 <= i < |g.entries| ==> Canonical(g.entries[i]))
    && NoDuplicates(g.entries)
    && g.entries != []
    && forall i :: 0 <= i < |g.entries| ==> g.entries[i] in g.phases
  }

  ghost predicate EdgesOk(g: Graph) {
    (forall i :: 0 <= i < |g.edges| ==> EdgeOk(Elements(g.phases), g.edges[i])) && NoDuplicates(g.edges)
  }

  ghost predicate EdgeOk(phases: set<Id>, e: Edge) {
    e.source in phases && e.target in phases && e.source != e.target
  }

  ghost predicate WellFormed(g: Graph) {
    PhasesOk(g) && EntriesOk(g) && EdgesOk(g)
  }

  /** The edges of `es` that lead into `t`. */
  function Into(es: set<Edge>, t: Id): set<Edge> {
    set e | e in es && e.target == t
  }

  ghost predicate EntriesAreRoots(g: Graph) {
    forall p :: p in g.phases ==> (p in g.entries <==> Into(Elements(g.edges), p) == {})
  }

  /** The phases that an edge of `es` leads to from `p`. */
  function Successors(es: set<Edge>, p: Id): set<Id> {
    set e | e in es && e.source == p :: e.target
  }

  ghost predicate Path(es: set<Edge>, p: seq<Id>) {
    |p| > 0 && forall i :: LinkedAt(es, p, i)
  }

  ghost predicate LinkedAt(es: set<Edge>, p: seq<Id>, i: int) {
    0 <= i < |p| - 1 ==> Edge(p[i], p[i + 1]) in es
  }

  ghost predicate Cycle(es: set<Edge>, p: seq<Id>) {
    Path(es, p) && |p| > 1 && p[0] == p[|p| - 1]
  }

  ghost predicate Acyclic(es: set<Edge>) {
    forall p :: !Cycle(es, p)
  }

  ghost predicate Leads(es: set<Edge>, from: set<Id>, t: Id, p: seq<Id>) {
    Path(es, p) && p[0] in from && p[|p| - 1] == t
  }

  ghost predicate Reachable(es: set<Edge>, from: set<Id>, t: Id) {
    exists p :: Leads(es, from, t, p)
  }

  ghost predicate AllReachable(es: set<Edge>, from: set<Id>, ts: set<Id>) {
    forall t :: t in ts ==> Reachable(es, from, t)
  }

  lemma ReachableStart(es: set<Edge>, from: set<Id>, t: Id)
    requires t in from
    ensures Reachable(es, from, t)
  {
    assert Leads(es, from, t, [t]);
  }

  lemma ReachableNext(es: set<Edge>, from: set<Id>, e: Edge)
    requires Reachable(es, from, e.source) && e in es
    ensures Reachable(es, from, e.target)
  {
    var p :| Leads(es, from, e.source, p);
    var q := p + [e.target];
    forall i ensures LinkedAt(es, q, i) { assert LinkedAt(es, p, i); }
    assert Leads(es, from, e.target, q);
  }

  lemma PathSlice(es: set<Edge>, p: seq<Id>, a: nat, b: nat)
    requires Path(es, p) && a < b <= |p|
    ensures Path(es, p[a..b])
  {
    forall i ensures LinkedAt(es, p[a..b], i) { assert LinkedAt(es, p, a + i); }
  }

  lemma PathPrepend(es: set<Edge>, e: Edge, p: seq<Id>)
    requires Path(es, p) && e in es && e.target == p[0]
    ensures Path(es, [e.source] + p)
  {
    forall i ensures LinkedAt(es, [e.source] + p, i) { assert LinkedAt(es, p, i - 1); }
  }

  ghost predicate Accepted(g: Graph) {
    WellFormed(g) && EntriesAreRoots(g) && Acyclic(Elements(g.edges))
  }

  // ------------------------------------------------- why the worklist is right

  /** A numbering under which every edge goes up. */
  ghost predicate Ranks(es: set<Edge>, rank: map<Id, int>) {
    forall e :: e in es ==> e.source in rank && e.target in rank && rank[e.source] < rank[e.target]
  }

  lemma {:induction false} RankGrows(es: set<Edge>, rank: map<Id, int>, p: seq<Id>)
    requires Ranks(es, rank) && Path(es, p) && |p| > 1
    ensures p[0] in rank && p[|p| - 1] in rank && rank[p[0]] < rank[p[|p| - 1]]
    decreases |p|
  {
    assert LinkedAt(es, p, |p| - 2);
    if |p| > 2 {
      PathSlice(es, p, 0, |p| - 1);
      RankGrows(es, rank, p[..|p| - 1]);
    }
  }

  lemma RankedIsAcyclic(es: set<Edge>, rank: map<Id, int>)
    requires Ranks(es, rank)
    ensures Acyclic(es)
  {
    forall p ensures !Cycle(es, p) {
      if Cycle(es, p) { RankGrows(es, rank, p); }
    }
  }

  /** Every phase left over has a predecessor that is left over too. */
  ghost predicate Stuck(es: set<Edge>, left: set<Id>) {
    left != {} && forall t :: t in left ==> HasPredecessor(es, left, t)
  }

  ghost predicate HasPredecessor(es: set<Edge>, left: set<Id>, t: Id) {
    exists e :: e in Into(es, t) && e.source in left
  }

  lemma {:induction false} BackwardWalk(es: set<Edge>, left: set<Id>, n: nat) returns (walk: seq<Id>)
    requires Stuck(es, left) && n > 0
    ensures |walk| == n && Path(es, walk) && forall i :: 0 <= i < n ==> walk[i] in left
  {
    if n == 1 {
      var t :| t in left;
      walk := [t];
    } else {
      var later := BackwardWalk(es, left, n - 1);
      assert HasPredecessor(es, left, later[0]);
      var e :| e in Into(es, later[0]) && e.source in left;
      walk := [e.source] + later;
      PathPrepend(es, e, later);
    }
  }

  lemma {:induction false} Pigeonhole<T>(s: seq<T>, holes: set<T>) returns (i: nat, j: nat)
    requires |s| > |holes| && forall k :: 0 <= k < |s| ==> s[k] in holes
    ensures i < j < |s| && s[i] == s[j]
    decreases |s|
  {
    var last := |s| - 1;
    if k :| 0 <= k < last && s[k] == s[last] {
      i, j := k, last;
    } else {
      i, j := Pigeonhole(s[..last], holes - {s[last]});
    }
  }

  lemma {:induction false} StuckHasCycle(es: set<Edge>, left: set<Id>)
    requires Stuck(es, left)
    ensures !Acyclic(es)
  {
    var walk := BackwardWalk(es, left, |left| + 1);
    LongWalkHasCycle(es, left, walk);
  }

  lemma LongWalkHasCycle(es: set<Edge>, left: set<Id>, walk: seq<Id>)
    requires Path(es, walk) && |walk| > |left| && forall i :: 0 <= i < |walk| ==> walk[i] in left
    ensures !Acyclic(es)
  {
    var i, j := Pigeonhole(walk, left);
    PathSlice(es, walk, i, j + 1);
    assert Cycle(es, walk[i..j + 1]);
  }

  lemma LastLink(es: set<Edge>, p: seq<Id>)
    requires Path(es, p) && |p| > 1
    ensures Edge(p[|p| - 2], p[|p| - 1]) in Into(es, p[|p| - 1])
  {
    assert LinkedAt(es, p, |p| - 2);
  }

  lemma RootIsReachableFromItself(es: set<Edge>, from: set<Id>, t: Id)
    requires Reachable(es, from, t) && Into(es, t) == {}
    ensures t in from
  {
    var p :| Leads(es, from, t, p);
    if |p| > 1 { LastLink(es, p); }
  }

  /** In terms of sets: an edge list is accepted exactly when it lists, each once, edges between different phases. */
  lemma EdgesOkAsSets(g: Graph)
    ensures
      EdgesOk(g) <==>
        && |g.edges| == |Elements(g.edges)|
        && Elements(g.edges) <= set p, q | p in Elements(g.phases) && q in Elements(g.phases) && p != q :: Edge(p, q)
  {
    DistinctExactlyIfAsManyElements(g.edges);
    var between := set p, q | p in Elements(g.phases) && q in Elements(g.phases) && p != q :: Edge(p, q);
    if EdgesOk(g) {
      forall e | e in Elements(g.edges) ensures e in between {
        var i :| 0 <= i < |g.edges| && g.edges[i] == e;
        assert EdgeOk(Elements(g.phases), e);
      }
    } else if Elements(g.edges) <= between && NoDuplicates(g.edges) {
      forall i | 0 <= i < |g.edges| ensures EdgeOk(Elements(g.phases), g.edges[i]) {
        assert g.edges[i] in between;
      }
    }
  }

  lemma RootsReachAll(g: Graph)
    requires Accepted(g)
    ensures AllReachable(Elements(g.edges), Elements(g.entries), Elements(g.phases))
  {
    var es, from := Elements(g.edges), Elements(g.entries);
    var left := set p | p in Elements(g.phases) && !Reachable(es, from, p);
    if left != {} {
      forall p | p in left ensures HasPredecessor(es, left, p) {
        if p in from { ReachableStart(es, from, p); }
        var e :| e in Into(es, p);
        if Reachable(es, from, e.source) { ReachableNext(es, from, e); }
        var i :| 0 <= i < |g.edges| && g.edges[i] == e;
        assert EdgeOk(Elements(g.phases), g.edges[i]);
      }
      StuckHasCycle(es, left);
    } else {
      forall p | p in Elements(g.phases) ensures Reachable(es, from, p) { assert p !in left; }
    }
  }

  /** The entries of an accepted graph are the least set of phases from which every phase can be reached. */
  lemma EntriesAreLeast(g: Graph, from: set<Id>)
    requires Accepted(g)
    ensures AllReachable(Elements(g.edges), Elements(g.entries), Elements(g.phases))
    ensures AllReachable(Elements(g.edges), from, Elements(g.phases)) ==> Elements(g.entries) <= from
  {
    RootsReachAll(g);
    if AllReachable(Elements(g.edges), from, Elements(g.phases)) {
      forall p | p in Elements(g.entries) ensures p in from {
        var i :| 0 <= i < |g.entries| && g.entries[i] == p;
        RootIsReachableFromItself(Elements(g.edges), from, p);
      }
    }
  }

  // ------------------------------------------------------------------ the loops

  lemma IntoLosesOne(es: set<Edge>, e: Edge)
    requires e in es
    ensures |Into(es - {e}, e.target)| == |Into(es, e.target)| - 1
    ensures forall t :: t != e.target ==> Into(es - {e}, t) == Into(es, t)
  {
    assert Into(es - {e}, e.target) == Into(es, e.target) - {e};
  }

  lemma IntoGainsOne(es: set<Edge>, e: Edge)
    requires e !in es
    ensures |Into(es + {e}, e.target)| == |Into(es, e.target)| + 1
    ensures forall t :: t != e.target ==> Into(es + {e}, t) == Into(es, t)
  {
    assert Into(es + {e}, e.target) == Into(es, e.target) + {e};
  }

  lemma SuccessorsGain(es: set<Edge>, e: Edge)
    ensures Successors(es + {e}, e.source) == Successors(es, e.source) + {e.target}
    ensures forall p :: p != e.source ==> Successors(es + {e}, p) == Successors(es, p)
  {
    forall p
      ensures Successors(es + {e}, p) == if p == e.source then Successors(es, p) + {e.target} else Successors(es, p)
    {
      SuccessorsGainAt(es, e, p);
    }
  }

  lemma SuccessorsGainAt(es: set<Edge>, e: Edge, p: Id)
    ensures Successors(es + {e}, p) == if p == e.source then Successors(es, p) + {e.target} else Successors(es, p)
  {
    forall t | t in Successors(es, p) ensures t in Successors(es + {e}, p) {
      var f :| f in es && f.source == p && f.target == t;
      assert f in es + {e};
    }
    assert e in es + {e};
  }

  /** The successor and indegree tables of an edge set. */
  ghost predicate Tabulated(phases: set<Id>, edges: set<Edge>, outgoing: map<Id, set<Id>>, indegree: map<Id, int>) {
    && outgoing.Keys == phases && indegree.Keys == phases
    && forall p :: p in phases ==> outgoing[p] == Successors(edges, p) && indegree[p] == |Into(edges, p)|
  }

  lemma TabulateOne(phases: set<Id>, edges: set<Edge>, outgoing: map<Id, set<Id>>, indegree: map<Id, int>, e: Edge)
    requires Tabulated(phases, edges, outgoing, indegree) && EdgeOk(phases, e) && e !in edges
    ensures Tabulated(phases, edges + {e}, outgoing[e.source := outgoing[e.source] + {e.target}],
                      indegree[e.target := indegree[e.target] + 1])
  {
    IntoGainsOne(edges, e);
    SuccessorsGain(edges, e);
  }

  ghost predicate EdgeListOk(phases: set<Id>, list: seq<Edge>) {
    (forall i :: 0 <= i < |list| ==> EdgeOk(phases, list[i])) && NoDuplicates(list)
  }

  lemma EdgeListGrows(phases: set<Id>, list: seq<Edge>, e: Edge)
    requires EdgeListOk(phases, list)
    ensures EdgeListOk(phases, list + [e]) <==> EdgeOk(phases, e) && e !in list
    ensures Elements(list + [e]) == Elements(list) + {e}
  {
    DistinctGrows(list, e);
    var longer := list + [e];
    assert longer[|list|] == e && forall i :: 0 <= i < |list| ==> longer[i] == list[i];
  }

  lemma EdgeListPrefix(phases: set<Id>, list: seq<Edge>, i: nat)
    requires i <= |list| && EdgeListOk(phases, list)
    ensures EdgeListOk(phases, list[..i])
  {
  }

  lemma EdgeListStops(phases: set<Id>, list: seq<Edge>, i: nat)
    requires i <= |list| && !EdgeListOk(phases, list[..i])
    ensures !EdgeListOk(phases, list)
  {
    if EdgeListOk(phases, list) { EdgeListPrefix(phases, list, i); }
  }

  /** Reads the edge list into an edge set, successor sets and indegrees. */
  method ReadEdges(phases: set<Id>, list: seq<Edge>)
    returns (ok: bool, edges: set<Edge>, outgoing: map<Id, set<Id>>, indegree: map<Id, int>)
    ensures ok <==> EdgeListOk(phases, list)
    ensures ok ==> edges == Elements(list) && Tabulated(phases, edges, outgoing, indegree)
  {
    edges := {};
    outgoing := map p | p in phases :: {};
    indegree := map p | p in phases :: 0;
    for i := 0 to |list|
      invariant edges == Elements(list[..i]) && EdgeListOk(phases, list[..i])
      invariant Tabulated(phases, edges, outgoing, indegree)
    {
      var e := list[i];
      EdgeListGrows(phases, list[..i], e);
      assert list[..i + 1] == list[..i] + [e];
      if e.source !in phases || e.target !in phases || e.source == e.target || e in edges {
        EdgeListStops(phases, list, i + 1);
        return false, {}, map[], map[];
      }
      TabulateOne(phases, edges, outgoing, indegree, e);
      edges := edges + {e};
      outgoing := outgoing[e.source := outgoing[e.source] + {e.target}];
      indegree := indegree[e.target := indegree[e.target] + 1];
    }
    assert list[..|list|] == list;
    ok := true;
  }

  /** The worklist state: edges in `gone` no longer count, and `done` are the phases without counted edges. */
  ghost predicate Progress(phases: set<Id>, edges: set<Edge>, gone: set<Edge>, remaining: map<Id, int>, done: set<Id>) {
    && gone <= edges && done <= phases && remaining.Keys == phases
    && forall t :: t in phases ==> remaining[t] == |Into(edges - gone, t)| && (t in done <==> remaining[t] == 0)
  }

  lemma ProgressOne(phases: set<Id>, edges: set<Edge>, gone: set<Edge>, remaining: map<Id, int>, done: set<Id>, e: Edge)
    requires Progress(phases, edges, gone, remaining, done) && e in edges - gone && e.target in phases
    ensures e.target !in done
    ensures
      Progress(phases, edges, gone + {e}, remaining[e.target := remaining[e.target] - 1],
               if remaining[e.target] == 1 then done + {e.target} else done)
  {
    assert e in Into(edges - gone, e.target);
    IntoLosesOne(edges - gone, e);
    assert edges - (gone + {e}) == edges - gone - {e};
  }

  function EdgesFrom(p: Id, targets: set<Id>): set<Edge> {
    set t | t in targets :: Edge(p, t)
  }

  lemma EdgesFromOneMore(p: Id, all: set<Id>, left: set<Id>, t: Id)
    requires t in left && left <= all
    ensures EdgesFrom(p, all - (left - {t})) == EdgesFrom(p, all - left) + {Edge(p, t)}
  {
    assert all - (left - {t}) == all - left + {t};
  }

  /** Removes the edges out of one visited phase. */
  method Relax(phases: set<Id>, edges: set<Edge>, roots: set<Id>, p: Id, successors: set<Id>, counts: map<Id, int>,
               pending: set<Id>, ghost visited: set<Id>, ghost before: set<Edge>)
    returns (remaining: map<Id, int>, queue: set<Id>, ghost gone: set<Edge>)
    requires forall e :: e in edges ==> EdgeOk(phases, e)
    requires Progress(phases, edges, before, counts, visited + pending) && visited !! pending
    requires successors == Successors(edges, p) && EdgesFrom(p, successors) !! before
    requires Reachable(edges, roots, p) && AllReachable(edges, roots, pending)
    ensures Progress(phases, edges, gone, remaining, visited + queue) && visited !! queue
    ensures gone == before + EdgesFrom(p, successors)
    ensures AllReachable(edges, roots, queue)
  {
    remaining, queue, gone := counts, pending, before;
    var targets := successors;
    while targets != {}
      invariant targets <= successors
      invariant Progress(phases, edges, gone, remaining, visited + queue) && visited !! queue
      invariant gone == before + EdgesFrom(p, successors - targets)
      invariant AllReachable(edges, roots, queue)
      decreases targets
    {
      var t :| t in targets;
      ghost var e := Edge(p, t);
      assert e in edges && e in EdgesFrom(p, successors);
      ProgressOne(phases, edges, gone, remaining, visited + queue, e);
      remaining := remaining[t := remaining[t] - 1];
      if remaining[t] == 0 {
        ReachableNext(edges, roots, e);
        assert visited + (queue + {t}) == visited + queue + {t};
        queue := queue + {t};
      }
      gone := gone + {e};
      EdgesFromOneMore(p, successors, targets, t);
      targets := targets - {t};
    }
  }

  /** Visited phases are numbered so that edges between them go up, and are closed under predecessors. */
  ghost predicate Ordered(edges: set<Edge>, visited: set<Id>, rank: map<Id, int>) {
    && rank.Keys == visited
    && (forall p :: p in visited ==> rank[p] < |visited|)
    && forall e :: e in edges && e.target in visited ==> e.source in visited && rank[e.source] < rank[e.target]
  }

  lemma VisitOne(edges: set<Edge>, visited: set<Id>, rank: map<Id, int>, p: Id)
    requires Ordered(edges, visited, rank) && p !in visited
    requires forall e :: e in edges && e.target == p ==> e.source in visited
    ensures Ordered(edges, visited + {p}, rank[p := |visited|])
  {
  }

  ghost function EdgesOutOf(edges: set<Edge>, visited: set<Id>): set<Edge> {
    set e | e in edges && e.source in visited
  }

  lemma EdgesOutOfOneMore(edges: set<Edge>, visited: set<Id>, p: Id)
    requires p !in visited
    ensures EdgesOutOf(edges, visited + {p}) == EdgesOutOf(edges, visited) + EdgesFrom(p, Successors(edges, p))
    ensures EdgesFrom(p, Successors(edges, p)) !! EdgesOutOf(edges, visited)
  {
    forall e | e in edges && e.source == p ensures e in EdgesFrom(p, Successors(edges, p)) {
      assert e == Edge(p, e.target);
    }
  }

  lemma NothingIntoDone(phases: set<Id>, edges: set<Edge>, visited: set<Id>, remaining: map<Id, int>, done: set<Id>,
      p: Id)
    requires Progress(phases, edges, EdgesOutOf(edges, visited), remaining, done) && p in done
    ensures forall e :: e in edges && e.target == p ==> e.source in visited
  {
    forall e | e in edges && e.target == p ensures e.source in visited {
      assert e !in Into(edges - EdgesOutOf(edges, visited), p);
    }
  }

  lemma SomethingLeft<T>(all: set<T>, part: set<T>)
    requires part <= all && part != all
    ensures all - part != {}
  {
    assert all == part + (all - part);
  }

  lemma AddNothing<T>(visited: set<T>, queue: set<T>)
    requires queue == {}
    ensures visited + queue == visited
  {
  }

  lemma MoveOne<T>(all: set<T>, visited: set<T>, queue: set<T>, p: T)
    requires p in queue && visited !! queue && queue <= all
    ensures visited + {p} + (queue - {p}) == visited + queue && visited + {p} !! queue - {p}
    ensures all - (visited + {p}) < all - visited
  {
    assert p in all - visited && p !in all - (visited + {p});
  }

  lemma LeftoverIsStuck(phases: set<Id>, edges: set<Edge>, visited: set<Id>, remaining: map<Id, int>)
    requires forall e :: e in edges ==> EdgeOk(phases, e)
    requires Progress(phases, edges, EdgesOutOf(edges, visited), remaining, visited) && visited != phases
    ensures Stuck(edges, phases - visited)
  {
    SomethingLeft(phases, visited);
    forall t | t in phases - visited ensures HasPredecessor(edges, phases - visited, t) {
      var e :| e in Into(edges - EdgesOutOf(edges, visited), t);
      assert e in Into(edges, t) && e.source in phases - visited;
    }
  }

  /** Once the queue is empty. */
  lemma AllVisitedExactlyIfAcyclic(phases: set<Id>, edges: set<Edge>, visited: set<Id>, remaining: map<Id, int>,
      rank: map<Id, int>)
    requires forall e :: e in edges ==> EdgeOk(phases, e)
    requires Progress(phases, edges, EdgesOutOf(edges, visited), remaining, visited) && Ordered(edges, visited, rank)
    ensures visited == phases <==> Acyclic(edges)
  {
    if visited == phases {
      RankedIsAcyclic(edges, rank);
    } else {
      LeftoverIsStuck(phases, edges, visited, remaining);
      StuckHasCycle(edges, phases - visited);
    }
  }

  /** Takes phases off the queue in any order until it is empty. */
  method Visit(phases: set<Id>, edges: set<Edge>, outgoing: map<Id, set<Id>>, indegree: map<Id, int>, roots: set<Id>)
    returns (visited: set<Id>)
    requires forall e :: e in edges ==> EdgeOk(phases, e)
    requires Tabulated(phases, edges, outgoing, indegree)
    requires roots == set p | p in phases && indegree[p] == 0
    ensures visited <= phases
    ensures visited == phases <==> Acyclic(edges)
    ensures AllReachable(edges, roots, visited)
  {
    var remaining, queue := indegree, roots;
    visited := {};
    ghost var gone: set<Edge>, rank: map<Id, int> := {}, map[];
    assert edges - {} == edges && {} + queue == queue;
    forall t | t in roots ensures Reachable(edges, roots, t) { ReachableStart(edges, roots, t); }
    while queue != {}
      invariant Progress(phases, edges, gone, remaining, visited + queue) && visited !! queue
      invariant gone == EdgesOutOf(edges, visited)
      invariant Ordered(edges, visited, rank)
      invariant AllReachable(edges, roots, visited) && AllReachable(edges, roots, queue)
      decreases phases - visited
    {
      var p :| p in queue;
      NothingIntoDone(phases, edges, visited, remaining, visited + queue, p);
      VisitOne(edges, visited, rank, p);
      EdgesOutOfOneMore(edges, visited, p);
      rank := rank[p := |visited|];
      MoveOne(phases, visited, queue, p);
      queue := queue - {p};
      visited := visited + {p};
      remaining, queue, gone := Relax(phases, edges, roots, p, outgoing[p], remaining, queue, visited, gone);
    }
    AddNothing(visited, queue);
    AllVisitedExactlyIfAcyclic(phases, edges, visited, remaining, rank);
  }

  // ------------------------------------------------------------ the whole check

  lemma {:induction false} DistinctExactlyIfAsManyElements<T>(s: seq<T>)
    ensures NoDuplicates(s) <==> |Elements(s)| == |s|
    ensures |Elements(s)| <= |s|
    decreases |s|
  {
    if s != [] {
      var front, last := s[..|s| - 1], s[|s| - 1];
      DistinctExactlyIfAsManyElements(front);
      assert s == front + [last];
      DistinctGrows(front, last);
      if last in front { assert Elements(front) + {last} == Elements(front); }
    }
  }

  lemma DistinctGrows<T>(s: seq<T>, x: T)
    ensures NoDuplicates(s + [x]) <==> NoDuplicates(s) && x !in s
    ensures Elements(s + [x]) == Elements(s) + {x}
  {
    var t := s + [x];
    assert forall i :: 0 <= i < |s| ==> t[i] == s[i];
    if x in s {
      var i :| 0 <= i < |s| && s[i] == x;
      assert t[i] == t[|s|];
    } else if !NoDuplicates(s) {
      var i, j :| 0 <= i < j < |s| && s[i] == s[j];
      assert t[i] == t[j];
    }
  }

  ghost predicate ReadSoFar(declared: seq<Phase>, n: nat) {
    && n <= |declared|
    && (forall i :: 0 <= i < n ==> FieldsOk(declared[i]) && Canonical(declared[i].id))
    && NoDuplicates(Ids(declared)[..n])
  }

  lemma ReadOneMore(declared: seq<Phase>, n: nat)
    requires n < |declared| && ReadSoFar(declared, n)
    ensures
      ReadSoFar(declared, n + 1) <==>
      FieldsOk(declared[n]) && Canonical(declared[n].id) && declared[n].id !in Ids(declared)[..n]
    ensures Ids(declared)[..n + 1] == Ids(declared)[..n] + [declared[n].id]
  {
    DistinctGrows(Ids(declared)[..n], declared[n].id);
    assert Ids(declared)[..n + 1] == Ids(declared)[..n] + [declared[n].id];
  }

  lemma ReadStops(declared: seq<Phase>, n: nat)
    requires n <= |declared| && !ReadSoFar(declared, n)
    ensures !ReadSoFar(declared, |declared|)
  {
    if !NoDuplicates(Ids(declared)[..n]) {
      var i, j :| 0 <= i < j < n && Ids(declared)[..n][i] == Ids(declared)[..n][j];
      assert Ids(declared)[..|declared|][i] == Ids(declared)[..|declared|][j];
    }
  }

  method ReadPhases(declared: seq<Phase>) returns (ok: bool, phases: set<Id>)
    ensures ok <==> ReadSoFar(declared, |declared|) && declared != []
    ensures ok ==> phases == Elements(Ids(declared))
  {
    phases := {};
    for i := 0 to |declared|
      invariant phases == Elements(Ids(declared)[..i]) && ReadSoFar(declared, i)
    {
      var p := declared[i];
      ReadOneMore(declared, i);
      if !Canonical(p.id) || p.id in phases || !FieldsOk(p) {
        ReadStops(declared, i + 1);
        return false, {};
      }
      phases := phases + {p.id};
    }
    assert Ids(declared)[..|declared|] == Ids(declared);
    ok := phases != {};
    if declared != [] { assert Ids(declared)[0] in phases; }
  }

  method UniqueIds(list: seq<Id>) returns (ok: bool)
    ensures ok <==> (forall i :: 0 <= i < |list| ==> Canonical(list[i])) && NoDuplicates(list)
  {
    DistinctExactlyIfAsManyElements(list);
    ok := (forall i :: 0 <= i < |list| ==> Canonical(list[i])) && |set x | x in list| == |list|;
  }

  lemma RootsAgree(g: Graph, indegree: map<Id, int>, roots: set<Id>)
    requires indegree.Keys == Elements(g.phases)
    requires forall p :: p in g.phases ==> indegree[p] == |Into(Elements(g.edges), p)|
    requires roots == set p | p in Elements(g.phases) && indegree[p] == 0
    requires forall i :: 0 <= i < |g.entries| ==> g.entries[i] in g.phases
    ensures Elements(g.entries) == roots <==> EntriesAreRoots(g)
  {
    if EntriesAreRoots(g) {
      assert forall p :: p in roots <==> p in g.entries;
    } else {
      var p :| p in g.phases && !(p in g.entries <==> Into(Elements(g.edges), p) == {});
      assert p in roots <==> p !in g.entries;
    }
  }

  /** The phase-graph checks in the order they are made. */
  method Validate(d: Declaration) returns (error: Option<Error>)
    ensures error == Some(InvalidPhases) <==> !DeclaredOk(d)
    ensures error == Some(InvalidEntries) <==> DeclaredOk(d) && !EntriesOk(GraphOf(d))
    ensures error == Some(InvalidEdges) <==> DeclaredOk(d) && EntriesOk(GraphOf(d)) && !EdgesOk(GraphOf(d))
    ensures error == Some(EntriesNotRoots) <==> DeclaredOk(d) && WellFormed(GraphOf(d)) && !EntriesAreRoots(GraphOf(d))
    ensures error.None? <==> DeclaredOk(d) && Accepted(GraphOf(d))
    ensures
      var g := GraphOf(d);
      error.None? ==> AllReachable(Elements(g.edges), Elements(g.entries), Elements(g.phases))
  {
    var g := GraphOf(d);
    var phasesOk, phases := ReadPhases(d.phases);
    assert g.phases[..|g.phases|] == g.phases;
    if !phasesOk { return Some(InvalidPhases); }
    var unique := UniqueIds(g.entries);
    if !unique || g.entries == [] || exists i :: 0 <= i < |g.entries| && g.entries[i] !in phases {
      return Some(InvalidEntries);
    }
    var edgesOk, edges, outgoing, indegree := ReadEdges(phases, g.edges);
    if !edgesOk { return Some(InvalidEdges); }
    var roots := set p | p in phases && indegree[p] == 0;
    RootsAgree(g, indegree, roots);
    if (set x | x in g.entries) != roots { return Some(EntriesNotRoots); }
    var visited := Visit(phases, edges, outgoing, indegree, roots);
    error := if visited == phases then None else Some(NotAcyclic);
  }

  // ------------------------------------------------------------------ the chain

  /** The consecutive pairs of a list of phase IDs. */
  function Chain(ids: seq<Id>): (edges: seq<Edge>)
    requires ids != []
    ensures |edges| == |ids| - 1
  {
    seq(|ids| - 1, i requires 0 <= i < |ids| - 1 => Edge(ids[i], ids[i + 1]))
  }

  function ChainGraph(ids: seq<Id>): Graph
    requires ids != []
  {
    Graph(ids, [ids[0]], Chain(ids))
  }

  lemma ChainWellFormed(ids: seq<Id>)
    requires ids != [] && PhasesOk(ChainGraph(ids))
    ensures WellFormed(ChainGraph(ids))
  {
    var chain := Chain(ids);
    forall i | 0 <= i < |chain| ensures EdgeOk(Elements(ids), chain[i]) {
      assert chain[i] == Edge(ids[i], ids[i + 1]);
    }
    forall i, j | 0 <= i < j < |chain| ensures chain[i] != chain[j] {
      assert chain[i].source == ids[i] && chain[j].source == ids[j];
    }
    assert ids[0] in ids;
  }

  lemma ChainRoots(ids: seq<Id>)
    requires ids != [] && PhasesOk(ChainGraph(ids))
    ensures EntriesAreRoots(ChainGraph(ids))
  {
    var chain := Chain(ids);
    forall p | p in ids ensures p in [ids[0]] <==> Into(Elements(chain), p) == {} {
      var k :| 0 <= k < |ids| && ids[k] == p;
      if k > 0 {
        assert chain[k - 1].target == p;
        assert chain[k - 1] in Into(Elements(chain), p);
      } else {
        forall e | e in Elements(chain) ensures e.target != p {
          var i :| 0 <= i < |chain| && chain[i] == e;
          assert e.target == ids[i + 1];
        }
      }
    }
  }

  lemma Positions(ids: seq<Id>) returns (rank: map<Id, int>)
    requires NoDuplicates(ids)
    ensures forall i :: 0 <= i < |ids| ==> ids[i] in rank && rank[ids[i]] == i
  {
    rank := map i | 0 <= i < |ids| :: ids[i] := i;
  }

  lemma ChainAcyclic(ids: seq<Id>)
    requires ids != [] && PhasesOk(ChainGraph(ids))
    ensures Acyclic(Elements(Chain(ids)))
  {
    var chain := Chain(ids);
    var rank := Positions(ids);
    forall e | e in Elements(chain) ensures e.source in rank && e.target in rank && rank[e.source] < rank[e.target] {
      var i :| 0 <= i < |chain| && chain[i] == e;
      assert e == Edge(ids[i], ids[i + 1]);
    }
    RankedIsAcyclic(Elements(chain), rank);
  }

  /** The graph built from a list of phases is accepted exactly when the list itself is a legal phase list. */
  lemma ChainIsAccepted(ids: seq<Id>)
    requires ids != []
    ensures Accepted(ChainGraph(ids)) <==> (forall i :: 0 <= i < |ids| ==> Canonical(ids[i])) && NoDuplicates(ids)
  {
    if PhasesOk(ChainGraph(ids)) {
      ChainWellFormed(ids);
      ChainRoots(ids);
      ChainAcyclic(ids);
    }
  }
}
