/** Kahn's algorithm: the waves are exactly the layers of the graph, and what is left over is exactly what a cycle holds back. */
module ComposeWaves {
  import opened Common
  import opened ComposeErrors
  import opened ServiceGraphs
  import Sorting

  // ---------------------------------------------------------------------------
  // Ascending lists of nodes
  // ---------------------------------------------------------------------------

  ghost predicate Ascends(s: seq<nat>) {
    forall i, j :: 0 <= i < j < |s| ==> s[i] < s[j]
  }

  /** `s` is the ascending list of the nodes in `x`. */
  ghost predicate Lists(s: seq<nat>, x: set<nat>) {
    Ascends(s) && forall v: nat :: v in s <==> v in x
  }

  /** There is only one such list, however its nodes were come by. */
  lemma {:induction false} ListsUnique(s: seq<nat>, t: seq<nat>, x: set<nat>)
    requires Lists(s, x) && Lists(t, x)
    ensures s == t
    decreases |s|
  {
    assert forall v: nat :: v in s <==> v in t;
    assert |t| > 0 ==> t[0] in t;
    if s != [] {
      assert s[0] in t;
      assert t[0] in s;
      var y := x - {s[0]};
      assert s == [s[0]] + s[1..] && t == [t[0]] + t[1..];
      assert s[0] == t[0];
      assert s[0] !in s[1..] && t[0] !in t[1..];
      ListsUnique(s[1..], t[1..], y);
    }
  }

  lemma {:induction false} ListsSize(s: seq<nat>, x: set<nat>)
    requires Lists(s, x)
    ensures |s| == |x|
    decreases |s|
  {
    if s == [] {
      assert x == {};
    } else {
      assert s[0] in s && s == [s[0]] + s[1..] && s[0] !in s[1..];
      ListsSize(s[1..], x - {s[0]});
    }
  }

  predicate LessNode(a: nat, b: nat) {
    a < b
  }

  /** `sort_unstable` on node ids. */
  function SortNodes(s: seq<nat>): (r: seq<nat>)
    ensures forall x: nat :: x in r <==> x in s
  {
    Sorting.SortKeepsElements(LessNode, s);
    Sorting.Sort(LessNode, s)
  }

  /** Sorting distinct nodes lists them. */
  lemma SortLists(s: seq<nat>, x: set<nat>)
    requires Distinct(s) && forall v: nat :: v in s <==> v in x
    ensures Lists(SortNodes(s), x)
  {
    Sorting.SortIsStrict(LessNode, s);
    assert forall i, j :: 0 <= i < j < |SortNodes(s)| ==> LessNode(SortNodes(s)[i], SortNodes(s)[j]);
  }

  // ---------------------------------------------------------------------------
  // Remaining in-degrees
  // ---------------------------------------------------------------------------

  /** `degree` holds, for every node, its edges from nodes not done yet. */
  ghost predicate Counts(g: ServiceGraph, degree: map<nat, nat>, done: set<nat>) {
    forall v: nat :: (v in degree <==> v < |g.names|) && (v in degree ==> degree[v] == Inbound(g, v, done, |g.names|))
  }

  lemma {:induction false} InboundShrinks(g: ServiceGraph, v: nat, done: set<nat>, more: set<nat>, u: nat)
    requires done <= more
    ensures Inbound(g, v, more, u) <= Inbound(g, v, done, u)
  {
    if u > 0 {
      InboundShrinks(g, v, done, more, u - 1);
    }
  }

  /** Some entry of a `HashMap` iteration: nodes of zero, or of positive, remaining degree, in any order. */
  method Select(degree: map<nat, nat>, zero: bool) returns (found: seq<nat>)
    ensures Distinct(found)
    ensures forall v: nat :: v in found <==> v in degree && (degree[v] == 0 <==> zero)
  {
    found := [];
    var todo := degree.Keys;
    while todo != {}
      invariant todo <= degree.Keys && Distinct(found)
      invariant forall v: nat :: v in found <==> v in degree && v !in todo && (degree[v] == 0 <==> zero)
      decreases |todo|
    {
      var v :| v in todo;
      if (degree[v] == 0) == zero {
        found := found + [v];
      }
      todo := todo - {v};
    }
  }

  ghost function Visited(wave: seq<nat>, i: nat): set<nat>
    requires i <= |wave|
  {
    set v | v in wave[..i]
  }

  /** Where the inner loops stand: `b` edges of the wave's `a`th node have been counted off. */
  ghost predicate Halfway(g: ServiceGraph, k: nat, wave: seq<nat>, a: nat, b: nat, degree: map<nat, nat>, next: seq<nat>) {
    && a < |wave| && b <= |g.Outgoing(wave[a])|
    && (forall v: nat :: v in degree <==> v < |g.names|)
    && (forall v: nat :: v in degree ==>
          degree[v] + Count(g.Outgoing(wave[a])[..b], v) == Inbound(g, v, Below(g, k) + Visited(wave, a), |g.names|))
    && NextSoFar(g, k, degree, next)
  }

  /** The nodes whose last remaining edge has been counted off since wave `k` began. */
  ghost predicate NextSoFar(g: ServiceGraph, k: nat, degree: map<nat, nat>, next: seq<nat>) {
    && Distinct(next)
    && (forall v: nat :: v in next <==> v in degree && degree[v] == 0 && Inbound(g, v, Below(g, k), |g.names|) > 0)
  }

  lemma NodeNotDone(g: ServiceGraph, k: nat, wave: seq<nat>, a: nat)
    requires Lists(wave, Layer(g, k)) && a < |wave|
    ensures wave[a] < |g.names| && wave[a] !in Below(g, k) + Visited(wave, a)
  {
    hide Below;
    assert wave[a] in wave;
    BelowGrows(g, k);
    assert forall i :: 0 <= i < a ==> wave[..a][i] == wave[i];
  }

  /** A node's edges not counted off yet are still in the in-degree they point to. */
  lemma EdgeAhead(g: ServiceGraph, node: nat, b: nat, done: set<nat>)
    requires WellFormed(g) && node < |g.names| && node !in done && b < |g.Outgoing(node)|
    ensures
      var succ := g.Outgoing(node)[b].0;
      succ < |g.names| && Inbound(g, succ, done, |g.names|) > Count(g.Outgoing(node)[..b], succ)
  {
    var out := g.Outgoing(node);
    assert out[b] in out;
    var succ := out[b].0;
    InboundFinish(g, succ, done, node, |g.names|);
    assert out[..b + 1][..b] == out[..b];
    assert out == out[..b + 1] + out[b + 1..];
    CountSplits(out[..b + 1], out[b + 1..], succ);
  }

  /** The decrement cannot go below zero, even when the same dependency is written twice. */
  lemma NoUnderflow(g: ServiceGraph, k: nat, wave: seq<nat>, a: nat, b: nat, degree: map<nat, nat>, next: seq<nat>)
    requires WellFormed(g) && Lists(wave, Layer(g, k))
    requires Halfway(g, k, wave, a, b, degree, next) && b < |g.Outgoing(wave[a])|
    ensures
      var succ := g.Outgoing(wave[a])[b].0;
      succ in degree && degree[succ] >= 1 && succ !in next && Inbound(g, succ, Below(g, k), |g.names|) > 0
  {
    hide Below, Inbound, WellFormed, Lists, Visited, Count;
    var done := Below(g, k) + Visited(wave, a);
    NodeNotDone(g, k, wave, a);
    EdgeAhead(g, wave[a], b, done);
    InboundShrinks(g, g.Outgoing(wave[a])[b].0, Below(g, k), done, |g.names|);
  }

  lemma NodeBegins(g: ServiceGraph, k: nat, wave: seq<nat>, a: nat, degree: map<nat, nat>, next: seq<nat>)
    requires a < |wave| && Counts(g, degree, Below(g, k) + Visited(wave, a)) && NextSoFar(g, k, degree, next)
    ensures Halfway(g, k, wave, a, 0, degree, next)
  {
    hide Below, Inbound;
    assert g.Outgoing(wave[a])[..0] == [];
  }

  lemma EdgeCounted(g: ServiceGraph, k: nat, wave: seq<nat>, a: nat, b: nat, degree: map<nat, nat>, next: seq<nat>)
    requires WellFormed(g) && Lists(wave, Layer(g, k))
    requires Halfway(g, k, wave, a, b, degree, next) && b < |g.Outgoing(wave[a])|
    ensures
      var succ := g.Outgoing(wave[a])[b].0;
      && succ in degree && degree[succ] >= 1
      && var degree' := degree[succ := degree[succ] - 1];
      Halfway(g, k, wave, a, b + 1, degree', if degree'[succ] == 0 then next + [succ] else next)
  {
    hide Below, Inbound, Lists, WellFormed, Visited;
    NoUnderflow(g, k, wave, a, b, degree, next);
    var out := g.Outgoing(wave[a]);
    assert out[..b + 1][..b] == out[..b];
  }

  lemma NodeDone(g: ServiceGraph, k: nat, wave: seq<nat>, a: nat, degree: map<nat, nat>, next: seq<nat>)
    requires WellFormed(g) && Lists(wave, Layer(g, k))
    requires a < |wave| && Halfway(g, k, wave, a, |g.Outgoing(wave[a])|, degree, next)
    ensures Counts(g, degree, Below(g, k) + Visited(wave, a + 1)) && NextSoFar(g, k, degree, next)
  {
    hide Below;
    var out := g.Outgoing(wave[a]);
    assert out[..|out|] == out;
    var done := Below(g, k) + Visited(wave, a);
    assert wave[a] in wave && wave[a] !in done;
    BelowGrows(g, k);
    assert Below(g, k) + Visited(wave, a + 1) == done + {wave[a]};
    forall v: nat | v in degree ensures degree[v] == Inbound(g, v, done + {wave[a]}, |g.names|) {
      InboundFinish(g, v, done, wave[a], |g.names|);
    }
  }

  lemma WaveDone(g: ServiceGraph, k: nat, wave: seq<nat>, degree: map<nat, nat>, next: seq<nat>)
    requires Lists(wave, Layer(g, k))
    requires Counts(g, degree, Below(g, k) + Visited(wave, |wave|)) && NextSoFar(g, k, degree, next)
    ensures Counts(g, degree, Below(g, k + 1)) && Lists(SortNodes(next), Layer(g, k + 1))
  {
    hide Below, Inbound;
    BelowGrows(g, k);
    BelowGrows(g, k + 1);
    assert wave[..|wave|] == wave;
    assert Below(g, k) + Visited(wave, |wave|) == Below(g, k + 1);
    forall v: nat ensures v in next <==> v in Layer(g, k + 1) {
      if v < |g.names| {
        NextLayer(g, v, k);
        NextLayer(g, v, k + 1);
      }
    }
    SortLists(next, Layer(g, k + 1));
  }

  lemma NothingNext(g: ServiceGraph, k: nat, degree: map<nat, nat>)
    requires Counts(g, degree, Below(g, k))
    ensures NextSoFar(g, k, degree, [])
  {
  }

  /** Count off the outgoing edges of one wave and collect the nodes that become free. */
  method Release(g: ServiceGraph, ghost k: nat, wave: seq<nat>, before: map<nat, nat>)
    returns (degree: map<nat, nat>, next: seq<nat>)
    requires WellFormed(g) && Lists(wave, Layer(g, k)) && Counts(g, before, Below(g, k))
    ensures Counts(g, degree, Below(g, k + 1)) && Lists(SortNodes(next), Layer(g, k + 1))
  {
    hide Below, Inbound, Lists, WellFormed, Halfway, NextSoFar, Counts;
    degree, next := before, [];
    assert Below(g, k) + Visited(wave, 0) == Below(g, k);
    NothingNext(g, k, before);
    for a := 0 to |wave|
      invariant Counts(g, degree, Below(g, k) + Visited(wave, a)) && NextSoFar(g, k, degree, next)
    {
      var out := g.Outgoing(wave[a]);
      NodeBegins(g, k, wave, a, degree, next);
      for b := 0 to |out|
        invariant Halfway(g, k, wave, a, b, degree, next)
      {
        var succ := out[b].0;
        EdgeCounted(g, k, wave, a, b, degree, next);
        degree := degree[succ := degree[succ] - 1];
        if degree[succ] == 0 {
          next := next + [succ];
        }
      }
      NodeDone(g, k, wave, a, degree, next);
    }
    WaveDone(g, k, wave, degree, next);
  }

  function NamesOf(g: ServiceGraph, nodes: seq<nat>): seq<string>
    requires forall v :: v in nodes ==> v < |g.names|
  {
    seq(|nodes|, i requires 0 <= i < |nodes| => assert nodes[i] in nodes; g.names[nodes[i]])
  }

  /** Each wave lists its layer, and together they hold every service. */
  ghost predicate AreLayers(g: ServiceGraph, waves: seq<seq<nat>>) {
    && (forall i :: 0 <= i < |waves| ==> waves[i] != [] && Lists(waves[i], Layer(g, i)))
    && Below(g, |waves|) == Nodes(g)
  }

  /** `nodes` lists, in name order, exactly the services that never become free. */
  ghost predicate AreStuck(g: ServiceGraph, nodes: seq<nat>) {
    nodes != [] && Lists(nodes, Nodes(g) - Below(g, |g.names|))
  }

  method TopologicalWaves(g: ServiceGraph) returns (r: Result<seq<seq<nat>>, PlanError>)
    requires WellFormed(g)
    ensures r.Err? <==> Cyclic(g)
    ensures r.Ok? ==> AreLayers(g, r.value)
    ensures r.Err? ==> exists stuck :: AreStuck(g, stuck) && r.error == Cycle(NamesOf(g, stuck))
  {
    hide Below, Inbound, Lists, Counts, Cyclic, NamesOf;
    var degree := g.inDegree;
    var remaining: nat := |g.names|;
    var seeds := Select(degree, true);
    var queue := SortNodes(seeds);
    var waves: seq<seq<nat>> := [];
    FirstLayer(g, seeds);
    ghost var k := 0;
    while queue != []
      invariant k == |waves| && remaining == |g.names| - |Below(g, k)|
      invariant forall i: nat :: i < k ==> waves[i] != [] && Lists(waves[i], Layer(g, i))
      invariant Lists(queue, Layer(g, k)) && Counts(g, degree, Below(g, k))
      decreases remaining
    {
      var wave := SortNodes(queue);
      LayerCounted(g, k, queue);
      remaining := remaining - |wave|;
      var next;
      degree, next := Release(g, k, wave, degree);
      waves := waves + [wave];
      queue := SortNodes(next);
      k := k + 1;
    }
    NoneFree(g, k, waves);
    AllBelowIffAcyclic(g);
    if remaining > 0 {
      var left := Select(degree, false);
      LeftAreStuck(g, k, degree, left);
      return Err(Cycle(NamesOf(g, SortNodes(left))));
    }
    BelowGrows(g, k);
    SubsetSize(Below(g, k), Nodes(g));
    return Ok(waves);
  }

  lemma FirstLayer(g: ServiceGraph, seeds: seq<nat>)
    requires WellFormed(g) && Distinct(seeds)
    requires forall v: nat :: v in seeds <==> v in g.inDegree && g.inDegree[v] == 0
    ensures Lists(SortNodes(seeds), Layer(g, 0)) && Counts(g, g.inDegree, Below(g, 0)) && Below(g, 0) == {}
  {
    BelowGrows(g, 0);
    forall v: nat ensures v in seeds <==> v in Layer(g, 0) {
      if v < |g.names| {
        NextLayer(g, v, 0);
      }
    }
    SortLists(seeds, Layer(g, 0));
  }

  lemma LayerCounted(g: ServiceGraph, k: nat, queue: seq<nat>)
    requires Lists(queue, Layer(g, k))
    ensures SortNodes(queue) == queue && |queue| + |Below(g, k)| == |Below(g, k + 1)| <= |g.names|
  {
    hide Below;
    SortLists(queue, Layer(g, k));
    ListsUnique(queue, SortNodes(queue), Layer(g, k));
    ListsSize(queue, Layer(g, k));
    BelowGrows(g, k);
    BelowGrows(g, k + 1);
    assert Below(g, k + 1) == Below(g, k) + Layer(g, k);
    SubsetSize(Below(g, k + 1), Nodes(g));
  }

  /** When no node is free any more, everything that can ever be below is below. */
  lemma NoneFree(g: ServiceGraph, k: nat, waves: seq<seq<nat>>)
    requires k == |waves| && Lists([], Layer(g, k))
    requires forall i: nat :: i < k ==> waves[i] != [] && Lists(waves[i], Layer(g, i))
    ensures Below(g, k) == Below(g, |g.names|)
  {
    hide Below;
    forall j: nat | j < k ensures Layer(g, j) != {} {
      assert waves[j][0] in waves[j];
    }
    assert Layer(g, k) == {};
    StableIsFinal(g, k);
  }

  lemma LeftAreStuck(g: ServiceGraph, k: nat, degree: map<nat, nat>, left: seq<nat>)
    requires Counts(g, degree, Below(g, k)) && Below(g, k) == Below(g, |g.names|) && Lists([], Layer(g, k))
    requires |Below(g, k)| < |g.names| && Distinct(left)
    requires forall v: nat :: v in left <==> v in degree && degree[v] != 0
    ensures AreStuck(g, SortNodes(left)) && forall v :: v in SortNodes(left) ==> v < |g.names|
  {
    hide Below, Inbound;
    BelowGrows(g, k);
    assert Layer(g, k) == {};
    forall v: nat ensures v in left <==> v in Nodes(g) - Below(g, |g.names|) {
      if v < |g.names| {
        NextLayer(g, v, k);
      }
    }
    SortLists(left, Nodes(g) - Below(g, |g.names|));
    var rest := Nodes(g) - Below(g, k);
    assert Below(g, k) + rest == Nodes(g);
    assert rest != {};
    var v :| v in rest;
    assert v in SortNodes(left);
  }
}
