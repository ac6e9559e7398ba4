/**
 The dependency multigraph and what its layers mean: a service belongs to layer
 `i` when its longest dependency chain has `i` edges, and to no layer when it is
 on a cycle or depends on one.
 */
module ServiceGraphs {
  import opened Common

  datatype EdgeKind = StartedBefore | HealthyBefore | CompletedBefore

  /** `edges[u]` lists, once per `depends_on` entry, the nodes that must wait for `u`. */
  datatype ServiceGraph = ServiceGraph(names: seq<string>, edges: map<nat, seq<(nat, EdgeKind)>>, inDegree: map<nat, nat>) {
    function Outgoing(u: nat): seq<(nat, EdgeKind)> {
      if u in edges then edges[u] else []
    }
  }

  /** How many of the edges lead to `v`. */
  function Count(edges: seq<(nat, EdgeKind)>, v: nat): nat {
    if edges == [] then 0
    else Count(edges[..|edges| - 1], v) + if edges[|edges| - 1].0 == v then 1 else 0
  }

  /** The edges into `v` from nodes below `u` that are not done. */
  function Inbound(g: ServiceGraph, v: nat, done: set<nat>, u: nat): nat {
    if u == 0 then 0
    else Inbound(g, v, done, u - 1) + if u - 1 in done then 0 else Count(g.Outgoing(u - 1), v)
  }

  ghost predicate WellFormed(g: ServiceGraph) {
    var n := |g.names|;
    && (forall v: nat :: v in g.inDegree <==> v < n)
    && (forall u, e :: u in g.edges && e in g.edges[u] ==> e.0 < n)
    && (forall v :: v in g.inDegree ==> g.inDegree[v] == Inbound(g, v, {}, n))
  }

  /** `v` depends on `u`. */
  ghost predicate Dep(g: ServiceGraph, v: nat, u: nat) {
    v < |g.names| && u < |g.names| && Count(g.Outgoing(u), v) > 0
  }

  lemma {:induction false} CountPositive(edges: seq<(nat, EdgeKind)>, v: nat)
    ensures Count(edges, v) > 0 <==> exists e :: e in edges && e.0 == v
  {
    if edges != [] {
      var last := edges[|edges| - 1];
      assert edges == edges[..|edges| - 1] + [last];
      CountPositive(edges[..|edges| - 1], v);
      if last.0 == v {
        assert last in edges;
      }
    }
  }

  lemma {:induction false} CountSplits(a: seq<(nat, EdgeKind)>, b: seq<(nat, EdgeKind)>, v: nat)
    ensures Count(a + b, v) == Count(a, v) + Count(b, v)
  {
    if b == [] {
      assert a + b == a;
    } else {
      assert (a + b)[..|a + b| - 1] == a + b[..|b| - 1];
      CountSplits(a, b[..|b| - 1], v);
    }
  }

  lemma {:induction false} InboundZero(g: ServiceGraph, v: nat, done: set<nat>, u: nat)
    ensures Inbound(g, v, done, u) == 0 <==> forall x :: 0 <= x < u && x !in done ==> Count(g.Outgoing(x), v) == 0
  {
    if u > 0 {
      InboundZero(g, v, done, u - 1);
    }
  }

  lemma {:induction false} InboundFinish(g: ServiceGraph, v: nat, done: set<nat>, x: nat, u: nat)
    requires x !in done && x < u
    ensures Inbound(g, v, done, u) == Inbound(g, v, done + {x}, u) + Count(g.Outgoing(x), v)
  {
    if x < u - 1 {
      InboundFinish(g, v, done, x, u - 1);
    } else {
      InboundIgnores(g, v, done, x, u - 1);
    }
  }

  lemma {:induction false} InboundIgnores(g: ServiceGraph, v: nat, done: set<nat>, x: nat, u: nat)
    requires u <= x
    ensures Inbound(g, v, done + {x}, u) == Inbound(g, v, done, u)
  {
    if u > 0 {
      InboundIgnores(g, v, done, x, u - 1);
    }
  }

  // ---------------------------------------------------------------------------
  // Layers
  // ---------------------------------------------------------------------------

  function UpTo(n: nat): (s: set<nat>)
    ensures forall v: nat :: v in s <==> v < n
    ensures |s| == n
  {
    if n == 0 then {} else UpTo(n - 1) + {n - 1}
  }

  function Nodes(g: ServiceGraph): set<nat> {
    UpTo(|g.names|)
  }

  /** The nodes all of whose dependency chains have fewer than `k` edges. */
  ghost function Below(g: ServiceGraph, k: nat): set<nat> {
    if k == 0 then {}
    else set v | v in Nodes(g) && forall u: nat :: Dep(g, v, u) ==> u in Below(g, k - 1)
  }

  ghost function Layer(g: ServiceGraph, k: nat): set<nat> {
    Below(g, k + 1) - Below(g, k)
  }

  lemma {:induction false} BelowGrows(g: ServiceGraph, k: nat)
    ensures Below(g, k) <= Below(g, k + 1) <= Nodes(g)
  {
    if k > 0 {
      BelowGrows(g, k - 1);
    }
  }

  lemma {:induction false} BelowMonotone(g: ServiceGraph, j: nat, k: nat)
    requires j <= k
    ensures Below(g, j) <= Below(g, k)
    decreases k - j
  {
    if j < k {
      BelowGrows(g, j);
      BelowMonotone(g, j + 1, k);
    }
  }

  /** Zero remaining in-degree means exactly: every dependency is done. */
  lemma NextLayer(g: ServiceGraph, v: nat, k: nat)
    requires v < |g.names|
    ensures v in Below(g, k + 1) <==> Inbound(g, v, Below(g, k), |g.names|) == 0
  {
    var n := |g.names|;
    BelowGrows(g, k);
    InboundZero(g, v, Below(g, k), n);
    assert forall u: nat :: Dep(g, v, u) <==> u < n && Count(g.Outgoing(u), v) > 0;
  }

  lemma {:induction false} Settles(g: ServiceGraph, j: nat, k: nat)
    requires Below(g, j) == Below(g, j + 1) && j <= k
    ensures Below(g, k) == Below(g, j)
    decreases k - j
  {
    if j < k {
      assert Below(g, j + 1) == Below(g, j + 2);
      Settles(g, j + 1, k);
    }
  }

  lemma SubsetSize(a: set<nat>, b: set<nat>)
    requires a <= b
    ensures |a| <= |b| && (|a| == |b| ==> a == b)
  {
    assert b == a + (b - a);
  }

  /** As long as the layers keep growing, there are at least as many nodes below as layers. */
  lemma {:induction false} GrowthSize(g: ServiceGraph, k: nat)
    requires forall j: nat :: j < k ==> Layer(g, j) != {}
    ensures |Below(g, k)| >= k
  {
    hide Below;
    if k > 0 {
      GrowthSize(g, k - 1);
      BelowGrows(g, k - 1);
      assert Layer(g, k - 1) != {};
      assert Below(g, k - 1) != Below(g, k);
      SubsetSize(Below(g, k - 1), Below(g, k));
    }
  }

  /** If the layers have stopped growing after `k`, what is below then is what is below after all. */
  lemma StableIsFinal(g: ServiceGraph, k: nat)
    requires Layer(g, k) == {}
    requires forall j: nat :: j < k ==> Layer(g, j) != {}
    ensures k <= |g.names| && Below(g, k) == Below(g, |g.names|)
  {
    GrowthSize(g, k);
    hide Below;
    BelowGrows(g, k);
    assert Below(g, k) == Below(g, k + 1);
    SubsetSize(Below(g, k), Nodes(g));
    Settles(g, k, |g.names|);
  }

  // ---------------------------------------------------------------------------
  // Chains
  // ---------------------------------------------------------------------------

  /** Each node of `p` depends on the one before it. */
  ghost predicate Chain(g: ServiceGraph, p: seq<nat>) {
    && |p| >= 1 && p[0] < |g.names|
    && forall i :: 0 <= i < |p| - 1 ==> Dep(g, p[i + 1], p[i])
  }

  ghost predicate ChainTo(g: ServiceGraph, p: seq<nat>, v: nat, edges: nat) {
    Chain(g, p) && |p| == edges + 1 && p[edges] == v
  }

  ghost predicate LongestChain(g: ServiceGraph, v: nat, edges: nat) {
    && (exists p :: ChainTo(g, p, v, edges))
    && (forall p, k: nat :: ChainTo(g, p, v, k) ==> k <= edges)
  }

  lemma ChainNodes(g: ServiceGraph, p: seq<nat>)
    requires Chain(g, p)
    ensures forall i :: 0 <= i < |p| ==> p[i] < |g.names|
  {
    forall i | 0 <= i < |p| ensures p[i] < |g.names| {
      if i > 0 {
        assert Dep(g, p[(i - 1) + 1], p[i - 1]);
      }
    }
  }

  lemma ChainGrows(g: ServiceGraph, p: seq<nat>, u: nat, k: nat, v: nat)
    requires ChainTo(g, p, u, k) && Dep(g, v, u)
    ensures ChainTo(g, p + [v], v, k + 1)
  {
    hide Dep;
    var q := p + [v];
    forall i | 0 <= i < |q| - 1 ensures Dep(g, q[i + 1], q[i]) {
      assert q[i] == p[i] && q[i + 1] == if i + 1 < |p| then p[i + 1] else v;
    }
  }

  lemma ChainShrinks(g: ServiceGraph, p: seq<nat>, v: nat, k: nat)
    requires ChainTo(g, p, v, k) && k > 0
    ensures ChainTo(g, p[..k], p[k - 1], k - 1) && Dep(g, v, p[k - 1]) && p[k - 1] < |g.names|
  {
    ChainNodes(g, p);
    hide Dep;
    var q, last := p[..k], k - 1;
    assert Dep(g, p[last + 1], p[last]);
    forall i | 0 <= i < |q| - 1 ensures Dep(g, q[i + 1], q[i]) {
      assert q[i] == p[i] && q[i + 1] == p[i + 1];
    }
  }

  lemma NotBelow(g: ServiceGraph, v: nat, k: nat) returns (u: nat)
    requires v < |g.names| && k > 0 && v !in Below(g, k)
    ensures u < |g.names| && Dep(g, v, u) && u !in Below(g, k - 1)
  {
    assert v in Nodes(g);
    u :| Dep(g, v, u) && u !in Below(g, k - 1);
  }

  lemma BelowIsClosed(g: ServiceGraph, v: nat, k: nat, u: nat)
    requires k > 0 && Dep(g, v, u)
    ensures v in Below(g, k) ==> u in Below(g, k - 1)
  {}

  lemma ChainOfOne(g: ServiceGraph, v: nat)
    requires v < |g.names|
    ensures ChainTo(g, [v], v, 0)
  {}

  /** `v` is not below `k` exactly when a chain of `k` edges ends at it. */
  lemma {:induction false} BelowMeansShortChains(g: ServiceGraph, v: nat, k: nat)
    requires v < |g.names|
    ensures v !in Below(g, k) <==> exists p :: ChainTo(g, p, v, k)
    decreases k
  {
    hide Dep, Chain;
    if k == 0 {
      ChainOfOne(g, v);
    } else {
      if v !in Below(g, k) {
        var u := NotBelow(g, v, k);
        BelowMeansShortChains(g, u, k - 1);
        var p :| ChainTo(g, p, u, k - 1);
        ChainGrows(g, p, u, k - 1, v);
      }
      if exists p :: ChainTo(g, p, v, k) {
        var p :| ChainTo(g, p, v, k);
        ChainShrinks(g, p, v, k);
        BelowMeansShortChains(g, p[k - 1], k - 1);
        BelowIsClosed(g, v, k, p[k - 1]);
      }
    }
  }

  lemma ChainSuffix(g: ServiceGraph, p: seq<nat>, v: nat, k: nat, j: nat)
    requires ChainTo(g, p, v, k) && j <= k
    ensures ChainTo(g, p[k - j..], v, j)
  {
    var q := p[k - j..];
    ChainNodes(g, p);
    forall i | 0 <= i < |q| - 1 ensures Dep(g, q[i + 1], q[i]) {
      assert Dep(g, p[(k - j + i) + 1], p[k - j + i]);
    }
  }

  /** Layer `k` is exactly the nodes whose longest dependency chain has `k` edges. */
  lemma LayerIsLongestChain(g: ServiceGraph, v: nat, k: nat)
    requires v < |g.names|
    ensures v in Layer(g, k) <==> LongestChain(g, v, k)
  {
    BelowMeansShortChains(g, v, k);
    BelowMeansShortChains(g, v, k + 1);
    if v in Layer(g, k) {
      forall p, j: nat | ChainTo(g, p, v, j) ensures j <= k {
        if j > k {
          ChainSuffix(g, p, v, j, k + 1);
        }
      }
    }
  }

  // ---------------------------------------------------------------------------
  // Cycles
  // ---------------------------------------------------------------------------

  /** A chain that comes back to where it started; a service depending on itself is one with a single edge. */
  ghost predicate Cycle(g: ServiceGraph, p: seq<nat>) {
    Chain(g, p) && |p| >= 2 && p[0] == p[|p| - 1]
  }

  ghost predicate Cyclic(g: ServiceGraph) {
    exists c :: Cycle(g, c)
  }

  ghost predicate Leads(g: ServiceGraph, u: nat, p: seq<nat>, v: nat) {
    Chain(g, p) && p[0] == u && p[|p| - 1] == v
  }

  /** `v` is on a cycle, or depends directly or indirectly on a service that is. */
  ghost predicate OnOrAfterCycle(g: ServiceGraph, v: nat) {
    exists c, p :: Cycle(g, c) && Leads(g, c[0], p, v)
  }

  lemma ChainJoin(g: ServiceGraph, p: seq<nat>, q: seq<nat>)
    requires Chain(g, p) && Chain(g, q) && p[|p| - 1] == q[0]
    ensures Chain(g, p + q[1..]) && (p + q[1..])[|p + q[1..]| - 1] == q[|q| - 1]
  {
    var r := p + q[1..];
    forall i | 0 <= i < |r| - 1 ensures Dep(g, r[i + 1], r[i]) {
      if i < |p| - 1 {
        assert Dep(g, p[i + 1], p[i]);
      } else {
        var j := i - (|p| - 1);
        assert Dep(g, q[j + 1], q[j]);
      }
    }
  }

  /** Going round a cycle gives chains of any length. */
  lemma {:induction false} Rounds(g: ServiceGraph, c: seq<nat>, k: nat) returns (p: seq<nat>)
    requires Cycle(g, c)
    ensures Chain(g, p) && |p| >= k + 1 && p[|p| - 1] == c[0]
  {
    if k == 0 {
      p := [c[0]];
    } else {
      var q := Rounds(g, c, k - 1);
      ChainJoin(g, q, c);
      p := q + c[1..];
    }
  }

  lemma {:induction false} Pigeonhole(p: seq<nat>, n: nat) returns (i: nat, j: nat)
    requires |p| > n && forall k :: 0 <= k < |p| ==> p[k] < n
    ensures i < j < |p| && p[i] == p[j]
    decreases n
  {
    var last := p[|p| - 1];
    if a :| 0 <= a < |p| - 1 && p[a] == last {
      i, j := a, |p| - 1;
    } else {
      // Close the gap that the last value leaves, so that the rest fits below n - 1.
      var q := seq(|p| - 1, k requires 0 <= k < |p| - 1 => if p[k] > last then p[k] - 1 else p[k]);
      assert forall k :: 0 <= k < |q| ==> q[k] < n - 1;
      i, j := Pigeonhole(q, n - 1);
    }
  }

  /** What never gets below: exactly the services on a cycle or depending on one. */
  lemma StuckIsOnOrAfterCycle(g: ServiceGraph, v: nat)
    requires v < |g.names|
    ensures v !in Below(g, |g.names|) <==> OnOrAfterCycle(g, v)
  {
    var n := |g.names|;
    BelowMeansShortChains(g, v, n);
    if v !in Below(g, n) {
      var p :| ChainTo(g, p, v, n);
      ChainNodes(g, p);
      var i, j := Pigeonhole(p, n);
      var c, rest := p[i..j + 1], p[j..];
      forall k | 0 <= k < |c| - 1 ensures Dep(g, c[k + 1], c[k]) {
        assert Dep(g, p[(i + k) + 1], p[i + k]);
      }
      forall k | 0 <= k < |rest| - 1 ensures Dep(g, rest[k + 1], rest[k]) {
        assert Dep(g, p[(j + k) + 1], p[j + k]);
      }
      assert Cycle(g, c) && Leads(g, c[0], rest, v);
    } else if OnOrAfterCycle(g, v) {
      var c, p :| Cycle(g, c) && Leads(g, c[0], p, v);
      var round := Rounds(g, c, n);
      ChainJoin(g, round, p);
      var long := round + p[1..];
      assert ChainTo(g, long, v, |long| - 1);
      ChainSuffix(g, long, v, |long| - 1, n);
    }
  }

  /** All services get below exactly when there is no cycle at all. */
  lemma AllBelowIffAcyclic(g: ServiceGraph)
    ensures Below(g, |g.names|) == Nodes(g) <==> !Cyclic(g)
  {
    BelowMonotone(g, 0, |g.names|);
    BelowGrows(g, |g.names|);
    if c :| Cycle(g, c) {
      StuckIsOnOrAfterCycle(g, c[0]);
      assert Leads(g, c[0], [c[0]], c[0]);
      assert c[0] in Nodes(g);
    } else if Below(g, |g.names|) != Nodes(g) {
      var v :| v in Nodes(g) && v !in Below(g, |g.names|);
      StuckIsOnOrAfterCycle(g, v);
    }
  }

  // ---------------------------------------------------------------------------
  // Layerings
  // ---------------------------------------------------------------------------

  /** Any assignment of waves in which every dependency comes strictly earlier. */
  ghost predicate ValidLayering(g: ServiceGraph, wave: map<nat, nat>) {
    && (forall v: nat :: v < |g.names| ==> v in wave)
    && forall v, u :: Dep(g, v, u) ==> wave[u] < wave[v]
  }

  lemma {:induction false} ChainClimbs(g: ServiceGraph, wave: map<nat, nat>, p: seq<nat>)
    requires ValidLayering(g, wave) && Chain(g, p)
    ensures p[|p| - 1] in wave && wave[p[|p| - 1]] >= |p| - 1
    decreases |p|
  {
    ChainNodes(g, p);
    if |p| > 1 {
      var q := p[..|p| - 1];
      forall i | 0 <= i < |q| - 1 ensures Dep(g, q[i + 1], q[i]) {
        assert Dep(g, p[i + 1], p[i]);
      }
      ChainClimbs(g, wave, q);
      assert Dep(g, p[(|p| - 2) + 1], p[|p| - 2]);
    }
  }

  /** No valid layering starts a service earlier than its layer. */
  lemma LayersAreEarliest(g: ServiceGraph, wave: map<nat, nat>, v: nat, k: nat)
    requires ValidLayering(g, wave) && v in Layer(g, k)
    ensures v in wave && wave[v] >= k
  {
    BelowGrows(g, k);
    LayerIsLongestChain(g, v, k);
    var p :| ChainTo(g, p, v, k);
    ChainClimbs(g, wave, p);
  }
}
