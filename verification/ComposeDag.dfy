/** Building the dependency graph, and Kahn's algorithm over it. */
module ComposeDag {
  import opened Common
  import opened ComposeSchema
  import opened ComposeErrors
  import opened ServiceGraphs
  import opened Utf16Order

  // ---------------------------------------------------------------------------
  // Dependencies of one service
  // ---------------------------------------------------------------------------

  function KindOf(c: Condition): EdgeKind {
    match c
    case ServiceStarted => StartedBefore
    case ServiceHealthy => HealthyBefore
    case ServiceCompletedSuccessfully => CompletedBefore
  }

  function DepsOf(svc: Service): seq<(string, EdgeKind)> {
    match svc.dependsOn
    case Empty => []
    case List(names) => seq(|names|, i requires 0 <= i < |names| => (names[i], StartedBefore))
    case Map(entries) => seq(|entries|, i requires 0 <= i < |entries| => (entries[i].0, KindOf(entries[i].1)))
  }

  function HealthyOf(entries: seq<(string, Condition)>): seq<string> {
    if entries == [] then []
    else (if entries[0].1.ServiceHealthy? then [entries[0].0] else []) + HealthyOf(entries[1..])
  }

  function HealthyDependencies(svc: Service): seq<string> {
    if svc.dependsOn.Map? then HealthyOf(svc.dependsOn.entries) else []
  }

  /** The services needed healthy are those at the far end of a `HealthyBefore` edge. */
  lemma HealthyIsAnEdgeKind(svc: Service, name: string)
    ensures name in HealthyDependencies(svc) <==> (name, HealthyBefore) in DepsOf(svc)
  {
    if svc.dependsOn.Map? {
      var entries := svc.dependsOn.entries;
      HealthyOfIs(entries, name);
      if i :| 0 <= i < |entries| && entries[i] == (name, ServiceHealthy) {
        assert DepsOf(svc)[i] == (name, HealthyBefore);
      }
    }
  }

  lemma {:induction false} HealthyOfIs(entries: seq<(string, Condition)>, name: string)
    ensures name in HealthyOf(entries) <==> (name, ServiceHealthy) in entries
  {
    if entries != [] {
      HealthyOfIs(entries[1..], name);
    }
  }

  // ---------------------------------------------------------------------------
  // build_graph
  // ---------------------------------------------------------------------------

  ghost predicate DependsOnName(active: Table<Service>, v: nat, name: string) {
    v < |active| && exists k :: (name, k) in DepsOf(active[v].1)
  }

  /** Every `depends_on` entry is an edge, as often as it is written. */
  ghost predicate Represents(active: Table<Service>, g: ServiceGraph) {
    && |g.names| == |active| && (forall i :: 0 <= i < |active| ==> g.names[i] == active[i].0)
    && (forall v: nat :: v < |active| ==> v in g.inDegree && g.inDegree[v] == |DepsOf(active[v].1)|)
    && (forall u: nat, v: nat, k :: u < |active| && v < |active| ==>
          multiset(g.Outgoing(u))[(v, k)] == multiset(DepsOf(active[v].1))[(active[u].0, k)])
  }

  lemma DepIsDependsOn(active: Table<Service>, g: ServiceGraph, v: nat, u: nat)
    requires Represents(active, g) && u < |active|
    ensures Dep(g, v, u) <==> DependsOnName(active, v, active[u].0)
  {
    CountPositive(g.Outgoing(u), v);
    if v < |active| {
      forall k ensures (v, k) in g.Outgoing(u) <==> (active[u].0, k) in DepsOf(active[v].1) {
        assert (v, k) in g.Outgoing(u) <==> (v, k) in multiset(g.Outgoing(u));
        assert (active[u].0, k) in DepsOf(active[v].1) <==> (active[u].0, k) in multiset(DepsOf(active[v].1));
      }
      if e :| e in g.Outgoing(u) && e.0 == v {
        assert e == (v, e.1);
      }
    }
  }

  ghost predicate Unknown(active: Table<Service>, name: string) {
    forall i :: 0 <= i < |active| ==> active[i].0 != name
  }

  /** The entry `j` of service `v` is the first, in iteration order, that names no active service. */
  ghost predicate FirstUnknown(active: Table<Service>, v: nat, j: nat) {
    && v < |active| && j < |DepsOf(active[v].1)| && Unknown(active, DepsOf(active[v].1)[j].0)
    && (forall v', j' :: 0 <= v' < v && 0 <= j' < |DepsOf(active[v'].1)| ==> !Unknown(active, DepsOf(active[v'].1)[j'].0))
    && (forall j' :: 0 <= j' < j ==> !Unknown(active, DepsOf(active[v].1)[j'].0))
  }

  /** Nothing before entry `j` of service `v` is unknown. */
  ghost predicate KnownUpTo(active: Table<Service>, v: nat, j: nat) {
    && v <= |active|
    && (forall v', j' :: 0 <= v' < v && 0 <= j' < |DepsOf(active[v'].1)| ==> !Unknown(active, DepsOf(active[v'].1)[j'].0))
    && (v < |active| ==> forall j' :: 0 <= j' < j && j' < |DepsOf(active[v].1)| ==> !Unknown(active, DepsOf(active[v].1)[j'].0))
  }

  /** The entries of service `x` that have been turned into edges when the loops stand at entry `j` of service `v`. */
  function EntriesTaken(active: Table<Service>, v: nat, j: nat, x: nat): seq<(string, EdgeKind)>
    requires x < |active|
  {
    var deps := DepsOf(active[x].1);
    if x < v then deps else if x == v && j <= |deps| then deps[..j] else []
  }

  /** The graph so far: its shape, its in-degrees, and its edges with their multiplicities. */
  ghost predicate Shaped(active: Table<Service>, g: ServiceGraph) {
    && |g.names| == |active| && (forall i :: 0 <= i < |active| ==> g.names[i] == active[i].0)
    && (forall x: nat :: x in g.inDegree <==> x < |active|)
    && (forall u, e :: u in g.edges && e in g.edges[u] ==> e.0 < |active|)
  }

  ghost predicate Degrees(active: Table<Service>, g: ServiceGraph, v: nat, j: nat) {
    forall x: nat :: x < |active| && x in g.inDegree ==>
      g.inDegree[x] == |EntriesTaken(active, v, j, x)| && g.inDegree[x] == Inbound(g, x, {}, |active|)
  }

  ghost predicate Edges(active: Table<Service>, g: ServiceGraph, v: nat, j: nat) {
    forall u: nat, x: nat, k :: u < |active| && x < |active| ==>
      multiset(g.Outgoing(u))[(x, k)] == multiset(EntriesTaken(active, v, j, x))[(active[u].0, k)]
  }

  ghost predicate Building(active: Table<Service>, g: ServiceGraph, v: nat, j: nat) {
    Shaped(active, g) && Degrees(active, g, v, j) && Edges(active, g, v, j)
  }

  function AddEdge(g: ServiceGraph, u: nat, v: nat, k: EdgeKind): ServiceGraph
    requires v in g.inDegree
  {
    g.(edges := g.edges[u := g.Outgoing(u) + [(v, k)]], inDegree := g.inDegree[v := g.inDegree[v] + 1])
  }

  lemma {:induction false} InboundAdds(g: ServiceGraph, u: nat, v: nat, k: EdgeKind, x: nat, n: nat)
    requires v in g.inDegree
    ensures Inbound(AddEdge(g, u, v, k), x, {}, n) == Inbound(g, x, {}, n) + if u < n && x == v then 1 else 0
  {
    if n > 0 {
      InboundAdds(g, u, v, k, x, n - 1);
      if n - 1 == u {
        var old_, new_ := g.Outgoing(u), AddEdge(g, u, v, k).Outgoing(u);
        assert new_[..|new_| - 1] == old_;
      }
    }
  }

  lemma EdgeAdded(active: Table<Service>, g: ServiceGraph, v: nat, j: nat, u: nat)
    requires IsTable(active) && Building(active, g, v, j) && v < |active| && j < |DepsOf(active[v].1)|
    requires u < |active| && active[u].0 == DepsOf(active[v].1)[j].0
    ensures Building(active, AddEdge(g, u, v, DepsOf(active[v].1)[j].1), v, j + 1)
  {
    hide DepsOf, Inbound, Edges;
    var deps := DepsOf(active[v].1);
    var g' := AddEdge(g, u, v, deps[j].1);
    forall x: nat | x < |active| ensures g'.inDegree[x] == Inbound(g', x, {}, |active|) {
      InboundAdds(g, u, v, deps[j].1, x, |active|);
    }
    EdgeMultiplied(active, g, v, j, u);
  }

  lemma EdgeMultiplied(active: Table<Service>, g: ServiceGraph, v: nat, j: nat, u: nat)
    requires IsTable(active) && Shaped(active, g) && Edges(active, g, v, j) && v < |active| && j < |DepsOf(active[v].1)|
    requires u < |active| && active[u].0 == DepsOf(active[v].1)[j].0
    ensures Edges(active, AddEdge(g, u, v, DepsOf(active[v].1)[j].1), v, j + 1)
  {
    var k := DepsOf(active[v].1)[j].1;
    var g' := AddEdge(g, u, v, k);
    forall w: nat, x: nat, c | w < |active| && x < |active|
      ensures multiset(g'.Outgoing(w))[(x, c)] == multiset(EntriesTaken(active, v, j + 1, x))[(active[w].0, c)]
    {
      EdgeMultipliedAt(active, g, v, j, u, w, x, c);
    }
  }

  lemma EdgeMultipliedAt(active: Table<Service>, g: ServiceGraph, v: nat, j: nat, u: nat, w: nat, x: nat, c: EdgeKind)
    requires IsTable(active) && v < |active| && j < |DepsOf(active[v].1)| && v in g.inDegree
    requires u < |active| && active[u].0 == DepsOf(active[v].1)[j].0 && w < |active| && x < |active|
    requires multiset(g.Outgoing(w))[(x, c)] == multiset(EntriesTaken(active, v, j, x))[(active[w].0, c)]
    ensures multiset(AddEdge(g, u, v, DepsOf(active[v].1)[j].1).Outgoing(w))[(x, c)]
         == multiset(EntriesTaken(active, v, j + 1, x))[(active[w].0, c)]
  {
    hide DepsOf, IsTable;
    var dep := DepsOf(active[v].1)[j];
    var g' := AddEdge(g, u, v, dep.1);
    if x == v {
      assert EntriesTaken(active, v, j + 1, v) == EntriesTaken(active, v, j, v) + [dep];
    } else {
      assert EntriesTaken(active, v, j + 1, x) == EntriesTaken(active, v, j, x);
    }
    if w == u {
      assert g'.Outgoing(u) == g.Outgoing(u) + [(v, dep.1)];
    } else {
      assert g'.Outgoing(w) == g.Outgoing(w);
      if active[w].0 == active[u].0 {
        TableKeysDistinct(active, w, u);
      }
    }
  }

  lemma ServiceDone(active: Table<Service>, g: ServiceGraph, v: nat)
    requires v < |active| && Building(active, g, v, |DepsOf(active[v].1)|)
    ensures Building(active, g, v + 1, 0)
  {
    hide DepsOf, Inbound, Shaped;
    var deps := DepsOf(active[v].1);
    forall x: nat | x < |active| ensures EntriesTaken(active, v, |deps|, x) == EntriesTaken(active, v + 1, 0, x) {
      assert deps[..|deps|] == deps;
      assert DepsOf(active[x].1)[..0] == [];
    }
  }

  lemma AllDone(active: Table<Service>, g: ServiceGraph)
    requires Building(active, g, |active|, 0)
    ensures Represents(active, g) && WellFormed(g)
  {
    hide DepsOf, Inbound;
    forall x: nat | x < |active| ensures EntriesTaken(active, |active|, 0, x) == DepsOf(active[x].1) {
    }
  }

  lemma NothingBuilt(active: Table<Service>, g: ServiceGraph)
    requires g.edges == map[] && |g.names| == |active| && (forall i :: 0 <= i < |active| ==> g.names[i] == active[i].0)
    requires forall x: nat :: (x in g.inDegree <==> x < |active|) && (x < |active| ==> g.inDegree[x] == 0)
    ensures Building(active, g, 0, 0)
  {
    hide DepsOf;
    forall x: nat ensures Inbound(g, x, {}, |active|) == 0 {
      InboundZero(g, x, {}, |active|);
    }
  }

  method BuildGraph(active: Table<Service>) returns (r: Result<ServiceGraph, PlanError>)
    requires IsTable(active)
    ensures r.Ok? ==> Represents(active, r.value) && WellFormed(r.value) && KnownUpTo(active, |active|, 0)
    ensures r.Err? ==> exists v: nat, j: nat ::
                         FirstUnknown(active, v, j) && r.error == MissingDependency(active[v].0, DepsOf(active[v].1)[j].0)
  {
    hide Inbound, DepsOf, Degrees, Edges, IsTable, Represents, WellFormed;
    var names := seq(|active|, i requires 0 <= i < |active| => active[i].0);
    var inDegree: map<nat, nat> := map v | v in UpTo(|active|) :: 0;
    var g := ServiceGraph(names, map[], inDegree);
    NothingBuilt(active, g);
    for v := 0 to |active|
      invariant Building(active, g, v, 0) && KnownUpTo(active, v, 0)
    {
      var deps := DepsOf(active[v].1);
      for j := 0 to |deps|
        invariant Building(active, g, v, j) && KnownUpTo(active, v, j)
      {
        var to := IdOf(names, deps[j].0);
        if to.None? {
          assert FirstUnknown(active, v, j);
          return Err(MissingDependency(active[v].0, deps[j].0));
        }
        EdgeAdded(active, g, v, j, to.value);
        g := AddEdge(g, to.value, v, deps[j].1);
      }
      ServiceDone(active, g, v);
    }
    AllDone(active, g);
    return Ok(g);
  }

  /** The name table: the position of a name. */
  method IdOf(names: seq<string>, name: string) returns (id: Option<nat>)
    ensures id.Some? ==> id.value < |names| && names[id.value] == name
    ensures id.None? ==> name !in names
  {
    for i := 0 to |names|
      invariant name !in names[..i]
    {
      if names[i] == name {
        return Some(i);
      }
    }
    return None;
  }
}
