/** Which compose files have a plan, said of the file alone, and what each refusal means. */
module ComposeAcceptance {
  import opened Common
  import opened ComposeSchema
  import opened ComposeErrors
  import opened ServiceGraphs
  import opened ComposeDag
  import opened ComposeWaves
  import opened ComposeOrder
  import opened ComposePlan
  import opened ComposePlanShape
  import opened ComposeDeclared

  // ---------------------------------------------------------------------------
  // What the file says
  // ---------------------------------------------------------------------------

  ghost predicate IsWanted(c: Compose, opts: PlanOptions, name: string) {
    exists svc :: Wanted(c, opts, name, svc)
  }

  ghost predicate NetworkDeclared(c: Compose, network: string) {
    network == "default" || exists driver :: (network, driver) in c.networks
  }

  /** The mount uses the named volume `v`: in the short form, what stands before the first colon, unless it is a path. */
  ghost predicate UsesVolume(m: MountSpec, v: string) {
    match m
    case Short(text) =>
      && ':' !in v && (text == v || v + ":" <= text)
      && (v == "" || (v[0] != '.' && v[0] != '/'))
    case Long(mountType, source) => mountType == "volume" && source == Some(v)
  }

  ghost predicate VolumeDeclared(c: Compose, v: string) {
    exists driver :: (v, driver) in c.volumes
  }

  /** Wanted services, each named by the `depends_on` of the next. */
  ghost predicate DependencyPath(c: Compose, opts: PlanOptions, names: seq<string>) {
    && |names| >= 1 && IsWanted(c, opts, names[0])
    && forall i :: 0 <= i < |names| - 1 ==> Follows(c, opts, names[i], names[i + 1])
  }

  ghost predicate Follows(c: Compose, opts: PlanOptions, name: string, next: string) {
    exists svc :: Wanted(c, opts, next, svc) && NeedsService(svc, name)
  }

  ghost predicate DependencyCycle(c: Compose, opts: PlanOptions, names: seq<string>) {
    DependencyPath(c, opts, names) && |names| >= 2 && names[0] == names[|names| - 1]
  }

  /** On a cycle, or behind one. */
  ghost predicate HeldBack(c: Compose, opts: PlanOptions, name: string) {
    exists cycle, way ::
      DependencyCycle(c, opts, cycle) && DependencyPath(c, opts, way) && way[0] == cycle[0] && way[|way| - 1] == name
  }

  ghost predicate References(c: Compose, svc: Service) {
    && (forall n :: n in svc.networks ==> NetworkDeclared(c, n))
    && (forall m, v :: m in svc.volumes && UsesVolume(m, v) ==> VolumeDeclared(c, v))
  }

  /** The file can be planned. */
  ghost predicate Sound(c: Compose, opts: PlanOptions, hash: Service -> Option<string>) {
    && (forall p :: p in opts.profiles ==> exists e :: e in c.services && p in e.1.profiles)
    && (forall s :: s in opts.services ==> IsWanted(c, opts, s))
    && (forall name, svc :: Wanted(c, opts, name, svc) ==> References(c, svc))
    && (forall name, svc, other :: Wanted(c, opts, name, svc) && NeedsService(svc, other) ==> IsWanted(c, opts, other))
    && (forall names :: !DependencyCycle(c, opts, names))
    && (forall name, svc :: Wanted(c, opts, name, svc) ==> hash(svc) != None)
  }

  /** What an error says of the file. */
  ghost predicate Means(c: Compose, opts: PlanOptions, hash: Service -> Option<string>, error: PlanError) {
    match error
    case UnknownProfile(p) => p in opts.profiles && forall e :: e in c.services ==> p !in e.1.profiles
    case UnknownService(s) => s in opts.services && !IsWanted(c, opts, s)
    case UnknownNetwork(s, n) => !NetworkDeclared(c, n) && exists svc :: Wanted(c, opts, s, svc) && n in svc.networks
    case UnknownVolume(s, v) =>
      !VolumeDeclared(c, v) && exists svc, m :: Wanted(c, opts, s, svc) && m in svc.volumes && UsesVolume(m, v)
    case MissingDependency(s, other) => !IsWanted(c, opts, other) && exists svc :: Wanted(c, opts, s, svc) && NeedsService(svc, other)
    case Cycle(path) => path != [] && forall name :: name in path <==> HeldBack(c, opts, name)
    case ConfigHash(s) => exists svc :: Wanted(c, opts, s, svc) && hash(svc) == None
  }

  // ---------------------------------------------------------------------------
  // Names and references
  // ---------------------------------------------------------------------------

  lemma KeysAreWanted(c: Compose, opts: PlanOptions)
    requires IsTable(c.services)
    ensures forall name :: HasKey(Filter(c.services, opts.profiles), name) <==> IsWanted(c, opts, name)
  {
    hide Wanted;
    ActiveIsWanted(c, opts);
    var active := Filter(c.services, opts.profiles);
    forall name ensures HasKey(active, name) <==> IsWanted(c, opts, name) {
      if i :| 0 <= i < |active| && active[i].0 == name {
        assert (name, active[i].1) in active;
      }
      if svc :| Wanted(c, opts, name, svc) {
        var i :| 0 <= i < |active| && active[i] == (name, svc);
      }
    }
  }

  lemma {:induction false} FirstProfileIs(services: Table<Service>, profiles: seq<string>)
    ensures
      match FirstUnknownProfile(services, profiles)
      case None => forall p :: p in profiles ==> exists e :: e in services && p in e.1.profiles
      case Some(p) => p in profiles && forall e :: e in services ==> p !in e.1.profiles
  {
    if profiles != [] {
      FirstProfileIs(services, profiles[1..]);
      assert profiles == [profiles[0]] + profiles[1..];
      ProfileIsKnown(services, profiles[0]);
    }
  }

  lemma ProfileIsKnown(services: Table<Service>, profile: string)
    ensures ProfileKnown(services, profile) <==> exists e :: e in services && profile in e.1.profiles
  {
    if i :| 0 <= i < |services| && profile in services[i].1.profiles {
      assert services[i] in services;
    }
  }

  lemma {:induction false} MountSourceIs(text: string, v: string)
    ensures MountSource(text) == v <==> ':' !in v && (text == v || v + ":" <= text)
  {
    if text != [] && text[0] != ':' {
      assert text == [text[0]] + text[1..];
      if v != [] && v[0] == text[0] {
        MountSourceIs(text[1..], v[1..]);
        assert v == [v[0]] + v[1..];
        assert v + ":" == [v[0]] + (v[1..] + ":");
      }
      if v == [] {
        assert v + ":" == ":";
      }
    } else if v != [] {
      assert (v + ":")[0] == v[0];
    }
  }

  lemma MountVolumeIs(m: MountSpec, v: string)
    ensures MountVolume(m) == Some(v) <==> UsesVolume(m, v)
  {
    if m.Short? {
      MountSourceIs(m.text, v);
    }
  }

  lemma HasKeyIs<T(!new)>(t: Table<T>, key: string)
    ensures HasKey(t, key) <==> exists x :: (key, x) in t
  {
    if i :| 0 <= i < |t| && t[i].0 == key {
      assert t[i] == (key, t[i].1) && t[i] in t;
    }
    if x :| (key, x) in t {
      var i :| 0 <= i < |t| && t[i] == (key, x);
    }
  }

  lemma NetworkIs(c: Compose, n: string)
    ensures NetworkOk(c, n) <==> NetworkDeclared(c, n)
  {
    HasKeyIs(c.networks, n);
  }

  lemma ReferencesAre(c: Compose, svc: Service)
    ensures ReferencesOk(c, svc) <==> References(c, svc)
  {
    hide NetworkOk, NetworkDeclared, UsesVolume, MountVolume, HasKey;
    forall n ensures NetworkOk(c, n) <==> NetworkDeclared(c, n) {
      NetworkIs(c, n);
    }
    forall m, v ensures MountVolume(m) == Some(v) <==> UsesVolume(m, v) {
      MountVolumeIs(m, v);
    }
    forall v ensures HasKey(c.volumes, v) <==> VolumeDeclared(c, v) {
      HasKeyIs(c.volumes, v);
    }
    forall m ensures VolumeOk(c, m) <==> forall v :: UsesVolume(m, v) ==> VolumeDeclared(c, v) {
      assert MountVolume(m).Some? ==> UsesVolume(m, MountVolume(m).value);
    }
  }

  // ---------------------------------------------------------------------------
  // Cycles
  // ---------------------------------------------------------------------------

  function NameAt(active: Table<Service>, v: nat): string {
    if v < |active| then active[v].0 else ""
  }

  lemma EdgeFollows(c: Compose, opts: PlanOptions, g: ServiceGraph, v: nat, u: nat)
    requires IsTable(c.services) && Represents(Filter(c.services, opts.profiles), g) && u < |g.names| && v < |g.names|
    ensures
      var active := Filter(c.services, opts.profiles);
      Dep(g, v, u) <==> Follows(c, opts, NameAt(active, u), NameAt(active, v))
  {
    hide Wanted, NeedsService, DepsOf, Represents, Dep;
    var active := Filter(c.services, opts.profiles);
    SameSize(active, g);
    ActiveIsWanted(c, opts);
    DepIsDependsOn(active, g, v, u);
    assert active[v] in active && active[v] == (active[v].0, active[v].1);
    forall svc | Wanted(c, opts, active[v].0, svc) ensures svc == active[v].1 {
      SameEntry(active, active[v].0, svc, active[v].1);
    }
    DependencyIs(active[v].1, active[u].0);
  }

  /** The services along a chain of the graph. */
  function NamesAlong(active: Table<Service>, p: seq<nat>): seq<string> {
    seq(|p|, i requires 0 <= i < |p| => NameAt(active, p[i]))
  }

  lemma ChainIsPath(c: Compose, opts: PlanOptions, g: ServiceGraph, p: seq<nat>)
    requires IsTable(c.services) && Represents(Filter(c.services, opts.profiles), g) && Chain(g, p)
    ensures DependencyPath(c, opts, NamesAlong(Filter(c.services, opts.profiles), p))
  {
    hide Represents, Dep, Follows, IsWanted;
    var active := Filter(c.services, opts.profiles);
    SameSize(active, g);
    KeysAreWanted(c, opts);
    assert HasKey(active, active[p[0]].0);
    forall i | 0 <= i < |p| - 1 ensures Follows(c, opts, NameAt(active, p[i]), NameAt(active, p[i + 1])) {
      DepInRange(g, p[i + 1], p[i]);
      EdgeFollows(c, opts, g, p[i + 1], p[i]);
    }
  }

  lemma DepInRange(g: ServiceGraph, v: nat, u: nat)
    requires Dep(g, v, u)
    ensures v < |g.names| && u < |g.names|
  {}

  /** The node of a wanted service. */
  lemma NodeOf(c: Compose, opts: PlanOptions, name: string) returns (v: nat)
    requires IsTable(c.services) && IsWanted(c, opts, name)
    ensures
      var active := Filter(c.services, opts.profiles);
      v < |active| && active[v].0 == name
      && forall u: nat :: u < |active| && active[u].0 == name ==> u == v
  {
    KeysAreWanted(c, opts);
    ActiveIsWanted(c, opts);
    var active := Filter(c.services, opts.profiles);
    var i :| 0 <= i < |active| && active[i].0 == name;
    v := i;
    forall u: nat | u < |active| && active[u].0 == name ensures u == v {
      TableKeysDistinct(active, u, v);
    }
  }

  lemma {:induction false} PathIsChain(c: Compose, opts: PlanOptions, g: ServiceGraph, names: seq<string>) returns (p: seq<nat>)
    requires IsTable(c.services) && Represents(Filter(c.services, opts.profiles), g) && DependencyPath(c, opts, names)
    ensures Chain(g, p) && |p| == |names|
    ensures forall i :: 0 <= i < |p| ==> p[i] < |g.names| && NameAt(Filter(c.services, opts.profiles), p[i]) == names[i]
    decreases |names|
  {
    hide Represents, Dep, Follows, IsWanted;
    var active := Filter(c.services, opts.profiles);
    SameSize(active, g);
    if |names| == 1 {
      var v := NodeOf(c, opts, names[0]);
      p := [v];
    } else {
      var last := |names| - 1;
      var before := PathIsChain(c, opts, g, names[..last]);
      assert Follows(c, opts, names[last - 1], names[last]);
      FollowerIsWanted(c, opts, names[last - 1], names[last]);
      var v := NodeOf(c, opts, names[last]);
      EdgeFollows(c, opts, g, v, before[last - 1]);
      p := before + [v];
      forall i | 0 <= i < |p| - 1 ensures Dep(g, p[i + 1], p[i]) {
        if i < last - 1 {
          assert p[i + 1] == before[i + 1];
        }
      }
    }
  }

  lemma FollowerIsWanted(c: Compose, opts: PlanOptions, name: string, next: string)
    requires Follows(c, opts, name, next)
    ensures IsWanted(c, opts, next)
  {}

  lemma SameNameSameNode(c: Compose, opts: PlanOptions, u: nat, v: nat)
    requires IsTable(c.services)
    requires
      var active := Filter(c.services, opts.profiles);
      u < |active| && v < |active| && active[u].0 == active[v].0
    ensures u == v
  {
    ActiveIsWanted(c, opts);
    TableKeysDistinct(Filter(c.services, opts.profiles), u, v);
  }

  lemma CyclesAreDeclared(c: Compose, opts: PlanOptions, g: ServiceGraph)
    requires IsTable(c.services) && Represents(Filter(c.services, opts.profiles), g)
    ensures Cyclic(g) <==> exists names :: DependencyCycle(c, opts, names)
  {
    hide Represents, Dep, Follows, IsWanted;
    var active := Filter(c.services, opts.profiles);
    SameSize(active, g);
    if p :| ServiceGraphs.Cycle(g, p) {
      ChainIsPath(c, opts, g, p);
      assert DependencyCycle(c, opts, NamesAlong(active, p));
    }
    if names :| DependencyCycle(c, opts, names) {
      var p := PathIsChain(c, opts, g, names);
      SameNameSameNode(c, opts, p[0], p[|p| - 1]);
      assert ServiceGraphs.Cycle(g, p);
    }
  }

  lemma HeldBackIs(c: Compose, opts: PlanOptions, g: ServiceGraph, v: nat)
    requires IsTable(c.services) && Represents(Filter(c.services, opts.profiles), g) && v < |g.names|
    ensures OnOrAfterCycle(g, v) <==> HeldBack(c, opts, NameAt(Filter(c.services, opts.profiles), v))
  {
    hide Represents, Dep, Follows, IsWanted;
    var active := Filter(c.services, opts.profiles);
    SameSize(active, g);
    if OnOrAfterCycle(g, v) {
      var cycle, way :| ServiceGraphs.Cycle(g, cycle) && Leads(g, cycle[0], way, v);
      ChainIsPath(c, opts, g, cycle);
      ChainIsPath(c, opts, g, way);
      var names, on := NamesAlong(active, cycle), NamesAlong(active, way);
      assert DependencyCycle(c, opts, names) && DependencyPath(c, opts, on) && on[0] == names[0] && on[|on| - 1] == NameAt(active, v);
    }
    if HeldBack(c, opts, NameAt(active, v)) {
      var names, on :| DependencyCycle(c, opts, names) && DependencyPath(c, opts, on) && on[0] == names[0]
                       && on[|on| - 1] == NameAt(active, v);
      var cycle := PathIsChain(c, opts, g, names);
      var way := PathIsChain(c, opts, g, on);
      SameNameSameNode(c, opts, cycle[0], cycle[|cycle| - 1]);
      SameNameSameNode(c, opts, cycle[0], way[0]);
      SameNameSameNode(c, opts, way[|way| - 1], v);
      assert ServiceGraphs.Cycle(g, cycle) && Leads(g, cycle[0], way, v);
    }
  }

  // ---------------------------------------------------------------------------
  // Plans and faults
  // ---------------------------------------------------------------------------

  lemma KnownIsWanted(c: Compose, opts: PlanOptions)
    requires IsTable(c.services) && KnownUpTo(Filter(c.services, opts.profiles), |Filter(c.services, opts.profiles)|, 0)
    ensures forall name, svc, other :: Wanted(c, opts, name, svc) && NeedsService(svc, other) ==> IsWanted(c, opts, other)
  {
    hide Wanted, NeedsService, DepsOf, IsWanted;
    var active := Filter(c.services, opts.profiles);
    ActiveIsWanted(c, opts);
    KeysAreWanted(c, opts);
    forall name, svc, other | Wanted(c, opts, name, svc) && NeedsService(svc, other) ensures IsWanted(c, opts, other) {
      var v :| 0 <= v < |active| && active[v] == (name, svc);
      DependencyIs(svc, other);
      var kind :| (other, kind) in DepsOf(svc);
      var j :| 0 <= j < |DepsOf(active[v].1)| && DepsOf(active[v].1)[j] == (other, kind);
      assert !Unknown(active, other);
    }
  }

  lemma HashesAre(c: Compose, opts: PlanOptions, hash: Service -> Option<string>, p: Plan)
    requires IsTable(c.services) && PlanShape(FrameOf(c, opts, hash), p.ops)
    ensures forall name, svc :: Wanted(c, opts, name, svc) ==> hash(svc) != None
  {
    hide Wanted, PlanShape;
    var f := FrameOf(c, opts, hash);
    ActiveIsWanted(c, opts);
    forall name, svc | Wanted(c, opts, name, svc) ensures hash(svc) != None {
      EveryServiceHashed(f, p.ops, (name, svc));
    }
  }

  /** Whoever has a plan is sound. */
  lemma PlanIsSound(c: Compose, opts: PlanOptions, hash: Service -> Option<string>, p: Plan)
    requires Parsed(c) && IsPlan(c, opts, hash, p)
    ensures Sound(c, opts, hash)
  {
    hide Wanted, IsWanted, ReferencesOk, References, Represents, AreLayers, PlanShape, KnownUpTo, DependencyCycle, NeedsService, HasKey;
    var f := FrameOf(c, opts, hash);
    FirstProfileIs(c.services, opts.profiles);
    KeysAreWanted(c, opts);
    ActiveIsWanted(c, opts);
    KnownIsWanted(c, opts);
    HashesAre(c, opts, hash, p);
    forall name, svc | Wanted(c, opts, name, svc) ensures References(c, svc) {
      assert (name, svc) in f.active;
      ReferencesAre(c, svc);
    }
    var g :| Represents(f.active, g) && AreLayers(g, p.waves);
    LayersFit(g, p.waves);
    AllBelowIffAcyclic(g);
    CyclesAreDeclared(c, opts, g);
  }

  /** What an error means makes the file unsound. */
  lemma MeaningIsUnsound(c: Compose, opts: PlanOptions, hash: Service -> Option<string>, error: PlanError)
    requires Means(c, opts, hash, error)
    ensures !Sound(c, opts, hash)
  {
    hide Wanted, NeedsService, UsesVolume, IsWanted;
    match error
    case UnknownProfile(_) =>
    case UnknownService(_) =>
    case UnknownNetwork(_, _) =>
    case UnknownVolume(_, _) =>
    case MissingDependency(_, _) =>
    case Cycle(path) =>
      assert path[0] in path;
      var cycle, way :| DependencyCycle(c, opts, cycle) && DependencyPath(c, opts, way) && way[0] == cycle[0]
                        && way[|way| - 1] == path[0];
    case ConfigHash(_) =>
  }

  /** Every refusal means what its error says. */
  lemma FaultMeans(c: Compose, opts: PlanOptions, hash: Service -> Option<string>, error: PlanError)
    requires Parsed(c) && IsFault(c, opts, hash, error)
    ensures Means(c, opts, hash, error)
  {
    hide Wanted, IsWanted, ReferencesOk, Represents, AreLayers, KnownUpTo, NeedsService, HasKey, AreStuck, HeldBack, NetworkOk;
    var active := Filter(c.services, opts.profiles);
    FirstProfileIs(c.services, opts.profiles);
    KeysAreWanted(c, opts);
    ActiveIsWanted(c, opts);
    match error
    case UnknownProfile(_) =>
    case UnknownService(_) =>
    case UnknownNetwork(_, _) => BadReferenceMeans(c, opts, hash, error);
    case UnknownVolume(_, _) => BadReferenceMeans(c, opts, hash, error);
    case MissingDependency(_, _) => MissingMeans(c, opts, hash, error);
    case Cycle(path) =>
      CycleFaultMeans(c, opts, hash, path);
    case ConfigHash(s) =>
      var g, waves, w: nat, i: nat :|
        Represents(active, g) && AreLayers(g, waves) && FirstUnhashed(FrameOf(c, opts, hash), waves, w, i, s);
      var v := waves[w][i];
      assert active[v] == (s, active[v].1) && active[v] in active;
  }

  lemma BadReferenceMeans(c: Compose, opts: PlanOptions, hash: Service -> Option<string>, error: PlanError)
    requires IsTable(c.services) && exists i :: FirstBad(c, Filter(c.services, opts.profiles), i, error)
    ensures Means(c, opts, hash, error)
  {
    hide Wanted, UsesVolume, MountVolume, NetworkOk, HasKey, NetworkDeclared, ReferencesOk;
    var active := Filter(c.services, opts.profiles);
    ActiveIsWanted(c, opts);
    var i :| FirstBad(c, active, i, error);
    var name, svc := active[i].0, active[i].1;
    assert (name, svc) in active;
    if k :| BadNetwork(c, svc, k) && error == UnknownNetwork(name, svc.networks[k]) {
      NetworkIs(c, svc.networks[k]);
    } else {
      var k :| BadVolume(c, svc, k) && error == UnknownVolume(name, MountVolume(svc.volumes[k]).value);
      MountVolumeIs(svc.volumes[k], error.volume);
      HasKeyIs(c.volumes, error.volume);
    }
  }

  lemma MissingMeans(c: Compose, opts: PlanOptions, hash: Service -> Option<string>, error: PlanError)
    requires IsTable(c.services) && error.MissingDependency? && IsFault(c, opts, hash, error)
    ensures Means(c, opts, hash, error)
  {
    hide Wanted, NeedsService, DepsOf, IsWanted, NamesKnown, AllReferencesOk;
    var active := Filter(c.services, opts.profiles);
    ActiveIsWanted(c, opts);
    KeysAreWanted(c, opts);
    var v: nat, j: nat :| FirstUnknown(active, v, j) && error == MissingDependency(active[v].0, DepsOf(active[v].1)[j].0);
    assert active[v] in active && active[v] == (active[v].0, active[v].1);
    assert DepsOf(active[v].1)[j] in DepsOf(active[v].1);
    DependencyIs(active[v].1, error.toService);
    assert (error.toService, DepsOf(active[v].1)[j].1) in DepsOf(active[v].1);
  }

  lemma CycleFaultMeans(c: Compose, opts: PlanOptions, hash: Service -> Option<string>, path: seq<string>)
    requires IsTable(c.services) && IsFault(c, opts, hash, Cycle(path))
    ensures Means(c, opts, hash, Cycle(path))
  {
    hide HeldBack, Represents;
    var active := Filter(c.services, opts.profiles);
    var g, stuck :| Represents(active, g) && AreStuck(g, stuck) && path == NamesOf(g, stuck);
    CycleMeans(c, opts, g, stuck);
  }

  lemma CycleMeans(c: Compose, opts: PlanOptions, g: ServiceGraph, stuck: seq<nat>)
    requires IsTable(c.services) && Represents(Filter(c.services, opts.profiles), g) && AreStuck(g, stuck)
    requires forall v :: v in stuck ==> v < |g.names|
    ensures NamesOf(g, stuck) != []
    ensures forall name :: name in NamesOf(g, stuck) <==> HeldBack(c, opts, name)
  {
    var active := Filter(c.services, opts.profiles);
    SameSize(active, g);
    var path := NamesOf(g, stuck);
    assert |path| == |stuck| && stuck != [];
    hide HeldBack, OnOrAfterCycle, AreStuck;
    forall name ensures name in path <==> HeldBack(c, opts, name) {
      if i :| 0 <= i < |path| && path[i] == name {
        assert stuck[i] in stuck;
        NameOfNode(active, g, stuck[i]);
        StuckAreOnOrAfterCycle(g, stuck, stuck[i]);
        HeldBackIs(c, opts, g, stuck[i]);
      }
      if HeldBack(c, opts, name) {
        HeldBackIsWanted(c, opts, name);
        var v := NodeOf(c, opts, name);
        NameOfNode(active, g, v);
        HeldBackIs(c, opts, g, v);
        StuckAreOnOrAfterCycle(g, stuck, v);
        var i :| 0 <= i < |stuck| && stuck[i] == v;
        assert path[i] == name;
      }
    }
  }

  lemma NameOfNode(active: Table<Service>, g: ServiceGraph, v: nat)
    requires Represents(active, g) && v < |g.names|
    ensures |active| == |g.names| && g.names[v] == NameAt(active, v)
  {}

  lemma HeldBackIsWanted(c: Compose, opts: PlanOptions, name: string)
    requires HeldBack(c, opts, name)
    ensures IsWanted(c, opts, name)
  {
    hide Wanted, NeedsService;
    var cycle, way :| DependencyCycle(c, opts, cycle) && DependencyPath(c, opts, way) && way[0] == cycle[0]
                      && way[|way| - 1] == name;
    if |way| > 1 {
      assert Follows(c, opts, way[|way| - 2], way[|way| - 1]);
      FollowerIsWanted(c, opts, way[|way| - 2], name);
    }
  }

  /** What planning answers: a plan exactly for the sound files, and for the others an error that is true of the file. */
  lemma PlannedExactly(c: Compose, opts: PlanOptions, hash: Service -> Option<string>, r: Result<Plan, PlanError>)
    requires Parsed(c) && (r.Ok? ==> IsPlan(c, opts, hash, r.value)) && (r.Err? ==> IsFault(c, opts, hash, r.error))
    ensures r.Ok? <==> Sound(c, opts, hash)
    ensures r.Err? ==> Means(c, opts, hash, r.error)
  {
    hide IsPlan, IsFault, Sound, Means;
    if r.Ok? {
      PlanIsSound(c, opts, hash, r.value);
    } else {
      FaultMeans(c, opts, hash, r.error);
      MeaningIsUnsound(c, opts, hash, r.error);
    }
  }
}
