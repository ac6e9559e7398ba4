/** Turning a compose file into a list of operations, and what holds of every list it accepts. */
module ComposePlan {
  import opened Common
  import opened ComposeSchema
  import opened ComposeErrors
  import opened ServiceGraphs
  import opened ComposeDag
  import opened ComposeWaves

  datatype Op =
    | CreateNetwork(name: string, driver: Option<string>)
    | CreateVolume(name: string, driver: Option<string>)
    | BuildImage(service: string, context: string, tag: string)
    | PullImage(service: string, image: string)
    | RunContainer(service: string, image: string, containerName: string, configHash: string)
    | WaitHealthy(service: string, containerName: string)
    | StopContainer(containerName: string)
    | RemoveContainer(containerName: string)

  datatype PlanOptions = PlanOptions(profiles: seq<string>, projectName: Option<string>, services: seq<string>)

  datatype Plan = Plan(ops: seq<Op>, waves: seq<seq<nat>>, projectName: string)

  // ---------------------------------------------------------------------------
  // Names and images
  // ---------------------------------------------------------------------------

  function ProjectName(c: Compose, opts: PlanOptions): string {
    if opts.projectName.Some? then opts.projectName.value
    else if c.project.Some? then c.project.value
    else "project"
  }

  function ContainerName(project: string, service: string): string {
    project + "_" + service
  }

  function BuildTag(project: string, service: string): string {
    project + "_" + service + ":latest"
  }

  function ImageRef(project: string, name: string, svc: Service): string {
    if svc.build.Some? then BuildTag(project, name)
    else if svc.image.Some? then svc.image.value
    else ""
  }

  // ---------------------------------------------------------------------------
  // Profiles and references
  // ---------------------------------------------------------------------------

  predicate Active(svc: Service, profiles: seq<string>) {
    svc.profiles == [] || exists p :: p in svc.profiles && p in profiles
  }

  function Filter(services: Table<Service>, profiles: seq<string>): Table<Service> {
    if services == [] then []
    else (if Active(services[0].1, profiles) then [services[0]] else []) + Filter(services[1..], profiles)
  }

  lemma {:induction false} FilterIs(services: Table<Service>, profiles: seq<string>)
    requires IsTable(services)
    ensures IsTable(Filter(services, profiles))
    ensures forall e :: e in Filter(services, profiles) <==>
              e in services && (e.1.profiles == [] || exists p :: p in e.1.profiles && p in profiles)
  {
    if services != [] {
      FilterIs(services[1..], profiles);
      assert forall e :: e in services <==> e == services[0] || e in services[1..];
    }
  }

  predicate ProfileKnown(services: Table<Service>, profile: string) {
    exists i :: 0 <= i < |services| && profile in services[i].1.profiles
  }

  function FirstUnknownProfile(services: Table<Service>, profiles: seq<string>): Option<string> {
    if profiles == [] then None
    else if !ProfileKnown(services, profiles[0]) then Some(profiles[0])
    else FirstUnknownProfile(services, profiles[1..])
  }

  function FilterServices(c: Compose, profiles: seq<string>): Result<Table<Service>, PlanError> {
    match FirstUnknownProfile(c.services, profiles)
    case Some(p) => Err(UnknownProfile(p))
    case None => Ok(Filter(c.services, profiles))
  }

  predicate NetworkOk(c: Compose, network: string) {
    network == "default" || (c.networks != [] && HasKey(c.networks, network))
  }

  /** The text before the first colon. */
  function MountSource(text: string): string {
    if text == [] || text[0] == ':' then [] else [text[0]] + MountSource(text[1..])
  }

  function MountVolume(m: MountSpec): Option<string> {
    match m
    case Short(text) =>
      var source := MountSource(text);
      if source != [] && (source[0] == '.' || source[0] == '/') then None else Some(source)
    case Long(mountType, source) => if mountType == "volume" then source else None
  }

  predicate VolumeOk(c: Compose, m: MountSpec) {
    MountVolume(m).None? || HasKey(c.volumes, MountVolume(m).value)
  }

  ghost predicate ReferencesOk(c: Compose, svc: Service) {
    (forall n :: n in svc.networks ==> NetworkOk(c, n)) && (forall m :: m in svc.volumes ==> VolumeOk(c, m))
  }

  /** The first service with an undeclared reference is the one the error names. */
  ghost predicate FirstBad(c: Compose, active: Table<Service>, i: int, error: PlanError) {
    && 0 <= i < |active| && BadReference(c, active[i].0, active[i].1, error)
    && forall j :: 0 <= j < i ==> ReferencesOk(c, active[j].1)
  }

  method ValidateReferences(c: Compose, active: Table<Service>) returns (error: Option<PlanError>)
    ensures error.None? ==> forall i :: 0 <= i < |active| ==> ReferencesOk(c, active[i].1)
    ensures error.Some? ==> exists i :: FirstBad(c, active, i, error.value)
    ensures error.Some? ==> error.value.UnknownNetwork? || error.value.UnknownVolume?
  {
    for i := 0 to |active|
      invariant forall j :: 0 <= j < i ==> ReferencesOk(c, active[j].1)
    {
      var svc := active[i].1;
      for k := 0 to |svc.networks|
        invariant forall n :: n in svc.networks[..k] ==> NetworkOk(c, n)
      {
        if !NetworkOk(c, svc.networks[k]) {
          assert BadNetwork(c, svc, k);
          assert FirstBad(c, active, i, UnknownNetwork(active[i].0, svc.networks[k]));
          return Some(UnknownNetwork(active[i].0, svc.networks[k]));
        }
      }
      assert svc.networks[..|svc.networks|] == svc.networks;
      for k := 0 to |svc.volumes|
        invariant forall n :: n in svc.networks ==> NetworkOk(c, n)
        invariant forall m :: m in svc.volumes[..k] ==> VolumeOk(c, m)
      {
        if !VolumeOk(c, svc.volumes[k]) {
          assert BadVolume(c, svc, k);
          assert FirstBad(c, active, i, UnknownVolume(active[i].0, MountVolume(svc.volumes[k]).value));
          return Some(UnknownVolume(active[i].0, MountVolume(svc.volumes[k]).value));
        }
      }
      assert svc.volumes[..|svc.volumes|] == svc.volumes;
    }
    return None;
  }

  /** The first undeclared network, or else the first undeclared volume, of one service. */
  ghost predicate BadReference(c: Compose, name: string, svc: Service, error: PlanError) {
    || (exists k :: BadNetwork(c, svc, k) && error == UnknownNetwork(name, svc.networks[k]))
    || ((forall n :: n in svc.networks ==> NetworkOk(c, n))
        && exists k :: BadVolume(c, svc, k) && error == UnknownVolume(name, MountVolume(svc.volumes[k]).value))
  }

  ghost predicate BadNetwork(c: Compose, svc: Service, k: int) {
    0 <= k < |svc.networks| && !NetworkOk(c, svc.networks[k]) && forall n :: n in svc.networks[..k] ==> NetworkOk(c, n)
  }

  ghost predicate BadVolume(c: Compose, svc: Service, k: int) {
    0 <= k < |svc.volumes| && !VolumeOk(c, svc.volumes[k]) && forall m :: m in svc.volumes[..k] ==> VolumeOk(c, m)
  }

  // ---------------------------------------------------------------------------
  // The shape of a plan
  // ---------------------------------------------------------------------------

  /** What the operations are about: the active services, the declared networks and volumes, and the hashes. */
  datatype Frame = Frame(
    project: string,
    networks: Table<Option<string>>,
    volumes: Table<Option<string>>,
    active: Table<Service>,
    hash: Service -> Option<string>)

  ghost predicate HasRun(ops: seq<Op>, service: string) {
    exists op :: op in ops && op.RunContainer? && op.service == service
  }

  ghost predicate HasWait(ops: seq<Op>, service: string) {
    exists op :: op in ops && op.WaitHealthy? && op.service == service
  }

  ghost predicate HasImageOp(ops: seq<Op>, service: string) {
    exists op :: op in ops && (op.BuildImage? || op.PullImage?) && op.service == service
  }

  ghost predicate NeededHealthy(f: Frame, service: string) {
    exists e :: e in f.active && service in HealthyDependencies(e.1)
  }

  /** The build or pull that provides a service's image, if it has one. */
  function ImageOp(f: Frame, name: string, svc: Service): Option<Op> {
    if svc.build.Some? then Some(BuildImage(name, svc.build.value, ImageRef(f.project, name, svc)))
    else if svc.image.Some? then Some(PullImage(name, ImageRef(f.project, name, svc)))
    else None
  }

  predicate Creates(op: Op) {
    op.CreateNetwork? || op.CreateVolume?
  }

  predicate Starts(op: Op) {
    op.RunContainer? || op.WaitHealthy?
  }

  ghost predicate RunPlaced(f: Frame, before: seq<Op>, op: Op, svc: Service)
    requires op.RunContainer?
  {
    && (op.service, svc) in f.active
    && op.image == ImageRef(f.project, op.service, svc)
    && op.containerName == ContainerName(f.project, op.service) && Some(op.configHash) == f.hash(svc)
    && !HasRun(before, op.service)
    && (forall d :: d in DepsOf(svc) ==> HasRun(before, d.0))
    && (forall h :: h in HealthyDependencies(svc) ==> HasWait(before, h))
    && (ImageOp(f, op.service, svc).Some? ==> ImageOp(f, op.service, svc).value in before)
  }

  /** `op` may stand where `before` precedes it. */
  ghost predicate Placed(f: Frame, before: seq<Op>, op: Op) {
    match op
    case CreateNetwork(name, driver) =>
      (name, driver) in f.networks && op !in before && forall o :: o in before ==> o.CreateNetwork?
    case CreateVolume(name, driver) =>
      (name, driver) in f.volumes && op !in before && forall o :: o in before ==> Creates(o)
    case BuildImage(name, _, _) =>
      && !HasImageOp(before, name) && (forall o :: o in before ==> !Starts(o))
      && exists svc :: (name, svc) in f.active && ImageOp(f, name, svc) == Some(op)
    case PullImage(name, _) =>
      && !HasImageOp(before, name) && (forall o :: o in before ==> !Starts(o))
      && exists svc :: (name, svc) in f.active && ImageOp(f, name, svc) == Some(op)
    case RunContainer(name, _, _, _) => exists svc :: RunPlaced(f, before, op, svc)
    case WaitHealthy(name, containerName) =>
      && NeededHealthy(f, name) && containerName == ContainerName(f.project, name)
      && HasRun(before, name) && !HasWait(before, name)
    case _ => false
  }

  ghost predicate Ordered(f: Frame, ops: seq<Op>) {
    forall i :: 0 <= i < |ops| ==> Placed(f, ops[..i], ops[i])
  }

  ghost predicate Complete(f: Frame, ops: seq<Op>) {
    && (forall e :: e in f.networks ==> CreateNetwork(e.0, e.1) in ops)
    && (forall e :: e in f.volumes ==> CreateVolume(e.0, e.1) in ops)
    && (forall e :: e in f.active && ImageOp(f, e.0, e.1).Some? ==> ImageOp(f, e.0, e.1).value in ops)
    && (forall e :: e in f.active ==> HasRun(ops, e.0))
    && (forall s :: NeededHealthy(f, s) ==> HasWait(ops, s))
  }

  /**
   Networks first, then volumes, then one build or pull per service that has an
   image, then the containers: each started once, after everything it depends on
   and after a barrier for every service it needs healthy, of which there is one each.
   */
  ghost predicate PlanShape(f: Frame, ops: seq<Op>) {
    Ordered(f, ops) && Complete(f, ops)
  }

  lemma OrderedExtends(f: Frame, ops: seq<Op>, op: Op)
    requires Ordered(f, ops) && Placed(f, ops, op)
    ensures Ordered(f, ops + [op])
  {
    hide Placed;
    var more := ops + [op];
    forall i | 0 <= i < |more| ensures Placed(f, more[..i], more[i]) {
      assert more[..i] == if i < |ops| then ops[..i] else ops;
    }
  }

  /** Membership in a list with one more element. */
  lemma Grown(ops: seq<Op>, op: Op)
    ensures forall o :: o in ops + [op] <==> o in ops || o == op
    ensures forall s :: HasRun(ops + [op], s) <==> HasRun(ops, s) || (op.RunContainer? && op.service == s)
    ensures forall s :: HasWait(ops + [op], s) <==> HasWait(ops, s) || (op.WaitHealthy? && op.service == s)
    ensures forall s :: HasImageOp(ops + [op], s) <==> HasImageOp(ops, s) || ((op.BuildImage? || op.PullImage?) && op.service == s)
  {
    var more := ops + [op];
    assert more[|ops|] == op;
    assert forall o :: o in ops ==> o in more;
  }

  // ---------------------------------------------------------------------------
  // The order of the runs
  // ---------------------------------------------------------------------------

  /** The services started, in order. */
  function RunNames(ops: seq<Op>): seq<string> {
    if ops == [] then []
    else
      var before, last := RunNames(ops[..|ops| - 1]), ops[|ops| - 1];
      if last.RunContainer? then before + [last.service] else before
  }

  function WaveNames(active: Table<Service>, wave: seq<nat>): seq<string> {
    if wave == [] then []
    else
      var last := wave[|wave| - 1];
      WaveNames(active, wave[..|wave| - 1]) + if last < |active| then [active[last].0] else []
  }

  /** The services of all waves, wave after wave. */
  function AllNames(active: Table<Service>, waves: seq<seq<nat>>): seq<string> {
    if waves == [] then []
    else AllNames(active, waves[..|waves| - 1]) + WaveNames(active, waves[|waves| - 1])
  }

  lemma RunNamesGrow(ops: seq<Op>, op: Op)
    ensures RunNames(ops + [op]) == if op.RunContainer? then RunNames(ops) + [op.service] else RunNames(ops)
  {
    assert (ops + [op])[..|ops|] == ops;
  }

  lemma {:induction false} NoRunNames(ops: seq<Op>)
    requires forall o :: o in ops ==> !o.RunContainer?
    ensures RunNames(ops) == []
  {
    if ops != [] {
      assert ops[|ops| - 1] in ops;
      NoRunNames(ops[..|ops| - 1]);
    }
  }

  lemma WaveNamesGrow(active: Table<Service>, wave: seq<nat>, i: nat)
    requires i < |wave| && wave[i] < |active|
    ensures WaveNames(active, wave[..i + 1]) == WaveNames(active, wave[..i]) + [active[wave[i]].0]
  {
    assert wave[..i + 1][..i] == wave[..i];
  }

  // ---------------------------------------------------------------------------
  // plan: creation and image ops
  // ---------------------------------------------------------------------------

  ghost predicate NetworksUpTo(f: Frame, ops: seq<Op>, i: nat) {
    && i <= |f.networks| && Ordered(f, ops)
    && forall o :: o in ops <==> exists j :: 0 <= j < i && o == CreateNetwork(f.networks[j].0, f.networks[j].1)
  }

  ghost predicate VolumesUpTo(f: Frame, networks: seq<Op>, ops: seq<Op>, i: nat) {
    && i <= |f.volumes| && Ordered(f, ops)
    && forall o :: o in ops <==> o in networks || exists j :: 0 <= j < i && o == CreateVolume(f.volumes[j].0, f.volumes[j].1)
  }

  lemma NetworkEmitted(f: Frame, ops: seq<Op>, i: nat)
    requires IsTable(f.networks) && i < |f.networks| && NetworksUpTo(f, ops, i)
    ensures NetworksUpTo(f, ops + [CreateNetwork(f.networks[i].0, f.networks[i].1)], i + 1)
  {
    hide Ordered;
    var op := CreateNetwork(f.networks[i].0, f.networks[i].1);
    if j :| 0 <= j < i && op == CreateNetwork(f.networks[j].0, f.networks[j].1) {
      TableKeysDistinct(f.networks, i, j);
    }
    assert f.networks[i] in f.networks;
    OrderedExtends(f, ops, op);
    Grown(ops, op);
  }

  lemma VolumeEmitted(f: Frame, networks: seq<Op>, ops: seq<Op>, i: nat)
    requires IsTable(f.volumes) && i < |f.volumes| && VolumesUpTo(f, networks, ops, i)
    requires forall o :: o in networks ==> o.CreateNetwork?
    ensures VolumesUpTo(f, networks, ops + [CreateVolume(f.volumes[i].0, f.volumes[i].1)], i + 1)
  {
    hide Ordered;
    var op := CreateVolume(f.volumes[i].0, f.volumes[i].1);
    if j :| 0 <= j < i && op == CreateVolume(f.volumes[j].0, f.volumes[j].1) {
      TableKeysDistinct(f.volumes, i, j);
    }
    assert f.volumes[i] in f.volumes;
    OrderedExtends(f, ops, op);
    Grown(ops, op);
  }

  method EmitCreates(f: Frame) returns (ops: seq<Op>)
    requires IsTable(f.networks) && IsTable(f.volumes)
    ensures Ordered(f, ops) && (forall o :: o in ops ==> Creates(o))
    ensures forall e :: e in f.networks ==> CreateNetwork(e.0, e.1) in ops
    ensures forall e :: e in f.volumes ==> CreateVolume(e.0, e.1) in ops
  {
    hide Ordered, IsTable;
    ops := [];
    assert Ordered(f, ops) by { NothingOrdered(f); }
    for i := 0 to |f.networks|
      invariant NetworksUpTo(f, ops, i)
    {
      NetworkEmitted(f, ops, i);
      ops := ops + [CreateNetwork(f.networks[i].0, f.networks[i].1)];
    }
    ghost var networks := ops;
    for i := 0 to |f.volumes|
      invariant VolumesUpTo(f, networks, ops, i)
    {
      VolumeEmitted(f, networks, ops, i);
      ops := ops + [CreateVolume(f.volumes[i].0, f.volumes[i].1)];
    }
  }

  lemma NothingOrdered(f: Frame)
    ensures Ordered(f, [])
  {
  }

  ghost predicate ImagesUpTo(f: Frame, ops: seq<Op>, i: nat) {
    && i <= |f.active|
    && (forall o :: o in ops ==> !Starts(o))
    && (forall j :: 0 <= j < i && ImageOp(f, f.active[j].0, f.active[j].1).Some? ==> ImageOp(f, f.active[j].0, f.active[j].1).value in ops)
    && (forall s :: HasImageOp(ops, s) ==> exists j :: 0 <= j < i && f.active[j].0 == s)
  }

  method EmitImages(f: Frame, creates: seq<Op>) returns (ops: seq<Op>)
    requires IsTable(f.active) && Ordered(f, creates) && (forall o :: o in creates ==> Creates(o))
    ensures Ordered(f, ops) && ImagesUpTo(f, ops, |f.active|) && (forall o :: o in creates ==> o in ops)
  {
    ops := creates;
    for i := 0 to |f.active|
      invariant Ordered(f, ops) && ImagesUpTo(f, ops, i) && (forall o :: o in creates ==> o in ops)
    {
      var (name, svc) := f.active[i];
      ghost var was := ops;
      if svc.build.Some? {
        ops := ops + [BuildImage(name, svc.build.value, BuildTag(f.project, name))];
      } else if svc.image.Some? {
        ops := ops + [PullImage(name, svc.image.value)];
      }
      ImageEmitted(f, was, i, ops);
    }
  }

  lemma ImageEmitted(f: Frame, was: seq<Op>, i: nat, ops: seq<Op>)
    requires IsTable(f.active) && Ordered(f, was) && i < |f.active| && ImagesUpTo(f, was, i)
    requires
      var op := ImageOp(f, f.active[i].0, f.active[i].1);
      ops == if op.Some? then was + [op.value] else was
    ensures Ordered(f, ops) && ImagesUpTo(f, ops, i + 1) && forall o :: o in was ==> o in ops
  {
    hide Ordered, Placed, HasImageOp, IsTable;
    var (name, svc) := f.active[i];
    if ImageOp(f, name, svc).Some? {
      var op := ImageOp(f, name, svc).value;
      if HasImageOp(was, name) {
        var j :| 0 <= j < i && f.active[j].0 == name;
        TableKeysDistinct(f.active, i, j);
      }
      assert Placed(f, was, op) by { ImageIsPlaced(f, was, i); }
      OrderedExtends(f, was, op);
      Grown(was, op);
    }
  }

  lemma ImageIsPlaced(f: Frame, was: seq<Op>, i: nat)
    requires i < |f.active| && ImageOp(f, f.active[i].0, f.active[i].1).Some?
    requires !HasImageOp(was, f.active[i].0) && forall o :: o in was ==> !Starts(o)
    ensures Placed(f, was, ImageOp(f, f.active[i].0, f.active[i].1).value)
  {
    hide HasImageOp;
    assert f.active[i] in f.active;
  }

  // ---------------------------------------------------------------------------
  // plan: the waves
  // ---------------------------------------------------------------------------

  ghost predicate IsNamed(f: Frame, nodes: set<nat>, s: string) {
    exists v: nat :: v in nodes && v < |f.active| && f.active[v].0 == s
  }

  /** Exactly the services of `done` have been started; exactly those of `emitted` have their barrier. */
  ghost predicate Progress(f: Frame, ops: seq<Op>, done: set<nat>, emitted: set<string>) {
    && Ordered(f, ops)
    && (forall e :: e in f.networks ==> CreateNetwork(e.0, e.1) in ops)
    && (forall e :: e in f.volumes ==> CreateVolume(e.0, e.1) in ops)
    && (forall e :: e in f.active && ImageOp(f, e.0, e.1).Some? ==> ImageOp(f, e.0, e.1).value in ops)
    && (forall s :: HasRun(ops, s) <==> IsNamed(f, done, s))
    && (forall s :: HasWait(ops, s) <==> s in emitted)
    && (forall s :: s in emitted ==> NeededHealthy(f, s))
  }

  /** The barriers the services of `nodes` need have been emitted. */
  ghost predicate Covered(f: Frame, nodes: set<nat>, emitted: set<string>) {
    forall v: nat, h :: v in nodes && v < |f.active| && h in HealthyDependencies(f.active[v].1) ==> h in emitted
  }

  lemma WaitEmitted(f: Frame, ops: seq<Op>, done: set<nat>, emitted: set<string>, dep: string)
    requires Progress(f, ops, done, emitted) && dep !in emitted && IsNamed(f, done, dep) && NeededHealthy(f, dep)
    ensures Progress(f, ops + [WaitHealthy(dep, ContainerName(f.project, dep))], done, emitted + {dep})
  {
    hide Ordered, IsNamed, NeededHealthy, HealthyDependencies, ImageOp;
    var op := WaitHealthy(dep, ContainerName(f.project, dep));
    OrderedExtends(f, ops, op);
    Grown(ops, op);
  }

  lemma RunEmitted(f: Frame, ops: seq<Op>, done: set<nat>, emitted: set<string>, v: nat, hash: string)
    requires IsTable(f.active) && Progress(f, ops, done, emitted) && v < |f.active| && v !in done
    requires Some(hash) == f.hash(f.active[v].1)
    requires forall d :: d in DepsOf(f.active[v].1) ==> IsNamed(f, done, d.0)
    requires forall h :: h in HealthyDependencies(f.active[v].1) ==> h in emitted
    ensures
      var (name, svc) := f.active[v];
      Progress(f, ops + [RunContainer(name, ImageRef(f.project, name, svc), ContainerName(f.project, name), hash)],
               done + {v}, emitted)
  {
    hide Ordered, NeededHealthy, HealthyDependencies, DepsOf, ImageOp;
    var (name, svc) := f.active[v];
    var op := RunContainer(name, ImageRef(f.project, name, svc), ContainerName(f.project, name), hash);
    assert f.active[v] in f.active;
    if IsNamed(f, done, name) {
      var u: nat :| u in done && u < |f.active| && f.active[u].0 == name;
      TableKeysDistinct(f.active, u, v);
    }
    assert RunPlaced(f, ops, op, svc);
    OrderedExtends(f, ops, op);
    Grown(ops, op);
    forall s ensures IsNamed(f, done + {v}, s) <==> IsNamed(f, done, s) || s == name {
      if s == name {
        assert v in done + {v};
      }
    }
  }

  /** A wave's dependencies are all services of earlier waves. */
  lemma DependenciesDone(f: Frame, g: ServiceGraph, w: nat, v: nat, name: string)
    requires Represents(f.active, g) && KnownUpTo(f.active, |f.active|, 0)
    requires v in Layer(g, w) && v < |f.active| && exists k :: (name, k) in DepsOf(f.active[v].1)
    ensures IsNamed(f, Below(g, w), name)
  {
    hide DepsOf, Dep;
    var k :| (name, k) in DepsOf(f.active[v].1);
    var j :| 0 <= j < |DepsOf(f.active[v].1)| && DepsOf(f.active[v].1)[j] == (name, k);
    assert !Unknown(f.active, name);
    var u: nat :| u < |f.active| && f.active[u].0 == name;
    DepIsDependsOn(f.active, g, v, u);
    assert v in Below(g, w + 1);
  }

  lemma OneMore(wave: seq<nat>, i: nat)
    requires i < |wave|
    ensures Visited(wave, i + 1) == Visited(wave, i) + {wave[i]}
  {
  }

  /** The barriers one wave needs, each service's at most once in the whole plan. */
  method EmitWaits(f: Frame, ghost g: ServiceGraph, ghost w: nat, wave: seq<nat>, before: seq<Op>, had: set<string>)
    returns (ops: seq<Op>, emitted: set<string>)
    requires Represents(f.active, g) && KnownUpTo(f.active, |f.active|, 0) && Lists(wave, Layer(g, w))
    requires forall v :: v in wave ==> v < |f.active|
    requires Progress(f, before, Below(g, w), had) && Covered(f, Below(g, w), had)
    ensures Progress(f, ops, Below(g, w), emitted) && Covered(f, Below(g, w), emitted)
    ensures Covered(f, Visited(wave, |wave|), emitted)
    ensures RunNames(ops) == RunNames(before)
  {
    hide Progress, Below, Represents, KnownUpTo, HealthyDependencies, DepsOf, NeededHealthy, IsNamed, RunNames;
    ops, emitted := before, had;
    for i := 0 to |wave|
      invariant Progress(f, ops, Below(g, w), emitted) && had <= emitted
      invariant Covered(f, Visited(wave, i), emitted) && RunNames(ops) == RunNames(before)
    {
      assert wave[i] in wave;
      var svc := f.active[wave[i]].1;
      var needs := HealthyDependencies(svc);
      for j := 0 to |needs|
        invariant Progress(f, ops, Below(g, w), emitted) && had <= emitted
        invariant Covered(f, Visited(wave, i), emitted) && RunNames(ops) == RunNames(before)
        invariant forall h :: h in needs[..j] ==> h in emitted
      {
        var dep := needs[j];
        if dep !in emitted {
          assert dep in needs;
          HealthyIsAnEdgeKind(svc, dep);
          DependenciesDone(f, g, w, wave[i], dep);
          assert NeededHealthy(f, dep) by { IsNeeded(f, wave[i], dep); }
          WaitEmitted(f, ops, Below(g, w), emitted, dep);
          RunNamesGrow(ops, WaitHealthy(dep, ContainerName(f.project, dep)));
          ops := ops + [WaitHealthy(dep, ContainerName(f.project, dep))];
          emitted := emitted + {dep};
        }
      }
      assert needs[..|needs|] == needs;
      OneMore(wave, i);
    }
  }

  lemma IsNeeded(f: Frame, v: nat, name: string)
    requires v < |f.active| && name in HealthyDependencies(f.active[v].1)
    ensures NeededHealthy(f, name)
  {
    assert f.active[v] in f.active;
  }

  /** The services of `nodes` can be hashed. */
  ghost predicate Hashed(f: Frame, nodes: seq<nat>) {
    forall v :: v in nodes && v < |f.active| ==> f.hash(f.active[v].1).Some?
  }

  ghost predicate UnhashedAt(f: Frame, wave: seq<nat>, i: nat)
    requires i < |wave|
  {
    wave[i] < |f.active| && f.hash(f.active[wave[i]].1).None? && Hashed(f, wave[..i])
  }

  /** In the order of the waves, the `i`th service of wave `w` is the first that cannot be hashed. */
  ghost predicate FirstUnhashed(f: Frame, waves: seq<seq<nat>>, w: nat, i: nat, name: string) {
    && w < |waves| && i < |waves[w]| && UnhashedAt(f, waves[w], i) && name == f.active[waves[w][i]].0
    && forall u :: 0 <= u < w ==> Hashed(f, waves[u])
  }

  lemma AllDependenciesDone(f: Frame, g: ServiceGraph, w: nat, v: nat, more: set<nat>)
    requires IsTable(f.active) && Represents(f.active, g) && KnownUpTo(f.active, |f.active|, 0)
    requires v in Layer(g, w) && v < |f.active|
    ensures forall d :: d in DepsOf(f.active[v].1) ==> IsNamed(f, Below(g, w) + more, d.0)
  {
    hide Below, Represents, KnownUpTo, DepsOf, IsNamed, IsTable;
    forall d | d in DepsOf(f.active[v].1) ensures IsNamed(f, Below(g, w) + more, d.0) {
      assert (d.0, d.1) in DepsOf(f.active[v].1);
      DependenciesDone(f, g, w, v, d.0);
      NamedGrows(f, Below(g, w), Below(g, w) + more, d.0);
    }
  }

  /** Where the loop over wave `w` stands: its first `i` services have been started. */
  ghost predicate RunsSoFar(
    f: Frame, g: ServiceGraph, w: nat, wave: seq<nat>, i: nat, before: seq<Op>, ops: seq<Op>, emitted: set<string>)
  {
    && i <= |wave| && (forall v :: v in wave ==> v < |f.active|)
    && Progress(f, ops, Below(g, w) + Visited(wave, i), emitted)
    && RunNames(ops) == RunNames(before) + WaveNames(f.active, wave[..i])
    && Hashed(f, wave[..i])
  }

  function RunOf(f: Frame, v: nat, hash: string): Op
    requires v < |f.active|
  {
    var (name, svc) := f.active[v];
    RunContainer(name, ImageRef(f.project, name, svc), ContainerName(f.project, name), hash)
  }

  ghost predicate InWave(f: Frame, g: ServiceGraph, w: nat, wave: seq<nat>, emitted: set<string>) {
    && IsTable(f.active) && Represents(f.active, g) && KnownUpTo(f.active, |f.active|, 0)
    && Lists(wave, Layer(g, w)) && Covered(f, Visited(wave, |wave|), emitted)
  }

  lemma RunsBegin(f: Frame, g: ServiceGraph, w: nat, wave: seq<nat>, before: seq<Op>, emitted: set<string>)
    requires Progress(f, before, Below(g, w), emitted) && forall v :: v in wave ==> v < |f.active|
    ensures RunsSoFar(f, g, w, wave, 0, before, before, emitted)
  {
    hide Progress, Below, RunNames, WaveNames;
    NoWaveNames(f.active, wave);
    assert Below(g, w) + Visited(wave, 0) == Below(g, w);
  }

  lemma OneRun(
    f: Frame, g: ServiceGraph, w: nat, wave: seq<nat>, i: nat, before: seq<Op>, ops: seq<Op>, emitted: set<string>, hash: string)
    requires InWave(f, g, w, wave, emitted) && RunsSoFar(f, g, w, wave, i, before, ops, emitted) && i < |wave|
    requires wave[i] < |f.active| && f.hash(f.active[wave[i]].1) == Some(hash)
    ensures RunsSoFar(f, g, w, wave, i + 1, before, ops + [RunOf(f, wave[i], hash)], emitted)
  {
    hide Progress, Below, Represents, KnownUpTo, HealthyDependencies, DepsOf, NeededHealthy, IsNamed, IsTable, RunNames, WaveNames;
    var v := wave[i];
    assert v in wave && v in Layer(g, w) && v in Visited(wave, |wave|);
    assert v !in Visited(wave, i);
    AllDependenciesDone(f, g, w, v, Visited(wave, i));
    RunEmitted(f, ops, Below(g, w) + Visited(wave, i), emitted, v, hash);
    RunNamesGrow(ops, RunOf(f, v, hash));
    WaveNamesGrow(f.active, wave, i);
    OneMore(wave, i);
    assert Below(g, w) + Visited(wave, i) + {v} == Below(g, w) + Visited(wave, i + 1);
    assert wave[..i + 1] == wave[..i] + [v];
  }

  lemma RunsEnd(f: Frame, g: ServiceGraph, w: nat, wave: seq<nat>, before: seq<Op>, ops: seq<Op>, emitted: set<string>)
    requires Lists(wave, Layer(g, w)) && RunsSoFar(f, g, w, wave, |wave|, before, ops, emitted)
    ensures Progress(f, ops, Below(g, w + 1), emitted)
    ensures RunNames(ops) == RunNames(before) + WaveNames(f.active, wave) && Hashed(f, wave)
  {
    hide Progress, Below, RunNames, WaveNames;
    BelowGrows(g, w);
    assert wave[..|wave|] == wave;
    assert Below(g, w) + Visited(wave, |wave|) == Below(g, w + 1);
  }

  /** The containers of one wave. */
  method EmitRuns(f: Frame, ghost g: ServiceGraph, ghost w: nat, wave: seq<nat>, before: seq<Op>, ghost emitted: set<string>)
    returns (r: Result<seq<Op>, PlanError>)
    requires InWave(f, g, w, wave, emitted) && Progress(f, before, Below(g, w), emitted)
    requires forall v :: v in wave ==> v < |f.active|
    ensures r.Ok? ==> Progress(f, r.value, Below(g, w + 1), emitted)
    ensures r.Ok? ==> RunNames(r.value) == RunNames(before) + WaveNames(f.active, wave)
    ensures r.Ok? ==> Hashed(f, wave)
    ensures r.Err? ==> exists i: nat :: i < |wave| && UnhashedAt(f, wave, i) && r.error == ConfigHash(f.active[wave[i]].0)
  {
    hide Progress, Below, RunNames, WaveNames;
    var ops := before;
    RunsBegin(f, g, w, wave, before, emitted);
    for i := 0 to |wave|
      invariant RunsSoFar(f, g, w, wave, i, before, ops, emitted)
    {
      hide InWave, RunsSoFar;
      assert wave[i] in wave;
      var (name, svc) := f.active[wave[i]];
      var hash := f.hash(svc);
      if hash.None? {
        assert UnhashedAt(f, wave, i) by { HashedBefore(f, g, w, wave, i, before, ops, emitted); }
        return Err(ConfigHash(name));
      }
      var image := if svc.build.Some? then BuildTag(f.project, name) else if svc.image.Some? then svc.image.value else "";
      OneRun(f, g, w, wave, i, before, ops, emitted, hash.value);
      ops := ops + [RunContainer(name, image, ContainerName(f.project, name), hash.value)];
    }
    RunsEnd(f, g, w, wave, before, ops, emitted);
    return Ok(ops);
  }

  lemma HashedBefore(f: Frame, g: ServiceGraph, w: nat, wave: seq<nat>, i: nat, before: seq<Op>, ops: seq<Op>, emitted: set<string>)
    requires RunsSoFar(f, g, w, wave, i, before, ops, emitted)
    ensures Hashed(f, wave[..i])
  {
    hide Progress, RunNames, WaveNames;
  }

  lemma NoWaveNames(active: Table<Service>, wave: seq<nat>)
    ensures WaveNames(active, wave[..0]) == []
  {}

  lemma NamedGrows(f: Frame, nodes: set<nat>, more: set<nat>, s: string)
    requires IsNamed(f, nodes, s) && nodes <= more
    ensures IsNamed(f, more, s)
  {
  }

  method EmitWaves(f: Frame, ghost g: ServiceGraph, waves: seq<seq<nat>>, images: seq<Op>)
    returns (r: Result<seq<Op>, PlanError>)
    requires IsTable(f.active) && Represents(f.active, g) && KnownUpTo(f.active, |f.active|, 0) && AreLayers(g, waves)
    requires Progress(f, images, {}, {}) && RunNames(images) == []
    ensures r.Ok? ==> exists emitted :: Progress(f, r.value, Nodes(g), emitted) && Covered(f, Nodes(g), emitted)
    ensures r.Ok? ==> RunNames(r.value) == AllNames(f.active, waves)
    ensures r.Err? ==> exists w: nat, i: nat, name :: FirstUnhashed(f, waves, w, i, name) && r.error == ConfigHash(name)
  {
    hide Progress, Represents, KnownUpTo, HealthyDependencies, DepsOf, NeededHealthy, IsNamed, IsTable;
    hide AreLayers, Below, Covered, Lists, RunNames, WaveNames, Hashed;
    var ops, emitted := images, {};
    StartsEmpty(f, g, waves);
    for w := 0 to |waves|
      invariant Progress(f, ops, Below(g, w), emitted) && Covered(f, Below(g, w), emitted)
      invariant RunNames(ops) == AllNames(f.active, waves[..w])
      invariant forall u :: 0 <= u < w ==> Hashed(f, waves[u])
    {
      var wave := waves[w];
      assert waves[..w + 1][..w] == waves[..w];
      WaveFacts(f, g, waves, w);
      ops, emitted := EmitWaits(f, g, w, wave, ops, emitted);
      var ran := EmitRuns(f, g, w, wave, ops, emitted);
      if ran.Err? {
        ghost var i: nat :| i < |wave| && UnhashedAt(f, wave, i) && ran.error == ConfigHash(f.active[wave[i]].0);
        assert FirstUnhashed(f, waves, w, i, f.active[wave[i]].0);
        return Err(ran.error);
      }
      ops := ran.value;
      CoverageJoins(f, g, w, wave, emitted);
    }
    assert waves[..|waves|] == waves;
    return Ok(ops);
  }

  lemma NothingStarted(f: Frame, ops: seq<Op>)
    requires Ordered(f, ops) && ImagesUpTo(f, ops, |f.active|)
    requires forall e :: e in f.networks ==> CreateNetwork(e.0, e.1) in ops
    requires forall e :: e in f.volumes ==> CreateVolume(e.0, e.1) in ops
    ensures Progress(f, ops, {}, {})
  {
    hide Ordered, ImageOp;
  }

  lemma ShapeReached(f: Frame, g: ServiceGraph, ops: seq<Op>, emitted: set<string>)
    requires Represents(f.active, g) && Progress(f, ops, Nodes(g), emitted) && Covered(f, Nodes(g), emitted)
    ensures PlanShape(f, ops)
  {
    hide Ordered, ImageOp, HealthyDependencies, DepsOf;
    forall e | e in f.active ensures HasRun(ops, e.0) {
      var v: nat :| v < |f.active| && f.active[v] == e;
      assert v in Nodes(g);
    }
    forall s | NeededHealthy(f, s) ensures HasWait(ops, s) {
      var e :| e in f.active && s in HealthyDependencies(e.1);
      var v: nat :| v < |f.active| && f.active[v] == e;
      assert v in Nodes(g);
    }
  }

  lemma StartsEmpty(f: Frame, g: ServiceGraph, waves: seq<seq<nat>>)
    requires AreLayers(g, waves)
    ensures Below(g, 0) == {} && Covered(f, {}, {}) && Below(g, |waves|) == Nodes(g)
  {
  }

  lemma WaveFacts(f: Frame, g: ServiceGraph, waves: seq<seq<nat>>, w: nat)
    requires Represents(f.active, g) && AreLayers(g, waves) && w < |waves|
    ensures Lists(waves[w], Layer(g, w)) && forall v :: v in waves[w] ==> v < |f.active|
  {
    hide Below, DepsOf;
    BelowGrows(g, w);
  }

  lemma CoverageJoins(f: Frame, g: ServiceGraph, w: nat, wave: seq<nat>, emitted: set<string>)
    requires Lists(wave, Layer(g, w)) && Covered(f, Below(g, w), emitted) && Covered(f, Visited(wave, |wave|), emitted)
    ensures Covered(f, Below(g, w + 1), emitted)
  {
    hide Below, HealthyDependencies;
    BelowGrows(g, w);
    assert wave[..|wave|] == wave;
    assert Below(g, w + 1) == Below(g, w) + Visited(wave, |wave|);
  }

  // ---------------------------------------------------------------------------
  // plan
  // ---------------------------------------------------------------------------

  function FrameOf(c: Compose, opts: PlanOptions, hash: Service -> Option<string>): Frame {
    Frame(ProjectName(c, opts), c.networks, c.volumes, Filter(c.services, opts.profiles), hash)
  }

  /** An accepted input has no fault of any kind, and its plan has the shape. */
  ghost predicate IsPlan(c: Compose, opts: PlanOptions, hash: Service -> Option<string>, p: Plan) {
    var f := FrameOf(c, opts, hash);
    && p.projectName == f.project
    && FirstUnknownProfile(c.services, opts.profiles).None?
    && (forall s :: s in opts.services ==> HasKey(f.active, s))
    && (forall e :: e in f.active ==> ReferencesOk(c, e.1))
    && KnownUpTo(f.active, |f.active|, 0)
    && (exists g :: Represents(f.active, g) && AreLayers(g, p.waves))
    && PlanShape(f, p.ops)
    && RunNames(p.ops) == AllNames(f.active, p.waves)
  }

  /** How far planning gets: which of its checks a file passes before the one it fails. */
  ghost predicate NamesKnown(c: Compose, opts: PlanOptions) {
    && FirstUnknownProfile(c.services, opts.profiles).None?
    && forall s :: s in opts.services ==> HasKey(Filter(c.services, opts.profiles), s)
  }

  ghost predicate AllReferencesOk(c: Compose, opts: PlanOptions) {
    forall e :: e in Filter(c.services, opts.profiles) ==> ReferencesOk(c, e.1)
  }

  /** A refused input has the fault the error names, and passes every check that comes before. */
  ghost predicate IsFault(c: Compose, opts: PlanOptions, hash: Service -> Option<string>, error: PlanError) {
    var active := Filter(c.services, opts.profiles);
    match error
    case UnknownProfile(p) => FirstUnknownProfile(c.services, opts.profiles) == Some(p)
    case UnknownService(s) =>
      && FirstUnknownProfile(c.services, opts.profiles).None?
      && exists i :: 0 <= i < |opts.services| && opts.services[i] == s && !HasKey(active, s)
                     && forall j :: 0 <= j < i ==> HasKey(active, opts.services[j])
    case UnknownNetwork(_, _) => NamesKnown(c, opts) && exists i :: FirstBad(c, active, i, error)
    case UnknownVolume(_, _) => NamesKnown(c, opts) && exists i :: FirstBad(c, active, i, error)
    case MissingDependency(_, _) =>
      && NamesKnown(c, opts) && AllReferencesOk(c, opts)
      && exists v: nat, j: nat :: FirstUnknown(active, v, j) && error == MissingDependency(active[v].0, DepsOf(active[v].1)[j].0)
    case Cycle(path) =>
      && NamesKnown(c, opts) && AllReferencesOk(c, opts) && KnownUpTo(active, |active|, 0)
      && exists g, stuck :: Represents(active, g) && AreStuck(g, stuck) && path == NamesOf(g, stuck)
    case ConfigHash(s) =>
      && NamesKnown(c, opts) && AllReferencesOk(c, opts) && KnownUpTo(active, |active|, 0)
      && exists g, waves, w: nat, i: nat ::
           Represents(active, g) && AreLayers(g, waves) && FirstUnhashed(FrameOf(c, opts, hash), waves, w, i, s)
  }

  method MakePlan(c: Compose, opts: PlanOptions, hash: Service -> Option<string>) returns (r: Result<Plan, PlanError>)
    requires Parsed(c)
    ensures r.Ok? ==> IsPlan(c, opts, hash, r.value)
    ensures r.Err? ==> IsFault(c, opts, hash, r.error)
  {
    hide Represents, KnownUpTo, DepsOf, Progress, AreLayers, WellFormed, Covered, FirstUnknown, FirstBad, PlanShape, AreStuck;
    hide FirstUnhashed;
    var project := ProjectName(c, opts);
    var filtered := FilterServices(c, opts.profiles);
    if filtered.Err? {
      return Err(filtered.error);
    }
    var active := filtered.value;
    FilterIs(c.services, opts.profiles);
    for i := 0 to |opts.services|
      invariant forall s :: s in opts.services[..i] ==> HasKey(active, s)
    {
      if !HasKey(active, opts.services[i]) {
        assert forall j :: 0 <= j < i ==> opts.services[j] in opts.services[..i];
        return Err(UnknownService(opts.services[i]));
      }
    }
    assert opts.services[..|opts.services|] == opts.services;
    var bad := ValidateReferences(c, active);
    if bad.Some? {
      return Err(bad.value);
    }
    var graph := BuildGraph(active);
    if graph.Err? {
      return Err(graph.error);
    }
    var waves := TopologicalWaves(graph.value);
    if waves.Err? {
      return Err(waves.error);
    }
    var f := Frame(project, c.networks, c.volumes, active, hash);
    assert f == FrameOf(c, opts, hash);
    var creates := EmitCreates(f);
    var images := EmitImages(f, creates);
    NothingStarted(f, images);
    NoRunNames(images);
    var ops := EmitWaves(f, graph.value, waves.value, images);
    if ops.Err? {
      return Err(ops.error);
    }
    ghost var emitted :| Progress(f, ops.value, Nodes(graph.value), emitted) && Covered(f, Nodes(graph.value), emitted);
    ShapeReached(f, graph.value, ops.value, emitted);
    return Ok(Plan(ops.value, waves.value, project));
  }
}
