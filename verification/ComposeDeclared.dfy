/**
 What a plan is, said of the compose file alone: its operations are exactly those the
 file declares, each once, in the order the file demands; and the files that have a
 plan are exactly the sound ones.
 */
module ComposeDeclared {
  import opened Common
  import opened ComposeSchema
  import opened ComposeErrors
  import opened ServiceGraphs
  import opened ComposeDag
  import opened ComposeWaves
  import opened ComposeOrder
  import opened ComposePlan
  import opened ComposePlanShape
  import Sorting

  // ---------------------------------------------------------------------------
  // What the file says
  // ---------------------------------------------------------------------------

  /** The service is declared, and has no profiles or one that is enabled. */
  ghost predicate Wanted(c: Compose, opts: PlanOptions, name: string, svc: Service) {
    (name, svc) in c.services && (svc.profiles == [] || exists p :: p in svc.profiles && p in opts.profiles)
  }

  /** `depends_on` names the service, in either form. */
  ghost predicate NeedsService(svc: Service, name: string) {
    match svc.dependsOn
    case Empty => false
    case List(names) => name in names
    case Map(entries) => exists condition :: (name, condition) in entries
  }

  /** Only the long form can ask for health. */
  ghost predicate NeedsHealthy(svc: Service, name: string) {
    svc.dependsOn.Map? && (name, ServiceHealthy) in svc.dependsOn.entries
  }

  /** The name given on the command line, or else in the file, or else a default. */
  ghost predicate IsProject(c: Compose, opts: PlanOptions, project: string) {
    || opts.projectName == Some(project)
    || (opts.projectName == None && c.project == Some(project))
    || (opts.projectName == None && c.project == None && project == "project")
  }

  /** The image a service's container runs from: the one built for it, or else the one it names. */
  ghost predicate IsImage(project: string, name: string, svc: Service, image: string) {
    || (svc.build != None && image == project + "_" + name + ":latest")
    || (svc.build == None && svc.image == Some(image))
    || (svc.build == None && svc.image == None && image == "")
  }

  /** The file asks for the operation, in the plan of project `project`. */
  ghost predicate Declared(c: Compose, opts: PlanOptions, hash: Service -> Option<string>, project: string, op: Op) {
    match op
    case CreateNetwork(name, driver) => (name, driver) in c.networks
    case CreateVolume(name, driver) => (name, driver) in c.volumes
    case BuildImage(name, context, tag) =>
      exists svc :: Wanted(c, opts, name, svc) && svc.build == Some(context) && tag == project + "_" + name + ":latest"
    case PullImage(name, image) => exists svc :: Wanted(c, opts, name, svc) && svc.build == None && svc.image == Some(image)
    case RunContainer(name, image, containerName, configHash) =>
      exists svc :: Wanted(c, opts, name, svc) && IsImage(project, name, svc, image)
                    && containerName == project + "_" + name && hash(svc) == Some(configHash)
    case WaitHealthy(name, containerName) =>
      containerName == project + "_" + name
      && exists other, svc :: Wanted(c, opts, other, svc) && NeedsHealthy(svc, name)
    case StopContainer(_) => false
    case RemoveContainer(_) => false
  }

  // ---------------------------------------------------------------------------
  // The functions of planning say the same
  // ---------------------------------------------------------------------------

  lemma ActiveIsWanted(c: Compose, opts: PlanOptions)
    requires IsTable(c.services)
    ensures IsTable(Filter(c.services, opts.profiles))
    ensures forall name, svc :: (name, svc) in Filter(c.services, opts.profiles) <==> Wanted(c, opts, name, svc)
  {
    FilterIs(c.services, opts.profiles);
  }

  lemma ProjectIs(c: Compose, opts: PlanOptions)
    ensures forall project :: IsProject(c, opts, project) <==> project == ProjectName(c, opts)
  {}

  lemma ImageIs(project: string, name: string, svc: Service)
    ensures forall image :: IsImage(project, name, svc, image) <==> image == ImageRef(project, name, svc)
    ensures forall op :: ImageOp(Frame(project, [], [], [], _ => None), name, svc) == Some(op) <==>
              || (exists context :: svc.build == Some(context) && op == BuildImage(name, context, project + "_" + name + ":latest"))
              || (exists image :: svc.build == None && svc.image == Some(image) && op == PullImage(name, image))
  {}

  lemma DependencyIs(svc: Service, name: string)
    ensures NeedsService(svc, name) <==> exists kind :: (name, kind) in DepsOf(svc)
    ensures NeedsHealthy(svc, name) <==> name in HealthyDependencies(svc)
    ensures NeedsHealthy(svc, name) <==> (name, HealthyBefore) in DepsOf(svc)
  {
    HealthyIsAnEdgeKind(svc, name);
    match svc.dependsOn
    case Empty =>
    case List(names) =>
      if i :| 0 <= i < |names| && names[i] == name {
        assert DepsOf(svc)[i] == (name, StartedBefore);
      }
    case Map(entries) =>
      HealthyOfIs(entries, name);
      if condition :| (name, condition) in entries {
        var i :| 0 <= i < |entries| && entries[i] == (name, condition);
        assert DepsOf(svc)[i] == (name, KindOf(condition));
      }
      if kind :| (name, kind) in DepsOf(svc) {
        var i :| 0 <= i < |DepsOf(svc)| && DepsOf(svc)[i] == (name, kind);
        assert entries[i] == (name, entries[i].1);
      }
  }

  // ---------------------------------------------------------------------------
  // The operations of a plan
  // ---------------------------------------------------------------------------

  lemma PlacedIsDeclared(c: Compose, opts: PlanOptions, hash: Service -> Option<string>, before: seq<Op>, op: Op)
    requires IsTable(c.services) && Placed(FrameOf(c, opts, hash), before, op)
    ensures Declared(c, opts, hash, ProjectName(c, opts), op)
  {
    hide DepsOf, HealthyDependencies, Wanted, Filter, ImageRef, ImageOp, IsImage, ProjectName;
    var f := FrameOf(c, opts, hash);
    ActiveIsWanted(c, opts);
    match op
    case CreateNetwork(_, _) =>
    case CreateVolume(_, _) =>
    case BuildImage(name, _, _) =>
      var svc :| (name, svc) in f.active && ImageOp(f, name, svc) == Some(op);
      SameImageOp(f, name, svc);
      ImageIs(f.project, name, svc);
    case PullImage(name, _) =>
      var svc :| (name, svc) in f.active && ImageOp(f, name, svc) == Some(op);
      SameImageOp(f, name, svc);
      ImageIs(f.project, name, svc);
    case RunContainer(name, _, _, _) =>
      var svc :| RunPlaced(f, before, op, svc);
      ImageIs(f.project, name, svc);
    case WaitHealthy(name, _) =>
      var e :| e in f.active && name in HealthyDependencies(e.1);
      DependencyIs(e.1, name);
      assert Wanted(c, opts, e.0, e.1);
  }

  /** The build or pull depends on nothing else of the frame than the project. */
  lemma SameImageOp(f: Frame, name: string, svc: Service)
    ensures ImageOp(f, name, svc) == ImageOp(Frame(f.project, [], [], [], _ => None), name, svc)
  {}

  lemma DeclaredIsThere(c: Compose, opts: PlanOptions, hash: Service -> Option<string>, ops: seq<Op>, op: Op)
    requires IsTable(c.services) && PlanShape(FrameOf(c, opts, hash), ops)
    requires Declared(c, opts, hash, ProjectName(c, opts), op)
    ensures op in ops
  {
    hide DepsOf, HealthyDependencies, Wanted, Filter, ImageRef, ImageOp, IsImage, ProjectName, Placed, HasRun, HasWait;
    var f := FrameOf(c, opts, hash);
    ActiveIsWanted(c, opts);
    match op
    case CreateNetwork(_, _) =>
    case CreateVolume(_, _) =>
    case BuildImage(name, context, tag) =>
      var svc :| Wanted(c, opts, name, svc) && svc.build == Some(context) && tag == f.project + "_" + name + ":latest";
      SameImageOp(f, name, svc);
      ImageIs(f.project, name, svc);
      assert (name, svc) in f.active && ImageOp(f, name, svc) == Some(op);
    case PullImage(name, image) =>
      var svc :| Wanted(c, opts, name, svc) && svc.build == None && svc.image == Some(image);
      SameImageOp(f, name, svc);
      ImageIs(f.project, name, svc);
      assert (name, svc) in f.active && ImageOp(f, name, svc) == Some(op);
    case RunContainer(name, image, containerName, configHash) =>
      var svc :| Wanted(c, opts, name, svc) && IsImage(f.project, name, svc, image) && hash(svc) == Some(configHash);
      ImageIs(f.project, name, svc);
      var i := RunsExactlyOnce(f, ops, name, svc);
      var own := PlacedRun(f, ops, i);
      SameEntry(f.active, name, svc, own);
      NameIs(f.project, name);
      assert ops[i] == op;
    case WaitHealthy(name, containerName) =>
      var other, svc :| Wanted(c, opts, other, svc) && NeedsHealthy(svc, name);
      assert (other, svc) in f.active;
      DependencyIs(svc, name);
      WaitIsThere(f, ops, (other, svc), name);
      NameIs(f.project, name);
  }

  lemma NameIs(project: string, name: string)
    ensures ContainerName(project, name) == project + "_" + name
  {}

  lemma WaitIsThere(f: Frame, ops: seq<Op>, e: (string, Service), name: string)
    requires PlanShape(f, ops) && e in f.active && name in HealthyDependencies(e.1)
    ensures WaitHealthy(name, ContainerName(f.project, name)) in ops
  {
    hide DepsOf, HealthyDependencies, ImageOp;
    assert NeededHealthy(f, name);
    var w, i := BarrierExactlyOnce(f, ops, name);
    assert Placed(f, ops[..w], ops[w]);
  }

  lemma NothingTwice(f: Frame, ops: seq<Op>, i: nat, j: nat)
    requires Ordered(f, ops) && i < j < |ops|
    ensures ops[i] != ops[j]
  {
    hide DepsOf, HealthyDependencies, ImageOp, NeededHealthy;
    assert Placed(f, ops[..j], ops[j]);
    Before(ops, j);
    assert ops[i] in ops[..j];
  }

  /** The operations of a plan are exactly those the file declares, each once. */
  lemma PlanIsDeclared(c: Compose, opts: PlanOptions, hash: Service -> Option<string>, p: Plan)
    requires Parsed(c) && IsPlan(c, opts, hash, p)
    ensures IsProject(c, opts, p.projectName)
    ensures forall op :: op in p.ops <==> Declared(c, opts, hash, p.projectName, op)
    ensures forall op :: multiset(p.ops)[op] <= 1
  {
    hide Declared, Placed, Complete, ReferencesOk, KnownUpTo, Represents, AreLayers, RunNames, AllNames, FirstUnknownProfile;
    var f := FrameOf(c, opts, hash);
    ProjectIs(c, opts);
    forall op ensures op in p.ops <==> Declared(c, opts, hash, p.projectName, op) {
      if op in p.ops {
        var i := OpAt(p.ops, op);
        assert Placed(f, p.ops[..i], p.ops[i]);
        PlacedIsDeclared(c, opts, hash, p.ops[..i], op);
      } else if Declared(c, opts, hash, p.projectName, op) {
        DeclaredIsThere(c, opts, hash, p.ops, op);
      }
    }
    forall i, j | 0 <= i < j < |p.ops| ensures p.ops[i] != p.ops[j] {
      NothingTwice(f, p.ops, i, j);
    }
    Sorting.DistinctIsOnce(p.ops);
  }

  // ---------------------------------------------------------------------------
  // Their order
  // ---------------------------------------------------------------------------

  /** `x` must come before `y` in every plan of the file. */
  ghost predicate MustPrecede(c: Compose, opts: PlanOptions, x: Op, y: Op) {
    || (x.CreateNetwork? && !y.CreateNetwork?)
    || (x.CreateVolume? && !y.CreateNetwork? && !y.CreateVolume?)
    || ((x.BuildImage? || x.PullImage?) && (y.RunContainer? || y.WaitHealthy?))
    || (x.RunContainer? && y.WaitHealthy? && x.service == y.service)
    || (x.RunContainer? && y.RunContainer?
        && exists svc :: Wanted(c, opts, y.service, svc) && NeedsService(svc, x.service))
    || (x.WaitHealthy? && y.RunContainer?
        && exists svc :: Wanted(c, opts, y.service, svc) && NeedsHealthy(svc, x.service))
  }

  lemma RunAfterNeeded(c: Compose, opts: PlanOptions, f: Frame, ops: seq<Op>, i: nat, j: nat)
    requires IsTable(c.services) && f.active == Filter(c.services, opts.profiles) && PlanShape(f, ops) && i < |ops| && j < |ops|
    requires ops[j].RunContainer? && (ops[i].RunContainer? || ops[i].WaitHealthy?)
    requires exists svc :: Wanted(c, opts, ops[j].service, svc)
               && if ops[i].RunContainer? then NeedsService(svc, ops[i].service) else NeedsHealthy(svc, ops[i].service)
    ensures i < j
  {
    hide DepsOf, HealthyDependencies, ImageOp, Wanted, Filter, Ordered, Complete;
    ActiveIsWanted(c, opts);
    var svc :| Wanted(c, opts, ops[j].service, svc)
               && if ops[i].RunContainer? then NeedsService(svc, ops[i].service) else NeedsHealthy(svc, ops[i].service);
    DependencyIs(svc, ops[i].service);
    assert (ops[j].service, svc) in f.active;
    if ops[i].RunContainer? {
      var kind :| (ops[i].service, kind) in DepsOf(svc);
      RunsAfterDependencies(f, ops, ops[j].service, svc, j, (ops[i].service, kind));
      var k: nat :| k < j && RunAt(ops, k, ops[i].service);
      RunsDiffer(f, ops, i, k);
      RunsDiffer(f, ops, k, i);
    } else {
      RunsAfterDependencies(f, ops, ops[j].service, svc, j, (ops[i].service, HealthyBefore));
      var k: nat :| k < j && WaitAt(ops, k, ops[i].service);
      PlacedWait(f, ops, i);
      PlacedWait(f, ops, k);
    }
  }

  /** Creation of networks, of volumes, images, containers and barriers come in that order. */
  function Stage(op: Op): nat {
    match op
    case CreateNetwork(_, _) => 0
    case CreateVolume(_, _) => 1
    case BuildImage(_, _, _) => 2
    case PullImage(_, _) => 2
    case _ => 3
  }

  lemma StagesInOrder(f: Frame, ops: seq<Op>, i: nat, j: nat)
    requires Ordered(f, ops) && i < |ops| && j < |ops| && Stage(ops[i]) < Stage(ops[j])
    ensures i < j
  {
    hide DepsOf, HealthyDependencies, ImageOp, NeededHealthy, HasRun, HasWait, HasImageOp, RunPlaced;
    if j <= i {
      assert Placed(f, ops[..i], ops[i]) && Placed(f, ops[..j], ops[j]);
      Before(ops, i);
    }
  }

  /** Where the file demands an order, the plan has it. */
  lemma PlanKeepsOrder(c: Compose, opts: PlanOptions, hash: Service -> Option<string>, p: Plan, i: nat, j: nat)
    requires Parsed(c) && IsPlan(c, opts, hash, p) && i < |p.ops| && j < |p.ops| && MustPrecede(c, opts, p.ops[i], p.ops[j])
    ensures i < j
  {
    hide ReferencesOk, KnownUpTo, Represents, AreLayers, RunNames, AllNames, FirstUnknownProfile, Placed, Complete, Wanted;
    hide NeedsService, NeedsHealthy;
    var f := FrameOf(c, opts, hash);
    var x, y := p.ops[i], p.ops[j];
    PlanIsDeclared(c, opts, hash, p);
    assert x in p.ops && y in p.ops;
    if Stage(x) < Stage(y) {
      StagesInOrder(f, p.ops, i, j);
    } else if y.RunContainer? {
      RunAfterNeeded(c, opts, f, p.ops, i, j);
    } else {
      PlacedWait(f, p.ops, j);
      var run :| run in p.ops[..j] && run.RunContainer? && run.service == y.service;
      var k := OpAt(p.ops[..j], run);
      RunsDiffer(f, p.ops, i, k);
      RunsDiffer(f, p.ops, k, i);
    }
  }
}
