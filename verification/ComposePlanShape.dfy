/** What an accepted plan looks like, read off by position; and that acceptance excludes every fault. */
module ComposePlanShape {
  import opened Common
  import opened ComposeSchema
  import opened ComposeErrors
  import opened ServiceGraphs
  import opened ComposeDag
  import opened ComposeOrder
  import opened ComposeWaves
  import opened ComposePlan

  ghost predicate RunAt(ops: seq<Op>, i: nat, service: string) {
    i < |ops| && ops[i].RunContainer? && ops[i].service == service
  }

  ghost predicate WaitAt(ops: seq<Op>, i: nat, service: string) {
    i < |ops| && ops[i].WaitHealthy? && ops[i].service == service
  }

  lemma OpAt(ops: seq<Op>, op: Op) returns (i: nat)
    requires op in ops
    ensures i < |ops| && ops[i] == op
  {
    i :| 0 <= i < |ops| && ops[i] == op;
  }

  lemma Before(ops: seq<Op>, i: nat)
    requires i <= |ops|
    ensures forall j :: 0 <= j < i ==> ops[j] in ops[..i]
  {
    forall j | 0 <= j < i ensures ops[j] in ops[..i] {
      assert ops[..i][j] == ops[j];
    }
  }

  lemma RunsExactlyOnce(f: Frame, ops: seq<Op>, service: string, svc: Service) returns (i: nat)
    requires PlanShape(f, ops) && (service, svc) in f.active
    ensures RunAt(ops, i, service) && forall j: nat :: RunAt(ops, j, service) ==> j == i
  {
    assert HasRun(ops, service);
    var op :| op in ops && op.RunContainer? && op.service == service;
    i := OpAt(ops, op);
    forall j: nat | RunAt(ops, j, service) ensures j == i {
      RunsDiffer(f, ops, i, j);
      RunsDiffer(f, ops, j, i);
    }
  }

  lemma RunsDiffer(f: Frame, ops: seq<Op>, i: nat, j: nat)
    requires Ordered(f, ops) && i < |ops| && j < |ops| && ops[i].RunContainer? && RunAt(ops, j, ops[i].service)
    ensures i <= j
  {
    hide DepsOf, HealthyDependencies, ImageOp;
    assert Placed(f, ops[..i], ops[i]);
    Before(ops, i);
  }

  /** Where a service is started, all it depends on has been, and so has the barrier of all it needs healthy. */
  lemma RunsAfterDependencies(f: Frame, ops: seq<Op>, service: string, svc: Service, i: nat, dep: (string, EdgeKind))
    requires IsTable(f.active) && Ordered(f, ops) && (service, svc) in f.active && RunAt(ops, i, service) && dep in DepsOf(svc)
    ensures exists j: nat :: j < i && RunAt(ops, j, dep.0)
    ensures dep.1.HealthyBefore? ==> exists j: nat :: j < i && WaitAt(ops, j, dep.0)
  {
    hide DepsOf, ImageOp, HealthyDependencies;
    var own := PlacedRun(f, ops, i);
    SameEntry(f.active, service, svc, own);
    var op :| op in ops[..i] && op.RunContainer? && op.service == dep.0;
    var j := OpAt(ops[..i], op);
    assert RunAt(ops, j, dep.0);
    if dep.1.HealthyBefore? {
      HealthyIsAnEdgeKind(svc, dep.0);
      assert HasWait(ops[..i], dep.0);
      var w :| w in ops[..i] && w.WaitHealthy? && w.service == dep.0;
      var k := OpAt(ops[..i], w);
      assert WaitAt(ops, k, dep.0);
    }
  }

  lemma PlacedRun(f: Frame, ops: seq<Op>, i: nat) returns (svc: Service)
    requires Ordered(f, ops) && i < |ops| && ops[i].RunContainer?
    ensures RunPlaced(f, ops[..i], ops[i], svc)
  {
    hide RunPlaced;
    assert Placed(f, ops[..i], ops[i]);
    svc :| RunPlaced(f, ops[..i], ops[i], svc);
  }

  lemma SameEntry(active: Table<Service>, service: string, a: Service, b: Service)
    requires IsTable(active) && (service, a) in active && (service, b) in active
    ensures a == b
  {
    var i: nat :| i < |active| && active[i] == (service, a);
    var j: nat :| j < |active| && active[j] == (service, b);
    TableKeysDistinct(active, i, j);
  }

  lemma PlacedWait(f: Frame, ops: seq<Op>, w: nat)
    requires Ordered(f, ops) && w < |ops| && ops[w].WaitHealthy?
    ensures HasRun(ops[..w], ops[w].service) && forall v: nat :: v < w ==> !WaitAt(ops, v, ops[w].service)
  {
    hide DepsOf, HealthyDependencies, ImageOp, RunPlaced, HasImageOp, NeededHealthy, HasRun;
    assert Placed(f, ops[..w], ops[w]);
    Before(ops, w);
  }

  /** A service needed healthy has exactly one barrier, after its own start. */
  lemma BarrierExactlyOnce(f: Frame, ops: seq<Op>, service: string) returns (w: nat, i: nat)
    requires PlanShape(f, ops) && NeededHealthy(f, service)
    ensures WaitAt(ops, w, service) && forall v: nat :: WaitAt(ops, v, service) ==> v == w
    ensures i < w && RunAt(ops, i, service)
  {
    hide Ordered, NeededHealthy;
    assert HasWait(ops, service);
    hide Complete;
    var op :| op in ops && op.WaitHealthy? && op.service == service;
    w := OpAt(ops, op);
    PlacedWait(f, ops, w);
    var run :| run in ops[..w] && run.RunContainer? && run.service == service;
    i := OpAt(ops[..w], run);
    forall v: nat | WaitAt(ops, v, service) ensures v == w {
      PlacedWait(f, ops, v);
      assert WaitAt(ops, v, ops[w].service) && WaitAt(ops, w, ops[v].service);
    }
  }

  /** An operation that creates, and the one build or pull of a service, where they stand. */
  lemma CreatesBefore(f: Frame, ops: seq<Op>, i: nat, j: nat)
    requires Ordered(f, ops) && i < |ops| && j < |ops| && Creates(ops[i]) && !Creates(ops[j])
    ensures i < j
  {
    hide RunPlaced, HasImageOp, HasRun, HasWait, NeededHealthy;
    assert Placed(f, ops[..i], ops[i]);
    Before(ops, i);
  }

  predicate ImageAt(ops: seq<Op>, j: nat, service: string) {
    j < |ops| && (ops[j].BuildImage? || ops[j].PullImage?) && ops[j].service == service
  }

  lemma ImagesDiffer(f: Frame, ops: seq<Op>, i: nat, j: nat, service: string)
    requires Ordered(f, ops) && ImageAt(ops, i, service) && ImageAt(ops, j, service)
    ensures i <= j
  {
    hide ImageOp;
    assert Placed(f, ops[..i], ops[i]);
    Before(ops, i);
  }

  /**
   An active service is started exactly once. All creation of networks and volumes comes first.
   If it has an image to provide, that is built or pulled exactly once, before the start, and
   the container runs from that very reference.
   */
  lemma StartedOnceFromItsImage(f: Frame, ops: seq<Op>, service: string, svc: Service) returns (i: nat)
    requires IsTable(f.active) && PlanShape(f, ops) && (service, svc) in f.active
    ensures RunAt(ops, i, service) && forall j: nat :: RunAt(ops, j, service) ==> j == i
    ensures forall c: nat :: c < |ops| && Creates(ops[c]) ==> c < i
    ensures ImageOp(f, service, svc).Some? ==>
              exists b: nat :: b < i && ops[b] == ImageOp(f, service, svc).value
                && (forall c: nat :: c < |ops| && Creates(ops[c]) ==> c < b)
                && forall j: nat :: ImageAt(ops, j, service) ==> j == b
    ensures ops[i].image == ImageRef(f.project, service, svc)
  {
    hide DepsOf, HealthyDependencies, Placed, ImageOp;
    i := RunsExactlyOnce(f, ops, service, svc);
    var own := PlacedRun(f, ops, i);
    SameEntry(f.active, service, svc, own);
    forall c: nat | c < |ops| && Creates(ops[c]) ensures c < i {
      CreatesBefore(f, ops, c, i);
    }
    if ImageOp(f, service, svc).Some? {
      var b := OpAt(ops[..i], ImageOp(f, service, svc).value);
      ImageOpIs(f, service, svc);
      assert ops[b] == ImageOp(f, service, svc).value;
      forall c: nat | c < |ops| && Creates(ops[c]) ensures c < b {
        CreatesBefore(f, ops, c, b);
      }
      forall j: nat | ImageAt(ops, j, service) ensures j == b {
        ImagesDiffer(f, ops, j, b, service);
        ImagesDiffer(f, ops, b, j, service);
      }
    }
  }

  lemma ImageOpIs(f: Frame, service: string, svc: Service)
    requires ImageOp(f, service, svc).Some?
    ensures var op := ImageOp(f, service, svc).value; (op.BuildImage? || op.PullImage?) && op.service == service
  {}

  // ---------------------------------------------------------------------------
  // Acceptance and faults exclude each other
  // ---------------------------------------------------------------------------

  lemma {:induction false} SameGraphSameLayers(active: Table<Service>, g: ServiceGraph, h: ServiceGraph, k: nat)
    requires Represents(active, g) && Represents(active, h)
    ensures Below(g, k) == Below(h, k)
  {
    if k > 0 {
      SameGraphSameLayers(active, g, h, k - 1);
      forall v: nat, u: nat ensures Dep(g, v, u) <==> Dep(h, v, u) {
        if u < |active| {
          DepIsDependsOn(active, g, v, u);
          DepIsDependsOn(active, h, v, u);
        }
      }
    }
  }

  lemma NoCycleFault(active: Table<Service>, g: ServiceGraph, waves: seq<seq<nat>>, h: ServiceGraph, stuck: seq<nat>)
    requires Represents(active, g) && AreLayers(g, waves) && Represents(active, h)
    ensures !AreStuck(h, stuck)
  {
    hide Represents, Below;
    assert |g.names| == |active| == |h.names| by { SameSize(active, g); SameSize(active, h); }
    SameGraphSameLayers(active, g, h, |active|);
    LayersFit(g, waves);
    assert stuck != [] ==> stuck[0] in stuck;
  }

  lemma SameSize(active: Table<Service>, g: ServiceGraph)
    requires Represents(active, g)
    ensures |g.names| == |active|
  {}

  lemma EveryServiceHashed(f: Frame, ops: seq<Op>, e: (string, Service))
    requires IsTable(f.active) && PlanShape(f, ops) && e in f.active
    ensures f.hash(e.1).Some?
  {
    hide DepsOf, HealthyDependencies, ImageOp, Placed;
    var i := RunsExactlyOnce(f, ops, e.0, e.1);
    var svc := PlacedRun(f, ops, i);
    SameEntry(f.active, e.0, e.1, svc);
  }

  /** A file that has a plan has no fault, so planning refuses exactly the files that have one. */
  lemma PlanExcludesFault(c: Compose, opts: PlanOptions, hash: Service -> Option<string>, p: Plan, error: PlanError)
    requires Parsed(c) && IsPlan(c, opts, hash, p)
    ensures !IsFault(c, opts, hash, error)
  {
    hide Represents, AreLayers, AreStuck, PlanShape, DepsOf, RunNames, AllNames, Below, ReferencesOk, BadReference;
    var f := FrameOf(c, opts, hash);
    FilterIs(c.services, opts.profiles);
    match error
    case UnknownProfile(_) =>
    case UnknownService(_) =>
    case UnknownNetwork(_, _) => NoBadReference(c, f.active, error);
    case UnknownVolume(_, _) => NoBadReference(c, f.active, error);
    case MissingDependency(_, _) =>
    case Cycle(path) =>
      var g :| Represents(f.active, g) && AreLayers(g, p.waves);
      forall h, stuck | Represents(f.active, h) ensures !AreStuck(h, stuck) {
        NoCycleFault(f.active, g, p.waves, h, stuck);
      }
    case ConfigHash(_) =>
      forall e | e in f.active ensures f.hash(e.1).Some? {
        EveryServiceHashed(f, p.ops, e);
      }
  }

  lemma NoBadReference(c: Compose, active: Table<Service>, error: PlanError)
    requires forall e :: e in active ==> ReferencesOk(c, e.1)
    ensures forall i :: !FirstBad(c, active, i, error)
  {
    hide NetworkOk, VolumeOk;
    forall i ensures !FirstBad(c, active, i, error) {
      if 0 <= i < |active| {
        assert ReferencesOk(c, active[i].1);
      }
    }
  }
}
