/**
 What execution asks of the driver, said of the compose file and the plan's operations,
 field by field: every call is one the file asks for, every operation is asked for once
 and in order, and a barrier waits as long as it should.
 */
module ComposeCalls {
  import opened Common
  import opened ComposeSchema
  import opened ServiceGraphs
  import opened ComposeDag
  import opened ComposePlan
  import opened ComposePlanShape
  import opened ComposeDeclared
  import opened ComposeExecutor
  import opened ComposeStartOrder

  /** The call does what the operation says, with the operation's own names. */
  ghost predicate Asks(op: Op, call: Call) {
    match call
    case DoCreateNetwork(name, driver) => op == CreateNetwork(name, driver)
    case DoCreateVolume(name, driver) => op == CreateVolume(name, driver)
    case DoBuild(service, context, tag) => op == BuildImage(service, context, tag)
    case DoPull(image) => op.PullImage? && op.image == image
    case DoRun(service, image, containerName) =>
      op.RunContainer? && op.service == service && op.image == image && op.containerName == containerName
    case DoInspect(_) => false
    case DoStop(id) => op == StopContainer(id)
    case DoRemove(id) => op == RemoveContainer(id)
  }

  /** The operations that are asked of the driver: all but barriers, builds where none are wanted, and pulls likewise. */
  function Performed(opts: ExecOpts, ops: seq<Op>): seq<Op> {
    if ops == [] then []
    else
      var before, op := Performed(opts, ops[..|ops| - 1]), ops[|ops| - 1];
      if op.WaitHealthy? || (op.BuildImage? && opts.noBuild) || (op.PullImage? && opts.noPull) then before else before + [op]
  }

  /** The calls of a log, without the inspections of barriers. */
  function Requests(log: seq<Call>): seq<Call> {
    if log == [] then []
    else
      var before, call := Requests(log[..|log| - 1]), log[|log| - 1];
      if call.DoInspect? then before else before + [call]
  }

  ghost predicate AskedInTurn(ops: seq<Op>, calls: seq<Call>) {
    |ops| == |calls| && forall i :: 0 <= i < |ops| ==> Asks(ops[i], calls[i])
  }

  // ---------------------------------------------------------------------------
  // Calls follow operations
  // ---------------------------------------------------------------------------

  lemma OneRequest(log: seq<Call>, call: Call)
    ensures Requests(log + [call]) == if call.DoInspect? then Requests(log) else Requests(log) + [call]
  {
    assert (log + [call])[..|log|] == log;
  }

  lemma {:induction false} PollsRequestNothing(log: seq<Call>, id: ContainerId, n: nat)
    ensures Requests(Polled(log, id, n)) == Requests(log)
  {
    if n > 0 {
      PollsRequestNothing(log, id, n - 1);
      OneRequest(Polled(log, id, n - 1), DoInspect(id));
    }
  }

  lemma OneAsked(ops: seq<Op>, calls: seq<Call>, op: Op, call: Call)
    requires AskedInTurn(ops, calls) && Asks(op, call)
    ensures AskedInTurn(ops + [op], calls + [call])
  {
    hide Asks;
  }

  lemma CallAsks(op: Op)
    requires !op.WaitHealthy?
    ensures Asks(op, CallFor(op)) && !CallFor(op).DoInspect?
  {}

  /** What one operation adds, however often a barrier inspects. */
  lemma OpAsks(opts: ExecOpts, ops: seq<Op>, op: Op, log0: seq<Call>, ids0: map<string, ContainerId>, log: seq<Call>)
    requires AskedInTurn(Performed(opts, ops), Requests(log0))
    requires
      if Skipped(opts, op) then log == log0
      else if op.WaitHealthy? then exists n: nat :: log == Polled(log0, WaitId(ids0, op), n)
      else log == log0 + [CallFor(op)]
    ensures AskedInTurn(Performed(opts, ops + [op]), Requests(log))
  {
    hide AskedInTurn, CallFor, Polled, WaitId;
    assert (ops + [op])[..|ops|] == ops;
    if Skipped(opts, op) {
    } else if op.WaitHealthy? {
      var n: nat :| log == Polled(log0, WaitId(ids0, op), n);
      PollsRequestNothing(log0, WaitId(ids0, op), n);
    } else {
      CallAsks(op);
      OneRequest(log0, CallFor(op));
      OneAsked(Performed(opts, ops), Requests(log0), op, CallFor(op));
    }
  }

  lemma {:induction false} RequestsFollow(d: Driver, opts: ExecOpts, ops: seq<Op>, k: nat, log: seq<Call>, ids: map<string, ContainerId>)
    requires k <= |ops| && Followed(d, opts, ops, k, log, ids)
    ensures AskedInTurn(Performed(opts, ops[..k]), Requests(log))
  {
    hide AskedInTurn, CallFor, HealthyAnswer, BarrierPolls, Polled, WaitId, Skipped, Performed;
    if k == 0 {
      assert AskedInTurn(Performed(opts, ops[..0]), Requests([])) by { NothingAsked(opts, ops); }
    } else {
      var op := ops[k - 1];
      var log0, ids0 :| OpDone(d, opts, op, log0, ids0, log, ids) && Followed(d, opts, ops, k - 1, log0, ids0);
      RequestsFollow(d, opts, ops, k - 1, log0, ids0);
      assert ops[..k] == ops[..k - 1] + [op];
      OpAsks(opts, ops[..k - 1], op, log0, ids0, log);
    }
  }

  lemma NothingAsked(opts: ExecOpts, ops: seq<Op>)
    ensures AskedInTurn(Performed(opts, ops[..0]), Requests([]))
  {}

  /** Where an execution stops, the calls are those of the operations up to there, the failed one included. */
  lemma StoppedFollow(d: Driver, opts: ExecOpts, ops: seq<Op>, k: nat, log: seq<Call>, error: DriverError)
    requires StoppedAt(d, opts, ops, k, log, error)
    ensures k < |ops| && AskedInTurn(Performed(opts, ops[..k + 1]), Requests(log))
  {
    hide AskedInTurn, CallFor, GaveUp, BarrierPolls, Polled, WaitId, Followed, Performed;
    var op := ops[k];
    var log0, ids0 :| Followed(d, opts, ops, k, log0, ids0) && OpFailed(d, opts, op, log0, ids0, log, error);
    RequestsFollow(d, opts, ops, k, log0, ids0);
    assert ops[..k + 1] == ops[..k] + [op];
    OpAsks(opts, ops[..k], op, log0, ids0, log);
  }

  /**
   The requests of an execution are, in turn, those of the plan's operations that it performs, up to
   the end, or up to and including the operation that failed.
   */
  lemma RequestsAreThePlan(d: Driver, opts: ExecOpts, ops: seq<Op>, log: seq<Call>)
    requires Executed(d, opts, ops, log)
    ensures exists k: nat :: k <= |ops| && AskedInTurn(Performed(opts, ops[..k]), Requests(log))
    ensures (exists ids :: Followed(d, opts, ops, |ops|, log, ids)) ==> AskedInTurn(Performed(opts, ops), Requests(log))
  {
    hide AskedInTurn, Followed, StoppedAt;
    assert ops[..|ops|] == ops;
    if ids :| Followed(d, opts, ops, |ops|, log, ids) {
      RequestsFollow(d, opts, ops, |ops|, log, ids);
      assert AskedInTurn(Performed(opts, ops[..|ops|]), Requests(log));
    } else {
      var k: nat, error :| StoppedAt(d, opts, ops, k, log, error);
      StoppedFollow(d, opts, ops, k, log, error);
    }
  }

  // ---------------------------------------------------------------------------
  // Every call is one the file asks for
  // ---------------------------------------------------------------------------

  ghost predicate CallDeclared(c: Compose, opts: PlanOptions, eopts: ExecOpts, project: string, call: Call) {
    match call
    case DoCreateNetwork(name, driver) => (name, driver) in c.networks
    case DoCreateVolume(name, driver) => (name, driver) in c.volumes
    case DoBuild(name, context, tag) =>
      && !eopts.noBuild && tag == project + "_" + name + ":latest"
      && exists svc :: Wanted(c, opts, name, svc) && svc.build == Some(context)
    case DoPull(image) =>
      !eopts.noPull && exists name, svc :: Wanted(c, opts, name, svc) && svc.build == None && svc.image == Some(image)
    case DoRun(name, image, containerName) =>
      && containerName == project + "_" + name
      && exists svc :: Wanted(c, opts, name, svc) && IsImage(project, name, svc, image)
    case DoInspect(_) => true
    case DoStop(_) => false
    case DoRemove(_) => false
  }

  lemma {:induction false} InRequests(log: seq<Call>, call: Call)
    ensures call in Requests(log) <==> call in log && !call.DoInspect?
  {
    if log != [] {
      assert log == log[..|log| - 1] + [log[|log| - 1]];
      InRequests(log[..|log| - 1], call);
    }
  }

  lemma {:induction false} InPerformed(opts: ExecOpts, ops: seq<Op>, op: Op)
    ensures op in Performed(opts, ops) <==>
              op in ops && !op.WaitHealthy? && !(op.BuildImage? && opts.noBuild) && !(op.PullImage? && opts.noPull)
  {
    if ops != [] {
      assert ops == ops[..|ops| - 1] + [ops[|ops| - 1]];
      InPerformed(opts, ops[..|ops| - 1], op);
    }
  }

  lemma AskedIsDeclared(c: Compose, opts: PlanOptions, hash: Service -> Option<string>, eopts: ExecOpts, project: string,
                        op: Op, call: Call)
    requires Declared(c, opts, hash, project, op) && Asks(op, call)
    requires !(op.BuildImage? && eopts.noBuild) && !(op.PullImage? && eopts.noPull)
    ensures CallDeclared(c, opts, eopts, project, call)
  {
    hide Wanted, IsImage, NeedsHealthy;
  }

  /** For every file `plan` accepts and every driver, failing wherever it likes: each call is one the file asks for. */
  lemma CallsAreDeclared(c: Compose, opts: PlanOptions, hash: Service -> Option<string>, p: Plan,
                         d: Driver, eopts: ExecOpts, log: seq<Call>)
    requires Parsed(c) && IsPlan(c, opts, hash, p) && Executed(d, eopts, p.ops, log)
    ensures forall call :: call in log ==> CallDeclared(c, opts, eopts, p.projectName, call)
  {
    hide IsPlan, Executed, Declared, Asks;
    PlanIsDeclared(c, opts, hash, p);
    RequestsAreThePlan(d, eopts, p.ops, log);
    var k: nat :| k <= |p.ops| && AskedInTurn(Performed(eopts, p.ops[..k]), Requests(log));
    forall call | call in log ensures CallDeclared(c, opts, eopts, p.projectName, call) {
      InRequests(log, call);
      if !call.DoInspect? {
        var i :| 0 <= i < |Requests(log)| && Requests(log)[i] == call;
        var op := Performed(eopts, p.ops[..k])[i];
        InPerformed(eopts, p.ops[..k], op);
        assert op in p.ops;
        AskedIsDeclared(c, opts, hash, eopts, p.projectName, op, call);
      }
    }
  }

  /** An execution that ends without an error has made every call the file asks for. */
  lemma EverythingIsAsked(c: Compose, opts: PlanOptions, hash: Service -> Option<string>, p: Plan,
                          d: Driver, eopts: ExecOpts, log: seq<Call>, ids: map<string, ContainerId>, call: Call)
    requires Parsed(c) && IsPlan(c, opts, hash, p) && Followed(d, eopts, p.ops, |p.ops|, log, ids)
    requires CallDeclared(c, opts, eopts, p.projectName, call) && !call.DoInspect?
    ensures call in log
  {
    hide IsPlan, Followed, Declared, Asks;
    PlanIsDeclared(c, opts, hash, p);
    RequestsAreThePlan(d, eopts, p.ops, log);
    var op := DeclaredOp(c, opts, hash, p, eopts, call);
    InPerformed(eopts, p.ops, op);
    var i :| 0 <= i < |Performed(eopts, p.ops)| && Performed(eopts, p.ops)[i] == op;
    var made := Requests(log)[i];
    AsksOne(op, made, call);
    InRequests(log, made);
  }

  /** An operation asks for one call only, but for the driver's own ids. */
  lemma AsksOne(op: Op, x: Call, y: Call)
    requires Asks(op, x) && Asks(op, y)
    ensures x == y
  {}

  lemma DeclaredOp(c: Compose, opts: PlanOptions, hash: Service -> Option<string>, p: Plan, eopts: ExecOpts, call: Call)
    returns (op: Op)
    requires Parsed(c) && IsPlan(c, opts, hash, p)
    requires CallDeclared(c, opts, eopts, p.projectName, call) && !call.DoInspect?
    ensures op in p.ops && Asks(op, call) && !op.WaitHealthy?
    ensures !(op.BuildImage? && eopts.noBuild) && !(op.PullImage? && eopts.noPull)
  {
    hide IsPlan, Wanted, IsImage;
    PlanIsDeclared(c, opts, hash, p);
    match call
    case DoCreateNetwork(name, driver) => op := CreateNetwork(name, driver);
    case DoCreateVolume(name, driver) => op := CreateVolume(name, driver);
    case DoBuild(name, context, tag) => op := BuildImage(name, context, tag);
    case DoPull(image) =>
      var name, svc :| Wanted(c, opts, name, svc) && svc.build == None && svc.image == Some(image);
      op := PullImage(name, image);
    case DoRun(name, image, containerName) =>
      var svc :| Wanted(c, opts, name, svc) && IsImage(p.projectName, name, svc, image);
      WantedIsHashed(c, opts, hash, p, name, svc);
      op := RunContainer(name, image, containerName, hash(svc).value);
  }

  lemma WantedIsHashed(c: Compose, opts: PlanOptions, hash: Service -> Option<string>, p: Plan, name: string, svc: Service)
    requires Parsed(c) && IsPlan(c, opts, hash, p) && Wanted(c, opts, name, svc)
    ensures hash(svc).Some?
  {
    hide Wanted, PlanShape, ReferencesOk, KnownUpTo, Represents, RunNames, AllNames;
    ActiveIsWanted(c, opts);
    EveryServiceHashed(FrameOf(c, opts, hash), p.ops, (name, svc));
  }

  // ---------------------------------------------------------------------------
  // Start order, said of the file
  // ---------------------------------------------------------------------------

  /** Call `i` ran the service and did not fail. */
  ghost predicate RanFine(d: Driver, log: seq<Call>, i: nat, service: string) {
    i < |log| && log[i].DoRun? && log[i].service == service && d.fails(log[..i + 1]) == None
  }

  /** Call `j` inspected the id that run `i` returned, and it was healthy or has no healthcheck. */
  ghost predicate WasHealthy(d: Driver, log: seq<Call>, i: nat, j: nat) {
    && i < j < |log| && log[j] == DoInspect(d.ran(log[..i + 1])) && d.fails(log[..j + 1]) == None
    && (d.health(log[..j + 1]) == None || d.health(log[..j + 1]) == Some(Healthy))
  }

  /** Before call `t`, everything the service depends on was run, and what must be healthy was seen so. */
  ghost predicate ReadyToRun(d: Driver, log: seq<Call>, t: nat, svc: Service) {
    && (forall dep :: NeedsService(svc, dep) ==> exists i: nat :: i < t && RanFine(d, log, i, dep))
    && (forall h :: NeedsHealthy(svc, h) ==> exists i: nat, j: nat :: j < t && RanFine(d, log, i, h) && WasHealthy(d, log, i, j))
  }

  lemma EarlierRun(d: Driver, log: seq<Call>, t: nat, service: string)
    requires t <= |log| && Started(d, log[..t], service)
    ensures exists i: nat :: i < t && RanFine(d, log, i, service)
  {
    var i: nat :| RanAt(d, log[..t], service, i);
    assert log[..t][..i + 1] == log[..i + 1];
    assert RanFine(d, log, i, service);
  }

  lemma EarlierHealthy(d: Driver, log: seq<Call>, t: nat, service: string)
    requires t <= |log| && SeenHealthy(d, log[..t], service)
    ensures exists i: nat, j: nat :: j < t && RanFine(d, log, i, service) && WasHealthy(d, log, i, j)
  {
    var i: nat, j: nat :| RanAt(d, log[..t], service, i) && InspectedAt(d, log[..t], i, j) && HealthyAnswer(d, log[..t][..j + 1]);
    assert log[..t][..i + 1] == log[..i + 1] && log[..t][..j + 1] == log[..j + 1];
    assert RanFine(d, log, i, service) && WasHealthy(d, log, i, j);
  }

  /**
   Every run is of a wanted service, after runs of all it depends on and healthy answers for all it
   needs healthy; no service is run twice; and every inspection is of an id its own run returned.
   */
  lemma StartOrderDeclared(c: Compose, opts: PlanOptions, hash: Service -> Option<string>, p: Plan,
                           d: Driver, eopts: ExecOpts, log: seq<Call>)
    requires Parsed(c) && IsPlan(c, opts, hash, p) && Executed(d, eopts, p.ops, log)
    ensures forall t: nat :: t < |log| && log[t].DoRun? ==>
              exists svc :: Wanted(c, opts, log[t].service, svc) && ReadyToRun(d, log, t, svc)
    ensures forall t, u :: 0 <= t < u < |log| && log[t].DoRun? && log[u].DoRun? ==> log[t].service != log[u].service
    ensures forall t: nat :: t < |log| && log[t].DoInspect? ==>
              exists i: nat, s :: i < t && RanFine(d, log, i, s) && log[t] == DoInspect(d.ran(log[..i + 1]))
  {
    hide IsPlan, Followed, StoppedAt, Wanted, NeedsService, NeedsHealthy, DepsOf, HealthyDependencies, Started, SeenHealthy, NeededHealthy;
    StartOrder(c, opts, hash, p, d, eopts, log);
    ActiveIsWanted(c, opts);
    var f := FrameOf(c, opts, hash);
    forall t: nat | t < |log| && log[t].DoRun?
      ensures exists svc :: Wanted(c, opts, log[t].service, svc) && ReadyToRun(d, log, t, svc)
    {
      assert MayRun(f, d, log[..t], log[t].service);
      var svc :| (log[t].service, svc) in f.active
        && (forall dep :: dep in DepsOf(svc) ==> Started(d, log[..t], dep.0))
        && (forall h :: h in HealthyDependencies(svc) ==> SeenHealthy(d, log[..t], h));
      forall dep | NeedsService(svc, dep) ensures exists i: nat :: i < t && RanFine(d, log, i, dep) {
        DependencyIs(svc, dep);
        var kind :| (dep, kind) in DepsOf(svc);
        assert Started(d, log[..t], (dep, kind).0);
        EarlierRun(d, log, t, dep);
      }
      forall h | NeedsHealthy(svc, h)
        ensures exists i: nat, j: nat :: j < t && RanFine(d, log, i, h) && WasHealthy(d, log, i, j)
      {
        DependencyIs(svc, h);
        EarlierHealthy(d, log, t, h);
      }
    }
    forall t: nat | t < |log| && log[t].DoInspect?
      ensures exists i: nat, s :: i < t && RanFine(d, log, i, s) && log[t] == DoInspect(d.ran(log[..i + 1]))
    {
      var s, i: nat :| NeededHealthy(f, s) && RanAt(d, log, s, i) && InspectedAt(d, log, i, t);
      assert RanFine(d, log, i, s);
    }
  }

  // ---------------------------------------------------------------------------
  // The report and the time a barrier takes
  // ---------------------------------------------------------------------------

  datatype CallKind = NetworkCall | VolumeCall | BuildCall | PullCall | OtherCall

  function CallKindOf(call: Call): CallKind {
    if call.DoCreateNetwork? then NetworkCall
    else if call.DoCreateVolume? then VolumeCall
    else if call.DoBuild? then BuildCall
    else if call.DoPull? then PullCall
    else OtherCall
  }

  function HowMany(log: seq<Call>, kind: CallKind): nat {
    if log == [] then 0 else HowMany(log[..|log| - 1], kind) + if CallKindOf(log[|log| - 1]) == kind then 1 else 0
  }

  lemma OneMoreCall(log: seq<Call>, call: Call, kind: CallKind)
    ensures HowMany(log + [call], kind) == HowMany(log, kind) + if CallKindOf(call) == kind then 1 else 0
  {
    assert (log + [call])[..|log|] == log;
  }

  lemma {:induction false} PollsCountNothing(log: seq<Call>, id: ContainerId, n: nat, kind: CallKind)
    requires kind != OtherCall
    ensures HowMany(Polled(log, id, n), kind) == HowMany(log, kind)
  {
    if n > 0 {
      PollsCountNothing(log, id, n - 1, kind);
      OneMoreCall(Polled(log, id, n - 1), DoInspect(id), kind);
    }
  }

  /** What a tally counts in the log. */
  ghost predicate TalliesLog(r: Report, log: seq<Call>) {
    && r.networks == HowMany(log, NetworkCall)
    && r.volumes == HowMany(log, VolumeCall)
    && r.built == HowMany(log, BuildCall)
    && r.pulled == HowMany(log, PullCall)
  }

  lemma CountsOneMore(r: Report, log: seq<Call>, op: Op)
    requires TalliesLog(r, log) && !op.WaitHealthy?
    ensures TalliesLog(Counted(op, r), log + [CallFor(op)])
  {
    OneMoreCall(log, CallFor(op), NetworkCall);
    OneMoreCall(log, CallFor(op), VolumeCall);
    OneMoreCall(log, CallFor(op), BuildCall);
    OneMoreCall(log, CallFor(op), PullCall);
  }

  lemma CountsPolls(r: Report, log: seq<Call>, id: ContainerId, n: nat)
    requires TalliesLog(r, log)
    ensures TalliesLog(r, Polled(log, id, n))
  {
    PollsCountNothing(log, id, n, NetworkCall);
    PollsCountNothing(log, id, n, VolumeCall);
    PollsCountNothing(log, id, n, BuildCall);
    PollsCountNothing(log, id, n, PullCall);
  }

  /** The report's numbers are the numbers of calls of each kind. */
  lemma {:induction false} ReportCounts(d: Driver, opts: ExecOpts, ops: seq<Op>, k: nat, log: seq<Call>, ids: map<string, ContainerId>)
    requires k <= |ops| && Followed(d, opts, ops, k, log, ids)
    ensures TalliesLog(Tally(opts, ops, k), log)
  {
    hide TalliesLog, CallFor, HealthyAnswer, BarrierPolls, Counted;
    if k == 0 {
      assert TalliesLog(Tally(opts, ops, 0), []) by { NothingCounted(opts, ops); }
    } else {
      var op := ops[k - 1];
      var log0, ids0 :| OpDone(d, opts, op, log0, ids0, log, ids) && Followed(d, opts, ops, k - 1, log0, ids0);
      ReportCounts(d, opts, ops, k - 1, log0, ids0);
      if Skipped(opts, op) {
      } else if op.WaitHealthy? {
        var n: nat :| log == Polled(log0, WaitId(ids0, op), n);
        CountsPolls(Tally(opts, ops, k - 1), log0, WaitId(ids0, op), n);
        assert Counted(op, Tally(opts, ops, k - 1)) == Tally(opts, ops, k - 1) by { BarriersDoNotCount(op, Tally(opts, ops, k - 1)); }
      } else {
        CountsOneMore(Tally(opts, ops, k - 1), log0, op);
      }
    }
  }

  lemma NothingCounted(opts: ExecOpts, ops: seq<Op>)
    ensures TalliesLog(Tally(opts, ops, 0), [])
  {}

  lemma BarriersDoNotCount(op: Op, r: Report)
    requires op.WaitHealthy?
    ensures Counted(op, r) == r
  {}

  /** The container behind inspection `log` is not healthy yet, and not unhealthy either. */
  predicate Undecided(d: Driver, log: seq<Call>) {
    d.fails(log) == None && d.health(log) != None && d.health(log) != Some(Healthy) && d.health(log) != Some(Unhealthy)
  }

  /**
   A barrier goes on while the answers are undecided, and ends with the first other one: it went
   through exactly if that is healthy or no healthcheck at all, and gives up saying which of the
   three reasons it had.
   */
  lemma BarrierEndsExactly(d: Driver, opts: ExecOpts, op: Op, log0: seq<Call>, ids0: map<string, ContainerId>, log: seq<Call>, n: nat)
    requires op.WaitHealthy? && log == Polled(log0, WaitId(ids0, op), n) && BarrierPolls(d, opts, log0, WaitId(ids0, op), n)
    ensures forall m: nat :: 1 <= m < n ==> Undecided(d, Polled(log0, WaitId(ids0, op), m))
    ensures OpDone(d, opts, op, log0, ids0, log, ids0)
            <==> d.fails(log) == None && (d.health(log) == None || d.health(log) == Some(Healthy))
    ensures forall error :: OpFailed(d, opts, op, log0, ids0, log, error) ==>
              || (d.fails(log) != None && error == CallFailed(d.fails(log).value))
              || (d.fails(log) == None && d.health(log) == Some(Unhealthy) && error == BecameUnhealthy(op.service))
              || (Undecided(d, log) && error == HealthcheckTimeout(op.service))
  {
    hide BarrierLimit, PollInterval, Polled, Waited;
    forall m: nat | 1 <= m < n ensures Undecided(d, Polled(log0, WaitId(ids0, op), m)) {
      assert InTime(d, log0, WaitId(ids0, op), m, BarrierLimit(opts), PollInterval(INTERVAL));
    }
  }

  // ---------------------------------------------------------------------------
  // The first failure ends it
  // ---------------------------------------------------------------------------

  /** No call of the log failed. */
  ghost predicate NoneFailed(d: Driver, log: seq<Call>) {
    forall t: nat :: 1 <= t <= |log| ==> d.fails(log[..t]) == None
  }

  lemma OneMoreFine(d: Driver, log: seq<Call>, call: Call)
    requires NoneFailed(d, log) && d.fails(log + [call]) == None
    ensures NoneFailed(d, log + [call])
  {
    forall t: nat | 1 <= t <= |log| + 1 ensures d.fails((log + [call])[..t]) == None {
      if t <= |log| {
        assert (log + [call])[..t] == log[..t];
      } else {
        assert (log + [call])[..t] == log + [call];
      }
    }
  }

  lemma {:induction false} PollsFine(d: Driver, log: seq<Call>, id: ContainerId, n: nat)
    requires NoneFailed(d, log) && forall m: nat :: 1 <= m <= n ==> d.fails(Polled(log, id, m)) == None
    ensures NoneFailed(d, Polled(log, id, n))
  {
    hide NoneFailed;
    if n > 0 {
      PollsFine(d, log, id, n - 1);
      assert d.fails(Polled(log, id, n)) == None;
      OneMoreFine(d, Polled(log, id, n - 1), DoInspect(id));
    }
  }

  lemma {:induction false} FollowedFine(d: Driver, opts: ExecOpts, ops: seq<Op>, k: nat, log: seq<Call>, ids: map<string, ContainerId>)
    requires k <= |ops| && Followed(d, opts, ops, k, log, ids)
    ensures NoneFailed(d, log)
  {
    hide CallFor, WaitId, Skipped, BarrierPolls, Polled;
    if k > 0 {
      var op := ops[k - 1];
      var log0, ids0 :| OpDone(d, opts, op, log0, ids0, log, ids) && Followed(d, opts, ops, k - 1, log0, ids0);
      FollowedFine(d, opts, ops, k - 1, log0, ids0);
      if Skipped(opts, op) {
      } else if op.WaitHealthy? {
        var n: nat :| log == Polled(log0, WaitId(ids0, op), n) && BarrierPolls(d, opts, log0, WaitId(ids0, op), n);
        BarrierEndsExactly(d, opts, op, log0, ids0, log, n);
        PollsFine(d, log0, WaitId(ids0, op), n);
      } else {
        OneMoreFine(d, log0, CallFor(op));
      }
    }
  }

  /**
   An execution that stops made no call after a failing one. Its error is a failed call's text exactly
   if the last call failed with that text; otherwise it names the service of the barrier it stopped at.
   */
  lemma StopsAtTheFirstFailure(d: Driver, opts: ExecOpts, ops: seq<Op>, k: nat, log: seq<Call>, error: DriverError)
    requires StoppedAt(d, opts, ops, k, log, error)
    ensures log != [] && NoneFailed(d, log[..|log| - 1])
    ensures forall text :: error == CallFailed(text) <==> d.fails(log) == Some(text)
    ensures !error.CallFailed? ==>
      && ops[k].WaitHealthy?
      && (if error.BecameUnhealthy? then d.health(log) == Some(Unhealthy) && error == BecameUnhealthy(ops[k].service)
          else Undecided(d, log) && error == HealthcheckTimeout(ops[k].service))
  {
    hide CallFor, WaitId, Followed, BarrierPolls, NoneFailed;
    var op := ops[k];
    var log0, ids0 :| Followed(d, opts, ops, k, log0, ids0) && OpFailed(d, opts, op, log0, ids0, log, error);
    FollowedFine(d, opts, ops, k, log0, ids0);
    if op.WaitHealthy? {
      var id := WaitId(ids0, op);
      var n: nat :| log == Polled(log0, id, n) && BarrierPolls(d, opts, log0, id, n)
        && GaveUp(d, log0, id, n, BarrierLimit(opts), PollInterval(INTERVAL), op.service, error);
      BarrierEndsExactly(d, opts, op, log0, ids0, log, n);
      assert n >= 1 by { AtLeastOnce(d, opts, log0, id, n); }
      PollsFine(d, log0, id, n - 1);
      assert log == Polled(log0, id, n - 1) + [DoInspect(id)];
      assert log[..|log| - 1] == Polled(log0, id, n - 1);
    } else {
      assert log[..|log| - 1] == log0;
    }
  }

  lemma AtLeastOnce(d: Driver, opts: ExecOpts, log: seq<Call>, id: ContainerId, n: nat)
    requires BarrierPolls(d, opts, log, id, n)
    ensures n >= 1
  {}

  /**
   A barrier that times out inspected every two seconds, until 125 seconds beyond the start period
   had passed, and not once more.
   */
  lemma BarrierWaitsOut(d: Driver, opts: ExecOpts, op: Op, log0: seq<Call>, ids0: map<string, ContainerId>, log: seq<Call>)
    requires op.WaitHealthy? && OpFailed(d, opts, op, log0, ids0, log, HealthcheckTimeout(op.service))
    ensures
      var id := if op.service in ids0 then ids0[op.service] else op.containerName;
      var limit := (if opts.startPeriod == None then 0 else opts.startPeriod.value) + 125_000;
      exists n: nat :: log == Polled(log0, id, n) && Waited(d, log0, id, n, 2_000) >= limit
        && forall m: nat :: 1 <= m < n ==> Waited(d, log0, id, m, 2_000) < limit
  {
    hide KeepPolling, Waited, Polled, BarrierLimit, PollInterval;
    Limits(opts);
    var id := WaitId(ids0, op);
    var n: nat :| log == Polled(log0, id, n) && BarrierPolls(d, opts, log0, id, n)
      && GaveUp(d, log0, id, n, BarrierLimit(opts), PollInterval(INTERVAL), op.service, HealthcheckTimeout(op.service));
    forall m: nat | 1 <= m < n ensures Waited(d, log0, id, m, 2_000) < BarrierLimit(opts) {
      assert InTime(d, log0, id, m, BarrierLimit(opts), PollInterval(INTERVAL));
    }
  }

  lemma Limits(opts: ExecOpts)
    ensures BarrierLimit(opts) == (if opts.startPeriod == None then 0 else opts.startPeriod.value) + 125_000
    ensures PollInterval(INTERVAL) == 2_000
  {}
}
